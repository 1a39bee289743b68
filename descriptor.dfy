/**
 * The already-parsed cartridge descriptor: a tree of named elements, each
 * with an ordered list of named attributes. The XML text parser that builds
 * it is not part of this model.
 */
module Descriptor {
  import opened Wrappers
  import opened Text

  datatype Attribute = Attribute(name: string, content: string)

  datatype Node = Node(name: string, attributes: seq<Attribute>, children: seq<Node>)

  /**
   * The value left behind by the source's attribute loops
   * `foreach(attr, attrs) if(attr.name == name) target = ...`: every
   * attribute called `name` whose content `pick` accepts overwrites the
   * value, in document order; all other attributes leave it alone.
   */
  function Choose<T>(attrs: seq<Attribute>, name: string, pick: string -> Option<T>, init: T): (r: T)
    decreases |attrs|
  {
    if attrs == [] then init
    else
      var a := attrs[|attrs| - 1];
      if a.name == name && pick(a.content).Some? then pick(a.content).value
      else Choose(attrs[..|attrs| - 1], name, pick, init)
  }

  /** With no accepted attribute of that name, the value is the initial one. */
  lemma {:induction false} ChooseDefault<T>(attrs: seq<Attribute>, name: string, pick: string -> Option<T>, init: T)
    requires forall i :: 0 <= i < |attrs| && attrs[i].name == name ==> pick(attrs[i].content).None?
    ensures Choose(attrs, name, pick, init) == init
    decreases |attrs|
  {
    if attrs != [] {
      var front := attrs[..|attrs| - 1];
      assert forall i :: 0 <= i < |front| ==> front[i] == attrs[i];
      ChooseDefault(front, name, pick, init);
    }
  }

  /** The value is the initial one or what `pick` accepted from some attribute of that name. */
  lemma {:induction false} ChooseAccepted<T>(attrs: seq<Attribute>, name: string, pick: string -> Option<T>, init: T)
    ensures var r := Choose(attrs, name, pick, init);
      r == init || exists i :: 0 <= i < |attrs| && attrs[i].name == name && pick(attrs[i].content) == Some(r)
    decreases |attrs|
  {
    if attrs != [] {
      var front := attrs[..|attrs| - 1];
      var a := attrs[|attrs| - 1];
      if !(a.name == name && pick(a.content).Some?) {
        ChooseAccepted(front, name, pick, init);
        var r := Choose(front, name, pick, init);
        if r != init {
          var i :| 0 <= i < |front| && front[i].name == name && pick(front[i].content) == Some(r);
          assert attrs[i] == front[i];
        }
      } else {
        assert attrs[|attrs| - 1] == a;
      }
    }
  }

  /** The last accepted attribute decides the value; earlier ones do not matter. */
  lemma {:induction false} ChooseLastWins<T>(attrs: seq<Attribute>, name: string, pick: string -> Option<T>, init: T, i: nat)
    requires i < |attrs| && attrs[i].name == name && pick(attrs[i].content).Some?
    requires forall j :: i < j < |attrs| && attrs[j].name == name ==> pick(attrs[j].content).None?
    ensures Choose(attrs, name, pick, init) == pick(attrs[i].content).value
    decreases |attrs|
  {
    if i < |attrs| - 1 {
      var front := attrs[..|attrs| - 1];
      assert forall j :: i < j < |front| ==> front[j] == attrs[j];
      ChooseLastWins(front, name, pick, init, i);
    }
  }

  /** Runs the attribute loop; the result is the value `Choose` describes. */
  method ScanAttributes<T>(attrs: seq<Attribute>, name: string, pick: string -> Option<T>, init: T) returns (r: T)
    ensures r == Choose(attrs, name, pick, init)
  {
    r := init;
    var i := 0;
    while i < |attrs|
      invariant 0 <= i <= |attrs|
      invariant r == Choose(attrs[..i], name, pick, init)
    {
      if attrs[i].name == name {
        var v := pick(attrs[i].content);
        if v.Some? {
          r := v.value;
        }
      }
      assert attrs[..i + 1][..i] == attrs[..i];
      i := i + 1;
    }
    assert attrs[..i] == attrs;
  }

  /** Attribute readers: the attribute's text, as it stands. */
  function AsText(content: string): Option<string> {
    Some(content)
  }

  /** Attribute readers: `xml_parse_hex`. */
  function AsHex(content: string): Option<u32> {
    Some(Hex(content))
  }

  /** Attribute readers: `xml_parse_unsigned`. */
  function AsUnsigned(content: string): Option<u32> {
    Some(Unsigned(content))
  }
}
