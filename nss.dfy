/**
 * The NSS arcade board's DIP-switch table (`information.nss`): up to 16
 * named settings, each with a list of options rendered as "vvvv:name",
 * built from a descriptor's "nss" section.
 */
module Nss {
  import opened Wrappers
  import opened Text
  import opened Descriptor

  /** More than 16 DIP switches is not possible. */
  const MaxSettings: nat := 16

  /** `information.nss`: the setting names, and the option lists of all 16 slots. */
  datatype DipTable = DipTable(settings: seq<string>, options: seq<seq<string>>)

  predicate WellFormed(t: DipTable) {
    |t.settings| <= MaxSettings && |t.options| == MaxSettings
  }

  /** A 16-bit option value. */
  type Word = x: nat | x < 0x1_0000

  /** `(uint16)xml_parse_hex(...)`: the value kept to 16 bits. */
  function AsWord(content: string): Option<Word> {
    Some(Hex(content) % 0x1_0000)
  }

  /** Every "name" attribute is accepted, so the last one names the setting. */
  function AsName(content: string): Option<Option<string>> {
    Some(Some(content))
  }

  function OptionValue(leaf: Node): (v: nat)
    ensures v < 0x1_0000
  {
    Choose<Word>(leaf.attributes, "value", AsWord, 0)
  }

  function OptionName(leaf: Node): string {
    Choose(leaf.attributes, "name", AsText, "")
  }

  /** One option line: four hex digits of its value, ':' and its name. */
  function OptionText(leaf: Node): string {
    Hex4(OptionValue(leaf)) + ":" + OptionName(leaf)
  }

  /** The option lines of one "setting" element: one per child element, whatever its name. */
  function OptionTexts(leaves: seq<Node>): (r: seq<string>)
    ensures |r| == |leaves|
    ensures forall k :: 0 <= k < |r| ==> r[k] == OptionText(leaves[k])
    decreases |leaves|
  {
    if leaves == [] then []
    else
      var front := leaves[..|leaves| - 1];
      assert forall k :: 0 <= k < |front| ==> front[k] == leaves[k];
      OptionTexts(front) + [OptionText(leaves[|leaves| - 1])]
  }

  /** The setting's name if it has a "name" attribute: the last one. */
  function SettingName(node: Node): Option<string> {
    Choose(node.attributes, "name", AsName, None)
  }

  /**
   * One element of the "nss" section. A "setting" takes the next free
   * number; its option list is replaced, and its name is recorded (which
   * makes the number taken) only if it has one. Once 16 settings are
   * named, nothing more changes.
   */
  function NssStep(t: DipTable, node: Node): (r: DipTable)
    requires WellFormed(t)
    ensures WellFormed(r)
    ensures t.settings <= r.settings && |r.settings| <= |t.settings| + 1
    ensures forall j :: 0 <= j < MaxSettings && j != |t.settings| ==> r.options[j] == t.options[j]
    ensures node.name == "setting" && |t.settings| < MaxSettings ==> r.options[|t.settings|] == OptionTexts(node.children)
  {
    var number := |t.settings|;
    if node.name != "setting" || number >= MaxSettings then t
    else
      var options := t.options[number := OptionTexts(node.children)];
      match SettingName(node)
      case Some(n) => DipTable(t.settings + [n], options)
      case None => DipTable(t.settings, options)
  }

  /** The elements of the "nss" section in document order. */
  function NssFold(t: DipTable, nodes: seq<Node>): (r: DipTable)
    requires WellFormed(t)
    ensures WellFormed(r)
    ensures t.settings <= r.settings
    decreases |nodes|
  {
    if nodes == [] then t else NssStep(NssFold(t, nodes[..|nodes| - 1]), nodes[|nodes| - 1])
  }

  /** Compiling two runs of elements one after the other is compiling them together. */
  lemma {:induction false} NssFoldConcat(t: DipTable, xs: seq<Node>, ys: seq<Node>)
    requires WellFormed(t)
    ensures NssFold(t, xs + ys) == NssFold(NssFold(t, xs), ys)
    decreases |ys|
  {
    if ys == [] {
      assert xs + ys == xs;
    } else {
      var ys' := ys[..|ys| - 1];
      assert (xs + ys)[..|xs + ys| - 1] == xs + ys';
      assert (xs + ys)[|xs + ys| - 1] == ys[|ys| - 1];
      NssFoldConcat(t, xs, ys');
    }
  }

  /** With 16 settings named, the rest of the section changes nothing (the source stops its loop there). */
  lemma {:induction false} NssSaturated(t: DipTable, nodes: seq<Node>)
    requires WellFormed(t) && |t.settings| >= MaxSettings
    ensures NssFold(t, nodes) == t
    decreases |nodes|
  {
    if nodes != [] {
      NssSaturated(t, nodes[..|nodes| - 1]);
    }
  }

  /** Once 16 settings are named, the rest of the section changes nothing: stopping the loop there is sound. */
  lemma NssStopsAt(t: DipTable, nodes: seq<Node>, i: nat)
    requires WellFormed(t) && i <= |nodes|
    requires |NssFold(t, nodes[..i]).settings| >= MaxSettings
    ensures NssFold(t, nodes) == NssFold(t, nodes[..i])
  {
    TakeDropRejoin(nodes, i);
    NssFoldConcat(t, nodes[..i], nodes[i..]);
    NssSaturated(NssFold(t, nodes[..i]), nodes[i..]);
  }

  /** The names of the named "setting" elements, in document order. */
  function SettingNames(nodes: seq<Node>): seq<string>
    decreases |nodes|
  {
    if nodes == [] then []
    else
      var last := nodes[|nodes| - 1];
      SettingNames(nodes[..|nodes| - 1])
        + (if last.name == "setting" && SettingName(last).Some? then [SettingName(last).value] else [])
  }

  /** The named "setting" elements, in document order: the ones that take a number. */
  function NamedSettings(nodes: seq<Node>): (r: seq<Node>)
    ensures |r| == |SettingNames(nodes)|
    ensures forall i :: 0 <= i < |r| ==> SettingName(r[i]) == Some(SettingNames(nodes)[i])
    decreases |nodes|
  {
    if nodes == [] then []
    else
      var last := nodes[|nodes| - 1];
      NamedSettings(nodes[..|nodes| - 1]) + (if last.name == "setting" && SettingName(last).Some? then [last] else [])
  }

  function Take16(s: seq<string>): (r: seq<string>)
    ensures |r| <= MaxSettings && r <= s
  {
    if |s| <= MaxSettings then s else s[..MaxSettings]
  }

  /** The settings are the named settings in document order, cut at 16. */
  lemma {:induction false} NssSettingsAreNames(t: DipTable, nodes: seq<Node>)
    requires WellFormed(t)
    ensures NssFold(t, nodes).settings == Take16(t.settings + SettingNames(nodes))
    decreases |nodes|
  {
    if nodes != [] {
      var front := nodes[..|nodes| - 1];
      var last := nodes[|nodes| - 1];
      NssSettingsAreNames(t, front);
      var all := t.settings + SettingNames(front);
      if last.name == "setting" && SettingName(last).Some? {
        var n := SettingName(last).value;
        assert t.settings + SettingNames(nodes) == all + [n];
        if |all| >= MaxSettings {
          assert (all + [n])[..MaxSettings] == all[..MaxSettings];
        }
      } else {
        assert t.settings + SettingNames(nodes) == all;
      }
    }
  }

  /**
   * The option lists of settings named before the section, and of slots
   * past the one after the last named setting, are untouched.
   */
  lemma {:induction false} NssOptionsFrame(t: DipTable, nodes: seq<Node>, k: nat)
    requires WellFormed(t)
    requires k < |t.settings| || |NssFold(t, nodes).settings| < k < MaxSettings
    ensures NssFold(t, nodes).options[k] == t.options[k]
    decreases |nodes|
  {
    if nodes != [] {
      NssOptionsFrame(t, nodes[..|nodes| - 1], k);
    }
  }

  /**
   * Every setting the section names keeps its own option lines: the slot
   * of the j-th named setting holds that setting's options, whatever came
   * after it in the section.
   */
  lemma {:induction false} NssOptionsOfNamed(t: DipTable, nodes: seq<Node>, k: nat)
    requires WellFormed(t)
    requires |t.settings| <= k < |NssFold(t, nodes).settings|
    ensures k - |t.settings| < |NamedSettings(nodes)|
    ensures NssFold(t, nodes).options[k] == OptionTexts(NamedSettings(nodes)[k - |t.settings|].children)
    decreases |nodes|
  {
    var front, last := nodes[..|nodes| - 1], nodes[|nodes| - 1];
    var f := NssFold(t, front);
    NssSettingsAreNames(t, front);
    var named := last.name == "setting" && SettingName(last).Some?;
    assert NamedSettings(nodes) == NamedSettings(front) + (if named then [last] else []);
    if k < |f.settings| {
      NssOptionsOfNamed(t, front, k);
      assert NamedSettings(nodes)[k - |t.settings|] == NamedSettings(front)[k - |t.settings|];
    } else {
      assert k == |f.settings| < MaxSettings && named;
      assert |NamedSettings(front)| == k - |t.settings|;
    }
  }

  /** Reading an option line back: its first four characters are the value in hex, then ':', then the name. */
  lemma OptionTextRoundTrip(leaf: Node)
    ensures var s := OptionText(leaf);
      && Hex(s[..4]) == OptionValue(leaf)
      && s[4] == ':'
      && s[5..] == OptionName(leaf)
  {
    var s := OptionText(leaf);
    assert s[..4] == Hex4(OptionValue(leaf));
    Hex4RoundTrip(OptionValue(leaf));
  }
}
