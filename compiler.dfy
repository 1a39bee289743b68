/**
 * Everything one section element changes, gathered into one record, and
 * the whole descriptor's effect as a fold over its sections. The
 * `Cartridge` class's methods are proved against these functions; the
 * lemmas here relate the fold to the per-concern folds of `Sections`,
 * `Chips` and `Nss`.
 */
module Compiler {
  import opened Wrappers
  import opened Text
  import opened Descriptor
  import opened Mappings
  import opened Sections
  import opened Nss
  import opened Firmware
  import opened Chips

  /** The part of the cartridge the section compilers write. */
  datatype State = State(
    mapping: seq<Mapping>,
    ramSize: u32,
    capabilities: set<Capability>,
    dip: DipTable,
    chip: Settings,
    storage: Storage,
    log: seq<Diagnostic>)

  predicate Sound(st: State) {
    WellFormed(st.dip)
  }

  /** One section element: every concern advanced by its own function. */
  function SectionState(node: Node, setup: Setup, host: Host, st: State): (r: State)
    requires Sound(st)
    ensures Sound(r)
  {
    var e := SectionMaps(node, setup, st.ramSize);
    State(
      st.mapping + e.maps,
      e.ramSize,
      st.capabilities + SectionCapabilities(node),
      SectionDip(node, st.dip),
      SectionSettings(node, setup, st.chip),
      SectionStorage(node, host, st.storage),
      st.log + SectionLog(node, host))
  }

  function CartridgeState(nodes: seq<Node>, setup: Setup, host: Host, st: State): (r: State)
    requires Sound(st)
    ensures Sound(r)
    decreases |nodes|
  {
    if nodes == [] then st else SectionState(nodes[|nodes| - 1], setup, host, CartridgeState(nodes[..|nodes| - 1], setup, host, st))
  }

  /** Compiling two runs of sections one after the other is compiling them together. */
  lemma {:induction false} CartridgeStateConcat(xs: seq<Node>, ys: seq<Node>, setup: Setup, host: Host, st: State)
    requires Sound(st)
    ensures CartridgeState(xs + ys, setup, host, st) == CartridgeState(ys, setup, host, CartridgeState(xs, setup, host, st))
    decreases |ys|
  {
    if ys == [] {
      assert xs + ys == xs;
    } else {
      var ys' := ys[..|ys| - 1];
      assert (xs + ys)[..|xs + ys| - 1] == xs + ys';
      assert (xs + ys)[|xs + ys| - 1] == ys[|ys| - 1];
      CartridgeStateConcat(xs, ys', setup, host, st);
      CartridgeStateStep(xs + ys, setup, host, st);
      CartridgeStateStep(ys, setup, host, CartridgeState(xs, setup, host, st));
    }
  }

  /**
   * The fold over sections is each concern's own fold: the table grows by
   * exactly the compiled Mappings, the flags by exactly the sections'
   * flags, the log by exactly the sections' warnings.
   */
  lemma CartridgeStateComponents(nodes: seq<Node>, setup: Setup, host: Host, st: State)
    requires Sound(st)
    ensures var r := CartridgeState(nodes, setup, host, st);
      var e := CartridgeMaps(nodes, setup, st.ramSize);
      && r.mapping == st.mapping + e.maps
      && r.ramSize == e.ramSize
      && r.capabilities == st.capabilities + CartridgeCapabilities(nodes)
      && r.dip == CartridgeDip(nodes, st.dip)
      && r.chip == CartridgeSettings(nodes, setup, st.chip)
      && r.storage == CartridgeStorage(nodes, host, st.storage)
      && r.log == st.log + CartridgeLog(nodes, host)
  {
    StateMaps(nodes, setup, host, st);
    StateOthers(nodes, setup, host, st);
  }

  lemma {:induction false} StateMaps(nodes: seq<Node>, setup: Setup, host: Host, st: State)
    requires Sound(st)
    ensures var r := CartridgeState(nodes, setup, host, st);
      var e := CartridgeMaps(nodes, setup, st.ramSize);
      r.mapping == st.mapping + e.maps && r.ramSize == e.ramSize
    decreases |nodes|
  {
    if nodes != [] {
      var front, last := nodes[..|nodes| - 1], nodes[|nodes| - 1];
      StateMaps(front, setup, host, st);
      var prev := CartridgeState(front, setup, host, st);
      var before := CartridgeMaps(front, setup, st.ramSize);
      CartridgeStateStep(nodes, setup, host, st);
      SectionStateMaps(last, setup, host, prev);
      var step := SectionMaps(last, setup, prev.ramSize);
      CartridgeMapsStep(nodes, setup, st.ramSize);
      assert st.mapping + before.maps + step.maps == st.mapping + (before.maps + step.maps);
    }
  }

  lemma CartridgeMapsStep(nodes: seq<Node>, setup: Setup, rs: u32)
    requires nodes != []
    ensures var before := CartridgeMaps(nodes[..|nodes| - 1], setup, rs);
      var step := SectionMaps(nodes[|nodes| - 1], setup, before.ramSize);
      CartridgeMaps(nodes, setup, rs) == Emit(before.maps + step.maps, step.ramSize)
  {
  }

  lemma SectionStateMaps(node: Node, setup: Setup, host: Host, st: State)
    requires Sound(st)
    ensures var e := SectionMaps(node, setup, st.ramSize);
      var r := SectionState(node, setup, host, st);
      r.mapping == st.mapping + e.maps && r.ramSize == e.ramSize
  {
  }

  lemma CartridgeStateStep(nodes: seq<Node>, setup: Setup, host: Host, st: State)
    requires Sound(st) && nodes != []
    ensures CartridgeState(nodes, setup, host, st)
         == SectionState(nodes[|nodes| - 1], setup, host, CartridgeState(nodes[..|nodes| - 1], setup, host, st))
  {
  }

  lemma {:induction false} StateOthers(nodes: seq<Node>, setup: Setup, host: Host, st: State)
    requires Sound(st)
    ensures var r := CartridgeState(nodes, setup, host, st);
      && r.capabilities == st.capabilities + CartridgeCapabilities(nodes)
      && r.dip == CartridgeDip(nodes, st.dip)
      && r.chip == CartridgeSettings(nodes, setup, st.chip)
      && r.storage == CartridgeStorage(nodes, host, st.storage)
      && r.log == st.log + CartridgeLog(nodes, host)
    decreases |nodes|
  {
    if nodes != [] {
      var front, last := nodes[..|nodes| - 1], nodes[|nodes| - 1];
      StateOthers(front, setup, host, st);
      var prev := CartridgeState(front, setup, host, st);
      var r := CartridgeState(nodes, setup, host, st);
      CartridgeStateStep(nodes, setup, host, st);
      FoldSteps(nodes, setup, host, st.chip, st.storage);
      CapabilitiesStep(last, setup, host, prev, st.capabilities, CartridgeCapabilities(front));
      LogStep(last, setup, host, prev, st.log, CartridgeLog(front, host));
      CartridgeDipStep(nodes, st.dip);
      ChipStep(last, setup, host, prev);
    }
  }

  lemma CapabilitiesStep(node: Node, setup: Setup, host: Host, prev: State, c0: set<Capability>, c1: set<Capability>)
    requires Sound(prev) && prev.capabilities == c0 + c1
    ensures SectionState(node, setup, host, prev).capabilities == c0 + (c1 + SectionCapabilities(node))
  {
  }

  lemma LogStep(node: Node, setup: Setup, host: Host, prev: State, l0: seq<Diagnostic>, l1: seq<Diagnostic>)
    requires Sound(prev) && prev.log == l0 + l1
    ensures SectionState(node, setup, host, prev).log == l0 + (l1 + SectionLog(node, host))
  {
  }

  lemma ChipStep(node: Node, setup: Setup, host: Host, prev: State)
    requires Sound(prev)
    ensures var r := SectionState(node, setup, host, prev);
      && r.dip == SectionDip(node, prev.dip)
      && r.chip == SectionSettings(node, setup, prev.chip)
      && r.storage == SectionStorage(node, host, prev.storage)
  {
  }

  lemma FoldSteps(nodes: seq<Node>, setup: Setup, host: Host, chip: Settings, storage: Storage)
    requires nodes != []
    ensures var front, last := nodes[..|nodes| - 1], nodes[|nodes| - 1];
      && CartridgeCapabilities(nodes) == CartridgeCapabilities(front) + SectionCapabilities(last)
      && CartridgeSettings(nodes, setup, chip) == SectionSettings(last, setup, CartridgeSettings(front, setup, chip))
      && CartridgeStorage(nodes, host, storage) == SectionStorage(last, host, CartridgeStorage(front, host, storage))
      && CartridgeLog(nodes, host) == CartridgeLog(front, host) + SectionLog(last, host)
  {
  }

  /**
   * `parse_xml`: the table is emptied and the NSS setting names cleared
   * before the descriptor's sections are compiled; B.S.X. modes then mark
   * the cartridge as having a B.S.X. slot.
   */
  function XmlState(heads: seq<Node>, setup: Setup, host: Host, st: State): (r: State)
    requires Sound(st)
  {
    var start := st.(mapping := [], dip := st.dip.(settings := []));
    var after := CartridgeState(SectionsOf(heads), setup, host, start);
    after.(capabilities := after.capabilities + (if setup.mode == Bsx || setup.mode == BsxSlotted then {HasBsxSlot} else {}))
  }

  /** After `parse_xml` the table is exactly what the descriptor's sections compile to. */
  lemma XmlStateMapping(heads: seq<Node>, setup: Setup, host: Host, st: State)
    requires Sound(st)
    ensures XmlState(heads, setup, host, st).mapping == CartridgeMaps(SectionsOf(heads), setup, st.ramSize).maps
    ensures XmlState(heads, setup, host, st).dip.settings == Take16(SettingNamesOfSections(SectionsOf(heads)))
  {
    var start := st.(mapping := [], dip := st.dip.(settings := []));
    CartridgeStateComponents(SectionsOf(heads), setup, host, start);
    assert [] + CartridgeMaps(SectionsOf(heads), setup, st.ramSize).maps == CartridgeMaps(SectionsOf(heads), setup, st.ramSize).maps;
    DipSettingsAreNames(SectionsOf(heads), start.dip);
    assert [] + SettingNamesOfSections(SectionsOf(heads)) == SettingNamesOfSections(SectionsOf(heads));
  }

  /** The names of the named settings of one section: none unless it is an "nss" section. */
  function SectionSettingNames(node: Node): seq<string> {
    if KindOf(node.name) == NssSection then SettingNames(node.children) else []
  }

  /** The names of the named settings of every "nss" section, in document order. */
  function SettingNamesOfSections(nodes: seq<Node>): seq<string>
    decreases |nodes|
  {
    if nodes == [] then [] else SettingNamesOfSections(nodes[..|nodes| - 1]) + SectionSettingNames(nodes[|nodes| - 1])
  }

  /** One section appends its setting names to the table's, cut at 16. */
  lemma SectionDipNames(node: Node, t: DipTable)
    requires WellFormed(t)
    ensures SectionDip(node, t).settings == Take16(t.settings + SectionSettingNames(node))
  {
    if KindOf(node.name) == NssSection {
      NssSettingsAreNames(t, node.children);
    } else {
      assert t.settings + [] == t.settings;
    }
  }

  lemma {:induction false} DipSettingsAreNames(nodes: seq<Node>, t: DipTable)
    requires WellFormed(t)
    ensures CartridgeDip(nodes, t).settings == Take16(t.settings + SettingNamesOfSections(nodes))
    decreases |nodes|
  {
    if nodes != [] {
      DipSettingsAreNames(nodes[..|nodes| - 1], t);
      DipSettingsStep(nodes, t);
    }
  }

  lemma DipSettingsStep(nodes: seq<Node>, t: DipTable)
    requires WellFormed(t) && nodes != []
    requires var front := nodes[..|nodes| - 1];
      CartridgeDip(front, t).settings == Take16(t.settings + SettingNamesOfSections(front))
    ensures CartridgeDip(nodes, t).settings == Take16(t.settings + SettingNamesOfSections(nodes))
  {
    var front, last := nodes[..|nodes| - 1], nodes[|nodes| - 1];
    var before := CartridgeDip(front, t);
    CartridgeDipStep(nodes, t);
    SectionDipNames(last, before);
    NamesStep(nodes);
    Take16Chain(t.settings, SettingNamesOfSections(front), SectionSettingNames(last));
  }

  lemma CartridgeDipStep(nodes: seq<Node>, t: DipTable)
    requires WellFormed(t) && nodes != []
    ensures CartridgeDip(nodes, t) == SectionDip(nodes[|nodes| - 1], CartridgeDip(nodes[..|nodes| - 1], t))
  {
  }

  lemma NamesStep(nodes: seq<Node>)
    requires nodes != []
    ensures SettingNamesOfSections(nodes) == SettingNamesOfSections(nodes[..|nodes| - 1]) + SectionSettingNames(nodes[|nodes| - 1])
  {
  }

  /** Cutting at 16, appending and cutting again is appending to the uncut list and cutting once. */
  lemma Take16Chain(s: seq<string>, front: seq<string>, more: seq<string>)
    ensures Take16(Take16(s + front) + more) == Take16(s + (front + more))
  {
    Take16Append(s + front, more);
    assert s + front + more == s + (front + more);
  }

  /** Cutting at 16 before appending more and cutting again is cutting once. */
  lemma Take16Append(s: seq<string>, more: seq<string>)
    ensures Take16(Take16(s) + more) == Take16(s + more)
  {
    if |s| > MaxSettings {
      assert (s[..MaxSettings] + more)[..MaxSettings] == (s + more)[..MaxSettings];
    }
  }

  /** A B.S.X. slot is recorded exactly in the two B.S.X. modes (or if it already was). */
  lemma XmlStateBsxSlot(heads: seq<Node>, setup: Setup, host: Host, st: State)
    requires Sound(st)
    ensures HasBsxSlot in XmlState(heads, setup, host, st).capabilities
        <==> HasBsxSlot in st.capabilities || setup.mode == Bsx || setup.mode == BsxSlotted
  {
    var start := st.(mapping := [], dip := st.dip.(settings := []));
    CartridgeStateComponents(SectionsOf(heads), setup, host, start);
    NoSectionSetsBsxSlot(SectionsOf(heads));
  }

  lemma {:induction false} NoSectionSetsBsxSlot(nodes: seq<Node>)
    ensures HasBsxSlot !in CartridgeCapabilities(nodes)
    decreases |nodes|
  {
    if nodes != [] {
      NoSectionSetsBsxSlot(nodes[..|nodes| - 1]);
    }
  }
}
