/**
 * What the descriptor's sections write besides the mapping table: the
 * chips' settings, the DSP firmware images, the warnings raised while
 * loading firmware, and the NSS DIP-switch table. Each is a function of one
 * section element and the value before it, folded over the sections in
 * document order.
 */
module Chips {
  import opened Wrappers
  import opened Text
  import opened Descriptor
  import opened Sections
  import opened Nss
  import opened Firmware

  /** `icd2.revision`, the DSPs' models and clocks, `spc7110.data_rom_offset` and the link settings. */
  datatype Settings = Settings(
    icd2Revision: nat,
    necRevision: NecRevision, necFrequency: u32,
    hitachiFrequency: u32,
    spc7110DataRomOffset: u32,
    linkFrequency: u32, linkProgram: string)

  /** The ICD2 revision an "icd2" section sets: 1 unless its last "revision" attribute reads "1" or "2". */
  function Icd2Revision(node: Node): (r: nat)
    ensures r == 1 || r == 2
  {
    Choose<Icd2Rev>(node.attributes, "revision", Icd2RevisionOf, 1)
  }

  /** The data ROM offset an "spc7110" section sets. */
  const Spc7110DefaultOffset: u32 := 0x100000

  /** The settings after one section element. */
  function SectionSettings(node: Node, setup: Setup, s: Settings): Settings {
    match KindOf(node.name)
    case Icd2Section => if setup.mode == SuperGameBoy then s.(icd2Revision := Icd2Revision(node)) else s
    case NecDspSection =>
      var c := NecConfigOf(node.attributes);
      s.(necRevision := c.revision, necFrequency := c.frequency)
    case HitachiDspSection => s.(hitachiFrequency := HitachiConfigOf(node.attributes).frequency)
    case Spc7110Section => s.(spc7110DataRomOffset := Spc7110Offset(node.children, Spc7110DefaultOffset))
    case LinkSection =>
      s.(linkFrequency := Choose<u32>(node.attributes, "frequency", AsUnsigned, 1),
         linkProgram := Choose(node.attributes, "program", AsText, ""))
    case _ => s
  }

  function CartridgeSettings(nodes: seq<Node>, setup: Setup, s: Settings): Settings
    decreases |nodes|
  {
    if nodes == [] then s else SectionSettings(nodes[|nodes| - 1], setup, CartridgeSettings(nodes[..|nodes| - 1], setup, s))
  }

  /** The last section element of the given kind, if any. */
  function LastOfKind(nodes: seq<Node>, kind: Kind): (r: Option<Node>)
    ensures r.Some? ==> KindOf(r.value.name) == kind && r.value in nodes
    ensures r.Some? ==> exists k :: 0 <= k < |nodes| && nodes[k] == r.value && NoneOfKindAfter(nodes, k, kind)
    ensures r.None? ==> forall k :: 0 <= k < |nodes| ==> KindOf(nodes[k].name) != kind
    decreases |nodes|
  {
    if nodes == [] then None
    else if KindOf(nodes[|nodes| - 1].name) == kind then
      assert NoneOfKindAfter(nodes, |nodes| - 1, kind);
      Some(nodes[|nodes| - 1])
    else
      var front := nodes[..|nodes| - 1];
      assert forall k :: 0 <= k < |front| ==> front[k] == nodes[k];
      var r := LastOfKind(front, kind);
      if r.Some? then
        var k :| 0 <= k < |front| && front[k] == r.value && NoneOfKindAfter(front, k, kind);
        assert nodes[k] == r.value && NoneOfKindAfter(nodes, k, kind);
        r
      else r
  }

  /** No section after position k is of the given kind. */
  predicate NoneOfKindAfter(nodes: seq<Node>, k: nat, kind: Kind) {
    forall j :: k < j < |nodes| ==> KindOf(nodes[j].name) != kind
  }

  /** The NEC DSP's model and clock are those of the last "necdsp" section; without one they are untouched. */
  lemma {:induction false} NecSettingsFromLastSection(nodes: seq<Node>, setup: Setup, s: Settings)
    ensures var r := CartridgeSettings(nodes, setup, s);
      match LastOfKind(nodes, NecDspSection)
      case Some(sec) => r.necRevision == NecConfigOf(sec.attributes).revision && r.necFrequency == NecConfigOf(sec.attributes).frequency
      case None => r.necRevision == s.necRevision && r.necFrequency == s.necFrequency
    decreases |nodes|
  {
    if nodes != [] {
      var front := nodes[..|nodes| - 1];
      NecSettingsFromLastSection(front, setup, s);
      assert CartridgeSettings(nodes, setup, s) == SectionSettings(nodes[|nodes| - 1], setup, CartridgeSettings(front, setup, s));
      if KindOf(nodes[|nodes| - 1].name) != NecDspSection {
        assert LastOfKind(nodes, NecDspSection) == LastOfKind(front, NecDspSection);
      }
    }
  }

  /** The link settings are those of the last "link" section; without one they are untouched. */
  lemma {:induction false} LinkSettingsFromLastSection(nodes: seq<Node>, setup: Setup, s: Settings)
    ensures var r := CartridgeSettings(nodes, setup, s);
      match LastOfKind(nodes, LinkSection)
      case Some(sec) =>
        && r.linkFrequency == Choose<u32>(sec.attributes, "frequency", AsUnsigned, 1)
        && r.linkProgram == Choose(sec.attributes, "program", AsText, "")
      case None => r.linkFrequency == s.linkFrequency && r.linkProgram == s.linkProgram
    decreases |nodes|
  {
    if nodes != [] {
      var front := nodes[..|nodes| - 1];
      LinkSettingsFromLastSection(front, setup, s);
      var r' := CartridgeSettings(front, setup, s);
      assert CartridgeSettings(nodes, setup, s) == SectionSettings(nodes[|nodes| - 1], setup, r');
      if KindOf(nodes[|nodes| - 1].name) != LinkSection {
        assert LastOfKind(nodes, LinkSection) == LastOfKind(front, LinkSection);
      }
    }
  }

  /** The Hitachi DSP's clock is that of the last "hitachidsp" section, 20 MHz when it gives none; without one it is untouched. */
  lemma {:induction false} HitachiSettingsFromLastSection(nodes: seq<Node>, setup: Setup, s: Settings)
    ensures var r := CartridgeSettings(nodes, setup, s);
      match LastOfKind(nodes, HitachiDspSection)
      case Some(sec) => r.hitachiFrequency == Choose<u32>(sec.attributes, "frequency", AsUnsigned, 20000000)
      case None => r.hitachiFrequency == s.hitachiFrequency
    decreases |nodes|
  {
    if nodes != [] {
      var front := nodes[..|nodes| - 1];
      HitachiSettingsFromLastSection(front, setup, s);
      var r' := CartridgeSettings(front, setup, s);
      assert CartridgeSettings(nodes, setup, s) == SectionSettings(nodes[|nodes| - 1], setup, r');
      if KindOf(nodes[|nodes| - 1].name) != HitachiDspSection {
        assert LastOfKind(nodes, HitachiDspSection) == LastOfKind(front, HitachiDspSection);
      }
    }
  }

  /** Outside Super Game Boy mode the ICD2 revision is never written. */
  lemma {:induction false} Icd2RevisionOnlyInSuperGameBoyMode(nodes: seq<Node>, setup: Setup, s: Settings)
    requires setup.mode != SuperGameBoy
    ensures CartridgeSettings(nodes, setup, s).icd2Revision == s.icd2Revision
    decreases |nodes|
  {
    if nodes != [] {
      Icd2RevisionOnlyInSuperGameBoyMode(nodes[..|nodes| - 1], setup, s);
    }
  }

  /** With no "offset" on any `map` under "mcu", the SPC7110 data ROM starts at 0x100000. */
  lemma {:induction false} Spc7110OffsetDefault(children: seq<Node>, init: u32)
    requires forall k :: 0 <= k < |children| ==> children[k].name != "mcu"
    ensures Spc7110Offset(children, init) == init
    decreases |children|
  {
    if children != [] {
      var front := children[..|children| - 1];
      assert forall k :: 0 <= k < |front| ==> front[k] == children[k];
      Spc7110OffsetDefault(front, init);
    }
  }

  // ------------------------------------------------------------------
  // Firmware storage and warnings
  // ------------------------------------------------------------------

  function NecLoad(c: NecConfig, host: Host): (l: Load)
    ensures l.Loaded? ==> |l.bytes| == NecFileSize(c.revision)
  {
    Classify(host.firmware(c.firmware), NecFileSize(c.revision))
  }

  function HitachiLoad(c: HitachiConfig, host: Host): (l: Load)
    ensures l.Loaded? ==> |l.bytes| == HitachiFileSize
  {
    Classify(host.firmware(c.firmware), HitachiFileSize)
  }

  /** The contents of the NEC program and data ROMs and the Hitachi data ROM. */
  datatype Storage = Storage(necProgram: seq<nat>, necData: seq<nat>, hitachiData: seq<nat>)

  /** A "necdsp" section rewrites both NEC ROMs in full; a "hitachidsp" section the Hitachi data ROM. */
  function SectionStorage(node: Node, host: Host, st: Storage): Storage {
    match KindOf(node.name)
    case NecDspSection =>
      var c := NecConfigOf(node.attributes);
      var l := NecLoad(c, host);
      st.(necProgram := NecProgramImage(l, c.revision), necData := NecDataImage(l, c.revision))
    case HitachiDspSection =>
      st.(hitachiData := HitachiDataImage(HitachiLoad(HitachiConfigOf(node.attributes), host)))
    case _ => st
  }

  function CartridgeStorage(nodes: seq<Node>, host: Host, st: Storage): Storage
    decreases |nodes|
  {
    if nodes == [] then st else SectionStorage(nodes[|nodes| - 1], host, CartridgeStorage(nodes[..|nodes| - 1], host, st))
  }

  /** The NEC ROMs hold the image of the last "necdsp" section's firmware; earlier sections leave no trace. */
  lemma {:induction false} NecStorageFromLastSection(nodes: seq<Node>, host: Host, st: Storage)
    ensures var r := CartridgeStorage(nodes, host, st);
      match LastOfKind(nodes, NecDspSection)
      case Some(sec) =>
        var c := NecConfigOf(sec.attributes);
        r.necProgram == NecProgramImage(NecLoad(c, host), c.revision) && r.necData == NecDataImage(NecLoad(c, host), c.revision)
      case None => r.necProgram == st.necProgram && r.necData == st.necData
    decreases |nodes|
  {
    if nodes != [] {
      var front := nodes[..|nodes| - 1];
      NecStorageFromLastSection(front, host, st);
      assert CartridgeStorage(nodes, host, st) == SectionStorage(nodes[|nodes| - 1], host, CartridgeStorage(front, host, st));
      if KindOf(nodes[|nodes| - 1].name) != NecDspSection {
        assert LastOfKind(nodes, NecDspSection) == LastOfKind(front, NecDspSection);
      }
    }
  }

  /** The warnings one section raises. */
  function SectionLog(node: Node, host: Host): (r: seq<Diagnostic>)
    ensures |r| <= 1
  {
    match KindOf(node.name)
    case NecDspSection =>
      var c := NecConfigOf(node.attributes);
      NecDiagnostics(host, c.firmware, NecLoad(c, host), c.sha256)
    case HitachiDspSection =>
      var c := HitachiConfigOf(node.attributes);
      HitachiDiagnostics(host, c.firmware, HitachiLoad(c, host), c.sha256)
    case _ => []
  }

  function CartridgeLog(nodes: seq<Node>, host: Host): seq<Diagnostic>
    decreases |nodes|
  {
    if nodes == [] then [] else CartridgeLog(nodes[..|nodes| - 1], host) + SectionLog(nodes[|nodes| - 1], host)
  }

  predicate IsDspSection(node: Node) {
    KindOf(node.name) == NecDspSection || KindOf(node.name) == HitachiDspSection
  }

  function CountDspSections(nodes: seq<Node>): nat
    decreases |nodes|
  {
    if nodes == [] then 0 else CountDspSections(nodes[..|nodes| - 1]) + (if IsDspSection(nodes[|nodes| - 1]) then 1 else 0)
  }

  /**
   * At most one warning per DSP section, none from any other section, and
   * each names the chip of a section of that kind.
   */
  lemma {:induction false} LogBound(nodes: seq<Node>, host: Host)
    ensures |CartridgeLog(nodes, host)| <= CountDspSections(nodes)
    ensures forall d :: d in CartridgeLog(nodes, host) && d.chip == NecChip ==> LastOfKind(nodes, NecDspSection).Some?
    ensures forall d :: d in CartridgeLog(nodes, host) && d.chip == HitachiChip ==> LastOfKind(nodes, HitachiDspSection).Some?
    decreases |nodes|
  {
    if nodes != [] {
      var front := nodes[..|nodes| - 1];
      LogBound(front, host);
      var last := nodes[|nodes| - 1];
      if KindOf(last.name) != NecDspSection && LastOfKind(front, NecDspSection).Some? {
        assert LastOfKind(nodes, NecDspSection) == LastOfKind(front, NecDspSection);
      }
      if KindOf(last.name) != HitachiDspSection && LastOfKind(front, HitachiDspSection).Some? {
        assert LastOfKind(nodes, HitachiDspSection) == LastOfKind(front, HitachiDspSection);
      }
    }
  }

  // ------------------------------------------------------------------
  // NSS DIP switches
  // ------------------------------------------------------------------

  function SectionDip(node: Node, t: DipTable): (r: DipTable)
    requires WellFormed(t)
    ensures WellFormed(r)
  {
    if KindOf(node.name) == NssSection then NssFold(t, node.children) else t
  }

  function CartridgeDip(nodes: seq<Node>, t: DipTable): (r: DipTable)
    requires WellFormed(t)
    ensures WellFormed(r)
    decreases |nodes|
  {
    if nodes == [] then t else SectionDip(nodes[|nodes| - 1], CartridgeDip(nodes[..|nodes| - 1], t))
  }
}
