/**
 * What each descriptor section contributes to the mapping table, as
 * functions of the section's element and the state it reads (the shared
 * `ram_size` and the cartridge's fixed layout).
 *
 * Every section compiler in the source has the same inner shape: for each
 * `map` element of some child, build a Mapping from a fixed backing, read
 * either only "address" or also "mode"/"offset"/"size", resolve a zero size
 * and append. A `Group` names those choices for one child element, and a
 * route names the group of each child element a section recognises, in the
 * order of the source's if/else chains.
 */
module Sections {
  import opened Wrappers
  import opened Text
  import opened Descriptor
  import opened Mappings

  // ------------------------------------------------------------------
  // One child element's `map` elements
  // ------------------------------------------------------------------

  /** What happens to a Mapping whose size is still 0 after its attributes. */
  datatype SizeRule =
    | KeepZero                // left at 0
    | Fallback(n: u32)        // replaced by n
    | FallbackOrDrop(n: u32)  // replaced by n, and not appended if that is 0 too

  /** The backing, the attributes read and the size rule of one loop over `map` elements. */
  datatype Binding = Binding(handler: Handler, fields: AttrSet, rule: SizeRule, anyLeaf: bool)

  /** `if(m.size == 0) m.size = ...`: a one-time snapshot of the fallback. */
  function Resolve(m: Mapping, rule: SizeRule): Mapping {
    if m.size == 0 && !rule.KeepZero? then m.(size := rule.n) else m
  }

  /** `if(m.size) mapping.append(m)` for the dropping rule; every other rule appends. */
  predicate Appended(m: Mapping, rule: SizeRule) {
    !(rule.FallbackOrDrop? && m.size == 0)
  }

  /** Hitachi DSP "mmio" takes every child element; all other loops only `map`. */
  predicate Selected(leaf: Node, anyLeaf: bool) {
    anyLeaf || leaf.name == "map"
  }

  function LeafMapping(leaf: Node, b: Binding): Mapping {
    Resolve(ApplyAttributes(NewMapping(b.handler), leaf.attributes, b.fields), b.rule)
  }

  function CountSelected(leaves: seq<Node>, anyLeaf: bool): (n: nat)
    ensures n <= |leaves|
  {
    if leaves == [] then 0
    else CountSelected(leaves[..|leaves| - 1], anyLeaf) + (if Selected(leaves[|leaves| - 1], anyLeaf) then 1 else 0)
  }

  /** The Mappings one loop over `leaves` appends, in document order. */
  function LeafMaps(leaves: seq<Node>, b: Binding): (r: seq<Mapping>)
    ensures |r| <= CountSelected(leaves, b.anyLeaf)
    ensures !b.rule.FallbackOrDrop? ==> |r| == CountSelected(leaves, b.anyLeaf)
    decreases |leaves|
  {
    if leaves == [] then []
    else
      var front := LeafMaps(leaves[..|leaves| - 1], b);
      var leaf := leaves[|leaves| - 1];
      var m := LeafMapping(leaf, b);
      if Selected(leaf, b.anyLeaf) && Appended(m, b.rule) then front + [m] else front
  }

  /**
   * Every Mapping of the loop is backed by the binding's handler, and none
   * has size 0 when the rule drops those or falls back to a nonzero size.
   */
  lemma {:induction false} LeafMapsBacking(leaves: seq<Node>, b: Binding)
    ensures forall k :: 0 <= k < |LeafMaps(leaves, b)| ==> LeafMaps(leaves, b)[k].handler == b.handler
    ensures NoEmptyWindows(b.rule) ==> forall k :: 0 <= k < |LeafMaps(leaves, b)| ==> LeafMaps(leaves, b)[k].size != 0
    decreases |leaves|
  {
    if leaves != [] {
      var front, leaf := leaves[..|leaves| - 1], leaves[|leaves| - 1];
      LeafMapsBacking(front, b);
      var f := LeafMaps(front, b);
      var m := LeafMapping(leaf, b);
      var r := LeafMaps(leaves, b);
      if Selected(leaf, b.anyLeaf) && Appended(m, b.rule) {
        assert r == f + [m];
        assert m.handler == b.handler;
        assert NoEmptyWindows(b.rule) ==> m.size != 0;
        forall k | 0 <= k < |r|
          ensures r[k].handler == b.handler && (NoEmptyWindows(b.rule) ==> r[k].size != 0)
        {
          if k < |f| {
            assert r[k] == f[k];
          }
        }
      } else {
        assert r == f;
      }
    }
  }

  /** The rules under which no window of size 0 is appended. */
  predicate NoEmptyWindows(rule: SizeRule) {
    rule.FallbackOrDrop? || (rule.Fallback? && rule.n != 0)
  }

  /** Compiling two runs of elements one after the other appends their Mappings in that order. */
  lemma {:induction false} LeafMapsConcat(xs: seq<Node>, ys: seq<Node>, b: Binding)
    ensures LeafMaps(xs + ys, b) == LeafMaps(xs, b) + LeafMaps(ys, b)
    decreases |ys|
  {
    if ys == [] {
      assert xs + ys == xs;
    } else {
      var ys' := ys[..|ys| - 1];
      assert (xs + ys)[..|xs + ys| - 1] == xs + ys';
      LeafMapsConcat(xs, ys', b);
    }
  }

  /**
   * A memory-like window's size is the last "size" attribute read as hex;
   * when that is 0 or absent, the rule's fallback taken at build time.
   */
  lemma LeafMappingSize(leaf: Node, b: Binding)
    requires b.fields == AddressModeOffsetSize
    ensures var declared := Choose(leaf.attributes, "size", AsHex, 0);
      LeafMapping(leaf, b).size == (if declared != 0 || b.rule.KeepZero? then declared else b.rule.n)
  {
    ApplyAttributesLastWins(NewMapping(b.handler), leaf.attributes);
  }

  // ------------------------------------------------------------------
  // Groups: what a section does with one of its child elements
  // ------------------------------------------------------------------

  /** How a group resolves a zero size. */
  datatype Sizing =
    | AsDeclared           // stays 0
    | OrFixed(n: u32)      // becomes n
    | OrFixedElseDrop(n: u32)
    | OrRamSize            // becomes the shared `ram_size`
    | OrLocalSizeElseDrop  // becomes the element's own "size" (default 0); dropped if 0

  datatype Group = Group(handler: Handler, fields: AttrSet, sizing: Sizing, setsRamSize: bool, anyLeaf: bool)

  /** The Mappings a step appends and the shared `ram_size` it leaves. */
  datatype Emit = Emit(maps: seq<Mapping>, ramSize: u32)

  function MemoryGroup(s: Store, sizing: Sizing, setsRamSize: bool): Group {
    Group(Memory(s), AddressModeOffsetSize, sizing, setsRamSize, false)
  }

  function PortGroup(p: Port): Group {
    Group(Device(p), AddressOnly, AsDeclared, false, false)
  }

  /** `foreach(attr, node.attribute) if(attr.name == "size") ram_size = ...` when the group has one. */
  function RamSizeAfter(node: Node, g: Group, rs: u32): u32 {
    if g.setsRamSize then Choose<u32>(node.attributes, "size", AsHex, rs) else rs
  }

  function GroupBinding(node: Node, g: Group, rs: u32): Binding {
    var rule := match g.sizing
      case AsDeclared => KeepZero
      case OrFixed(n) => Fallback(n)
      case OrFixedElseDrop(n) => FallbackOrDrop(n)
      case OrRamSize => Fallback(rs)
      case OrLocalSizeElseDrop => FallbackOrDrop(Choose(node.attributes, "size", AsHex, 0));
    Binding(g.handler, g.fields, rule, g.anyLeaf)
  }

  /** One child element compiled with its group: read its "size" first if the group does, then its windows. */
  function GroupStep(node: Node, g: Group, rs: u32): Emit {
    var rs' := RamSizeAfter(node, g, rs);
    Emit(LeafMaps(node.children, GroupBinding(node, g, rs')), rs')
  }

  /** No child element the route recognises writes the shared `ram_size`. */
  ghost predicate KeepsRamSize(route: string -> Option<Group>) {
    forall name :: route(name).Some? ==> !route(name).value.setsRamSize
  }

  /** Every group the route gives drops windows whose size resolves to 0. */
  ghost predicate DropsEmpty(route: string -> Option<Group>) {
    forall name :: route(name).Some? ==> route(name).value.sizing.OrFixedElseDrop? || route(name).value.sizing.OrLocalSizeElseDrop?
  }

  /** A section's loop over its child elements, each compiled with the group the route gives its name. */
  function GroupMaps(children: seq<Node>, route: string -> Option<Group>, rs: u32): Emit
    decreases |children|
  {
    if children == [] then Emit([], rs)
    else
      var before := GroupMaps(children[..|children| - 1], route, rs);
      var child := children[|children| - 1];
      match route(child.name)
      case None => before
      case Some(g) =>
        var step := GroupStep(child, g, before.ramSize);
        Emit(before.maps + step.maps, step.ramSize)
  }

  /** A route none of whose groups reads "size" into `ram_size` leaves it as it was. */
  lemma {:induction false} GroupMapsKeepsRamSize(children: seq<Node>, route: string -> Option<Group>, rs: u32)
    requires KeepsRamSize(route)
    ensures GroupMaps(children, route, rs).ramSize == rs
    decreases |children|
  {
    if children != [] {
      GroupMapsKeepsRamSize(children[..|children| - 1], route, rs);
      GroupMapsStep(children, route, rs);
    }
  }

  /** A route whose groups all drop empty windows appends none of size 0. */
  lemma {:induction false} GroupMapsDropsEmpty(children: seq<Node>, route: string -> Option<Group>, rs: u32)
    requires DropsEmpty(route)
    ensures forall k :: 0 <= k < |GroupMaps(children, route, rs).maps| ==> GroupMaps(children, route, rs).maps[k].size != 0
    decreases |children|
  {
    if children != [] {
      var front, child := children[..|children| - 1], children[|children| - 1];
      GroupMapsDropsEmpty(front, route, rs);
      GroupMapsStep(children, route, rs);
      var before := GroupMaps(front, route, rs);
      if route(child.name).Some? {
        var g := route(child.name).value;
        assert g.sizing.OrFixedElseDrop? || g.sizing.OrLocalSizeElseDrop?;
        var rs' := RamSizeAfter(child, g, before.ramSize);
        var step := GroupStep(child, g, before.ramSize);
        LeafMapsBacking(child.children, GroupBinding(child, g, rs'));
        var e := GroupMaps(children, route, rs);
        assert e.maps == before.maps + step.maps;
        assert forall k :: 0 <= k < |e.maps| ==> e.maps[k] == if k < |before.maps| then before.maps[k] else step.maps[k - |before.maps|];
      }
    }
  }

  /** Compiling two runs of child elements one after the other: the second starts from the `ram_size` the first leaves. */
  lemma {:induction false} GroupMapsConcat(xs: seq<Node>, ys: seq<Node>, route: string -> Option<Group>, rs: u32)
    ensures var first := GroupMaps(xs, route, rs);
      var second := GroupMaps(ys, route, first.ramSize);
      GroupMaps(xs + ys, route, rs) == Emit(first.maps + second.maps, second.ramSize)
    decreases |ys|
  {
    var first := GroupMaps(xs, route, rs);
    if ys == [] {
      assert xs + ys == xs;
    } else {
      var ys' := ys[..|ys| - 1];
      var zs := xs + ys;
      var child := ys[|ys| - 1];
      assert zs[..|zs| - 1] == xs + ys' && zs[|zs| - 1] == child;
      GroupMapsConcat(xs, ys', route, rs);
      GroupMapsStep(zs, route, rs);
      GroupMapsStep(ys, route, first.ramSize);
      var second' := GroupMaps(ys', route, first.ramSize);
      if route(child.name).Some? {
        var step := GroupStep(child, route(child.name).value, second'.ramSize);
        AppendAssoc(first.maps, second'.maps, step.maps);
      }
    }
  }

  /** A child element the route does not recognise changes nothing, wherever it stands among its siblings. */
  lemma UnroutedChildIgnored(children: seq<Node>, route: string -> Option<Group>, rs: u32, k: nat)
    requires k < |children| && route(children[k].name).None?
    ensures GroupMaps(children, route, rs) == GroupMaps(children[..k] + children[k + 1..], route, rs)
  {
    var pre, child, post := children[..k], children[k], children[k + 1..];
    TakeAtDrop(children, k);
    var first := GroupMaps(pre, route, rs);
    GroupMapsConcat(pre + [child], post, route, rs);
    GroupMapsConcat(pre, [child], route, rs);
    GroupMapsConcat(pre, post, route, rs);
    GroupMapsStep([child], route, first.ramSize);
    assert [child][..0] == [];
    assert first.maps + [] == first.maps;
  }

  /** One more child element: routed ones add their group's Mappings, others change nothing. */
  lemma GroupMapsStep(children: seq<Node>, route: string -> Option<Group>, rs: u32)
    requires children != []
    ensures var before := GroupMaps(children[..|children| - 1], route, rs);
      var child := children[|children| - 1];
      GroupMaps(children, route, rs)
        == if route(child.name).None? then before
           else
             var step := GroupStep(child, route(child.name).value, before.ramSize);
             Emit(before.maps + step.maps, step.ramSize)
  {
  }

  // ------------------------------------------------------------------
  // The routes of xml.cpp's section compilers
  // ------------------------------------------------------------------

  /** `xml_parse_rom`: ROM windows; size 0 takes `rom.size()`. */
  function RomGroup(romSize: u32): Group {
    MemoryGroup(Rom, OrFixed(romSize), false)
  }

  /** `xml_parse_ram`: reads "size" into `ram_size`; RAM windows of size 0 take it. */
  function RamGroup(): Group {
    MemoryGroup(Ram, OrRamSize, true)
  }

  function SuperFxRoute(name: string): Option<Group> {
    if name == "rom" then Some(MemoryGroup(SuperFxRom, AsDeclared, false))
    else if name == "ram" then Some(MemoryGroup(SuperFxRam, OrRamSize, true))
    else if name == "mmio" then Some(PortGroup(SuperFxMmio))
    else None
  }

  /** The SA-1 children other than "mcu" (which has a level of its own). */
  function Sa1Route(name: string): Option<Group> {
    if name == "iram" then Some(MemoryGroup(Sa1IRam, OrFixed(2048), false))
    else if name == "bwram" then Some(MemoryGroup(Sa1BwRam, OrRamSize, true))
    else if name == "mmio" then Some(PortGroup(Sa1Mmio))
    else None
  }

  function Sa1McuRoute(name: string): Option<Group> {
    if name == "rom" then Some(Group(Device(Sa1Mmc), AddressModeOffsetSize, AsDeclared, false, false))
    else if name == "ram" then Some(PortGroup(Sa1MmcCpu))
    else None
  }

  function NecDspRoute(name: string): Option<Group> {
    if name == "dr" then Some(PortGroup(NecDr))
    else if name == "sr" then Some(PortGroup(NecSr))
    else if name == "dp" then Some(PortGroup(NecDp))
    else None
  }

  function HitachiDspRoute(name: string): Option<Group> {
    if name == "rom" then Some(Group(Device(HitachiRom), AddressModeOffsetSize, AsDeclared, false, false))
    else if name == "mmio" then Some(Group(Device(HitachiMmio), AddressOnly, AsDeclared, false, true))
    else None
  }

  function BsxRoute(name: string): Option<Group> {
    if name == "slot" then Some(MemoryGroup(BsxFlash, AsDeclared, false))
    else if name == "mcu" then Some(PortGroup(BsxMcu))
    else if name == "mmio" then Some(PortGroup(BsxMmio))
    else None
  }

  /** Inside a Sufami Turbo "slot": ROM falls back to the slot's ROM size, RAM to the element's own "size". */
  function SufamiSlotRoute(slot: Slot, romSize: u32): string -> Option<Group> {
    name =>
      if name == "rom" then Some(MemoryGroup(SlotRom(slot), OrFixedElseDrop(romSize), false))
      else if name == "ram" then Some(MemoryGroup(SlotRam(slot), OrLocalSizeElseDrop, false))
      else None
  }

  function Sdd1Route(name: string): Option<Group> {
    if name == "mcu" then Some(PortGroup(Sdd1Mcu))
    else if name == "mmio" then Some(PortGroup(Sdd1Mmio))
    else None
  }

  /** SPC7110: its "ram" writes `ram_size` but keeps declared sizes; "rtc" reuses the MMIO entry points. */
  function Spc7110Route(name: string): Option<Group> {
    if name == "dcu" then Some(PortGroup(Spc7110Dcu))
    else if name == "mcu" then Some(PortGroup(Spc7110Mcu))
    else if name == "mmio" then Some(PortGroup(Spc7110Mmio))
    else if name == "ram" then Some(Group(Device(Spc7110Ram), AddressModeOffsetSize, AsDeclared, true, false))
    else if name == "rtc" then Some(PortGroup(Spc7110Mmio))
    else None
  }

  // ------------------------------------------------------------------
  // Sections with a level of their own
  // ------------------------------------------------------------------

  /** `xml_parse_sa1`: "mcu" holds "rom"/"ram" children of its own. */
  function Sa1Maps(children: seq<Node>, rs: u32): Emit
    decreases |children|
  {
    if children == [] then Emit([], rs)
    else
      var before := Sa1Maps(children[..|children| - 1], rs);
      var child := children[|children| - 1];
      if child.name == "mcu" then
        var inner := GroupMaps(child.children, Sa1McuRoute, before.ramSize);
        Emit(before.maps + inner.maps, inner.ramSize)
      else
        match Sa1Route(child.name)
        case None => before
        case Some(g) =>
          var step := GroupStep(child, g, before.ramSize);
          Emit(before.maps + step.maps, step.ramSize)
  }

  datatype CartMode = Normal | BsxSlotted | Bsx | SufamiTurbo | SuperGameBoy

  /** What the compiler reads of the cartridge but does not write. */
  datatype Setup = Setup(mode: CartMode, romSize: u32, slotARomSize: u32, slotBRomSize: u32)

  function SlotOf(content: string): Option<Slot> {
    if content == "A" then Some(SlotA)
    else if content == "B" then Some(SlotB)
    else None
  }

  function SlotRomSize(setup: Setup, slot: Slot): u32 {
    if slot == SlotA then setup.slotARomSize else setup.slotBRomSize
  }

  /**
   * `xml_parse_sufamiturbo` (in Sufami Turbo mode): each "slot" picks A or B
   * by its "id". Its RAM size is local to each "ram" element, so the shared
   * `ram_size` is untouched, and no window of size 0 is appended.
   */
  function SufamiMaps(children: seq<Node>, setup: Setup, rs: u32): Emit
    decreases |children|
  {
    if children == [] then Emit([], rs)
    else
      var before := SufamiMaps(children[..|children| - 1], setup, rs);
      var child := children[|children| - 1];
      if child.name == "slot" then
        var slot := Choose(child.attributes, "id", SlotOf, SlotA);
        var inner := GroupMaps(child.children, SufamiSlotRoute(slot, SlotRomSize(setup, slot)), before.ramSize);
        Emit(before.maps + inner.maps, inner.ramSize)
      else before
  }

  /**
   * The Sufami Turbo section leaves the shared `ram_size` alone and appends
   * no window of size 0: each slot's RAM size is its own.
   */
  lemma {:induction false} SufamiMapsSizes(children: seq<Node>, setup: Setup, rs: u32)
    ensures SufamiMaps(children, setup, rs).ramSize == rs
    ensures forall k :: 0 <= k < |SufamiMaps(children, setup, rs).maps| ==> SufamiMaps(children, setup, rs).maps[k].size != 0
    decreases |children|
  {
    if children != [] {
      var front, child := children[..|children| - 1], children[|children| - 1];
      SufamiMapsSizes(front, setup, rs);
      var before := SufamiMaps(front, setup, rs);
      if child.name == "slot" {
        var slot := Choose(child.attributes, "id", SlotOf, SlotA);
        var route := SufamiSlotRoute(slot, SlotRomSize(setup, slot));
        assert KeepsRamSize(route) && DropsEmpty(route);
        GroupMapsKeepsRamSize(child.children, route, before.ramSize);
        GroupMapsDropsEmpty(child.children, route, before.ramSize);
      }
    }
  }

  // ------------------------------------------------------------------
  // The whole descriptor
  // ------------------------------------------------------------------

  /** The section compilers `parse_xml_cartridge` dispatches to, by element name. */
  datatype Kind =
    | RomSection | RamSection | NssSection | Icd2Section | SuperFxSection | Sa1Section
    | NecDspSection | HitachiDspSection | BsxSection | SufamiTurboSection | SrtcSection
    | Sdd1Section | Spc7110Section | Obc1Section | SetaRiscSection | Msu1Section | LinkSection
    | OtherSection

  const SectionKinds: map<string, Kind> := map[
    "rom" := RomSection, "ram" := RamSection, "nss" := NssSection, "icd2" := Icd2Section,
    "superfx" := SuperFxSection, "sa1" := Sa1Section, "necdsp" := NecDspSection,
    "hitachidsp" := HitachiDspSection, "bsx" := BsxSection, "sufamiturbo" := SufamiTurboSection,
    "srtc" := SrtcSection, "sdd1" := Sdd1Section, "spc7110" := Spc7110Section, "obc1" := Obc1Section,
    "setarisc" := SetaRiscSection, "msu1" := Msu1Section, "link" := LinkSection]

  function KindOf(name: string): Kind {
    if name in SectionKinds then SectionKinds[name] else OtherSection
  }

  predicate IsKnownSection(name: string) {
    name in ["rom", "ram", "nss", "icd2", "superfx", "sa1", "necdsp", "hitachidsp", "bsx",
             "sufamiturbo", "srtc", "sdd1", "spc7110", "obc1", "setarisc", "msu1", "link"]
  }

  /** Exactly the seventeen section names select a compiler. */
  lemma KindOfKnown(name: string)
    ensures KindOf(name) != OtherSection <==> IsKnownSection(name)
  {
  }

  /** What one section element appends and the `ram_size` it leaves. */
  function SectionMaps(node: Node, setup: Setup, rs: u32): Emit {
    match KindOf(node.name)
    case RomSection => GroupStep(node, RomGroup(setup.romSize), rs)
    case RamSection => GroupStep(node, RamGroup(), rs)
    case Icd2Section => if setup.mode == SuperGameBoy then GroupStep(node, PortGroup(Icd2Io), rs) else Emit([], rs)
    case SuperFxSection => GroupMaps(node.children, SuperFxRoute, rs)
    case Sa1Section => Sa1Maps(node.children, rs)
    case NecDspSection => GroupMaps(node.children, NecDspRoute, rs)
    case HitachiDspSection => GroupMaps(node.children, HitachiDspRoute, rs)
    case BsxSection =>
      if setup.mode == BsxSlotted || setup.mode == Bsx then GroupMaps(node.children, BsxRoute, rs) else Emit([], rs)
    case SufamiTurboSection => if setup.mode == SufamiTurbo then SufamiMaps(node.children, setup, rs) else Emit([], rs)
    case SrtcSection => GroupStep(node, PortGroup(SrtcIo), rs)
    case Sdd1Section => GroupMaps(node.children, Sdd1Route, rs)
    case Spc7110Section => GroupMaps(node.children, Spc7110Route, rs)
    case Obc1Section => GroupStep(node, PortGroup(Obc1Io), rs)
    case SetaRiscSection => GroupStep(node, PortGroup(St0018Mmio), rs)
    case Msu1Section => GroupStep(node, PortGroup(Msu1Mmio), rs)
    case LinkSection => GroupStep(node, PortGroup(LinkIo), rs)
    case NssSection => Emit([], rs)
    case OtherSection => Emit([], rs)
  }

  /** The sections of one `cartridge` element, in document order. */
  function CartridgeMaps(nodes: seq<Node>, setup: Setup, rs: u32): Emit
    decreases |nodes|
  {
    if nodes == [] then Emit([], rs)
    else
      var before := CartridgeMaps(nodes[..|nodes| - 1], setup, rs);
      var step := SectionMaps(nodes[|nodes| - 1], setup, before.ramSize);
      Emit(before.maps + step.maps, step.ramSize)
  }

  /** The section elements of every top-level element named "cartridge", in document order. */
  function SectionsOf(heads: seq<Node>): seq<Node>
    decreases |heads|
  {
    if heads == [] then []
    else
      var head := heads[|heads| - 1];
      SectionsOf(heads[..|heads| - 1]) + (if head.name == "cartridge" then head.children else [])
  }

  lemma {:induction false} SectionsOfConcat(xs: seq<Node>, ys: seq<Node>)
    ensures SectionsOf(xs + ys) == SectionsOf(xs) + SectionsOf(ys)
    decreases |ys|
  {
    if ys == [] {
      assert xs + ys == xs;
    } else {
      var ys' := ys[..|ys| - 1];
      assert (xs + ys)[..|xs + ys| - 1] == xs + ys';
      SectionsOfConcat(xs, ys');
    }
  }

  /** A top-level element not named "cartridge" contributes nothing, wherever it stands. */
  lemma OtherHeadIgnored(heads: seq<Node>, k: nat)
    requires k < |heads| && heads[k].name != "cartridge"
    ensures SectionsOf(heads) == SectionsOf(heads[..k] + heads[k + 1..])
  {
    var pre, post := heads[..k], heads[k + 1..];
    TakeAtDrop(heads, k);
    SectionsOfConcat(pre + [heads[k]], post);
    SectionsOfConcat(pre, [heads[k]]);
    SectionsOfConcat(pre, post);
    SectionsOfOne(heads[k]);
  }

  lemma SectionsOfOne(head: Node)
    ensures SectionsOf([head]) == (if head.name == "cartridge" then head.children else [])
  {
    assert [head][..0] == [];
  }

  /** Each section only appends: compiling a prefix of the sections yields a prefix of the table. */
  lemma {:induction false} CartridgeMapsPrefix(nodes: seq<Node>, setup: Setup, rs: u32, i: nat)
    requires i <= |nodes|
    ensures CartridgeMaps(nodes[..i], setup, rs).maps <= CartridgeMaps(nodes, setup, rs).maps
    decreases |nodes|
  {
    if i < |nodes| {
      var front := nodes[..|nodes| - 1];
      assert front[..i] == nodes[..i];
      CartridgeMapsPrefix(front, setup, rs, i);
    } else {
      assert nodes[..i] == nodes;
    }
  }

  /** An element with a name no section compiler knows adds nothing and leaves `ram_size` alone. */
  lemma UnknownSectionIgnored(node: Node, setup: Setup, rs: u32)
    requires !IsKnownSection(node.name)
    ensures SectionMaps(node, setup, rs) == Emit([], rs)
    ensures SectionCapabilities(node) == {}
  {
    KindOfKnown(node.name);
  }

  /** "icd2", "bsx" and "sufamiturbo" compile to nothing outside their cartridge modes. */
  lemma ModeGatedSections(node: Node, setup: Setup, rs: u32)
    ensures node.name == "icd2" && setup.mode != SuperGameBoy ==> SectionMaps(node, setup, rs) == Emit([], rs)
    ensures node.name == "bsx" && setup.mode != Bsx && setup.mode != BsxSlotted ==> SectionMaps(node, setup, rs) == Emit([], rs)
    ensures node.name == "sufamiturbo" && setup.mode != SufamiTurbo ==> SectionMaps(node, setup, rs) == Emit([], rs)
  {
  }

  // ------------------------------------------------------------------
  // Capability flags (the `has_*` fields)
  // ------------------------------------------------------------------

  datatype Capability =
    | HasBsxSlot | HasNssDip | HasSuperFx | HasSa1 | HasNecDsp | HasHitachiDsp | HasSrtc
    | HasSdd1 | HasSpc7110 | HasSpc7110Rtc | HasObc1 | HasSt0018 | HasMsu1 | HasLink

  predicate HasChildNamed(children: seq<Node>, name: string) {
    exists k :: 0 <= k < |children| && children[k].name == name
  }

  /** The flags one section element sets. */
  function SectionCapabilities(node: Node): set<Capability> {
    match KindOf(node.name)
    case NssSection => {HasNssDip}
    case SuperFxSection => {HasSuperFx}
    case Sa1Section => {HasSa1}
    case NecDspSection => {HasNecDsp}
    case HitachiDspSection => {HasHitachiDsp}
    case SrtcSection => {HasSrtc}
    case Sdd1Section => {HasSdd1}
    case Spc7110Section => {HasSpc7110} + (if HasChildNamed(node.children, "rtc") then {HasSpc7110Rtc} else {})
    case Obc1Section => {HasObc1}
    case SetaRiscSection => {HasSt0018}
    case Msu1Section => {HasMsu1}
    case LinkSection => {HasLink}
    case _ => {}
  }

  function CartridgeCapabilities(nodes: seq<Node>): set<Capability> {
    UnionOver(nodes, SectionCapabilities)
  }

  /** What `f` gives each element, gathered over a run of elements. */
  function UnionOver<T>(nodes: seq<Node>, f: Node -> set<T>): set<T>
    decreases |nodes|
  {
    if nodes == [] then {} else UnionOver(nodes[..|nodes| - 1], f) + f(nodes[|nodes| - 1])
  }

  lemma {:induction false} UnionOverExact<T>(nodes: seq<Node>, f: Node -> set<T>, c: T)
    ensures c in UnionOver(nodes, f) <==> exists k :: 0 <= k < |nodes| && c in f(nodes[k])
    decreases |nodes|
  {
    if nodes != [] {
      var front, last := nodes[..|nodes| - 1], nodes[|nodes| - 1];
      UnionOverExact(front, f, c);
      if c in f(last) {
        assert c in f(nodes[|nodes| - 1]);
      } else {
        if c in UnionOver(front, f) {
          var k :| 0 <= k < |front| && c in f(front[k]);
          assert nodes[k] == front[k];
        }
        if exists k :: 0 <= k < |nodes| && c in f(nodes[k]) {
          var k :| 0 <= k < |nodes| && c in f(nodes[k]);
          assert k < |front| && front[k] == nodes[k];
        }
      }
    }
  }

  /** A flag is set exactly when some section of a `cartridge` element sets it. */
  lemma CartridgeCapabilitiesExact(nodes: seq<Node>, c: Capability)
    ensures c in CartridgeCapabilities(nodes) <==> exists k :: 0 <= k < |nodes| && c in SectionCapabilities(nodes[k])
  {
    UnionOverExact(nodes, SectionCapabilities, c);
  }

  // ------------------------------------------------------------------
  // Scalar configuration read from attributes
  // ------------------------------------------------------------------

  datatype Region = NTSC | PAL

  function RegionOf(content: string): Option<Region> {
    if content == "NTSC" then Some(NTSC)
    else if content == "PAL" then Some(PAL)
    else None
  }

  /** The region after the `cartridge` elements' "region" attributes. */
  function DocumentRegion(heads: seq<Node>, r0: Region): Region
    decreases |heads|
  {
    if heads == [] then r0
    else
      var before := DocumentRegion(heads[..|heads| - 1], r0);
      var head := heads[|heads| - 1];
      if head.name == "cartridge" then Choose(head.attributes, "region", RegionOf, before) else before
  }

  /** The two ICD2 revisions. */
  type Icd2Rev = x: nat | 1 <= x <= 2 witness 1

  function Icd2RevisionOf(content: string): Option<Icd2Rev> {
    if content == "1" then Some(1)
    else if content == "2" then Some(2)
    else None
  }

  /** `spc7110.data_rom_offset` after the "offset" attributes of the `map` elements under one "mcu". */
  function McuOffset(leaves: seq<Node>, init: u32): u32
    decreases |leaves|
  {
    if leaves == [] then init
    else
      var before := McuOffset(leaves[..|leaves| - 1], init);
      var leaf := leaves[|leaves| - 1];
      if leaf.name == "map" then Choose<u32>(leaf.attributes, "offset", AsHex, before) else before
  }

  /** `spc7110.data_rom_offset` after every "mcu" child of the section. */
  function Spc7110Offset(children: seq<Node>, init: u32): u32
    decreases |children|
  {
    if children == [] then init
    else
      var before := Spc7110Offset(children[..|children| - 1], init);
      var child := children[|children| - 1];
      if child.name == "mcu" then McuOffset(child.children, before) else before
  }
}
