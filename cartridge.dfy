/**
 * `Cartridge`'s descriptor compiler as the source writes it: methods that
 * walk the descriptor and update the cartridge's fields, arrays and
 * mapping table in place. Each is proved against the functions of
 * `Sections`, `Nss`, `Firmware`, `Chips` and `Compiler`.
 */
module Cartridges {
  import opened Wrappers
  import opened Text
  import opened Descriptor
  import opened Mappings
  import opened Sections
  import opened Nss
  import opened Firmware
  import opened Chips
  import opened Compiler

  /** Sets every word of `a` to 0. */
  method ClearWords(a: array<nat>)
    modifies a
    ensures forall k :: 0 <= k < a.Length ==> a[k] == 0
  {
    var n := 0;
    while n < a.Length
      invariant 0 <= n <= a.Length
      invariant forall k :: 0 <= k < n ==> a[k] == 0
    {
      a[n] := 0;
      n := n + 1;
    }
  }

  /** The attribute loop of "necdsp": model, frequency, firmware file and digest. */
  method ScanNecAttributes(attrs: seq<Attribute>) returns (c: NecConfig)
    ensures c == NecConfigOf(attrs)
  {
    c := NecConfig(UPD7725, 8000000, "", "");
    var i := 0;
    while i < |attrs|
      invariant 0 <= i <= |attrs|
      invariant c == NecConfigOf(attrs[..i])
    {
      var attr := attrs[i];
      if attr.name == "model" {
        if attr.content == "uPD7725" {
          c := c.(revision := UPD7725);
        }
        if attr.content == "uPD96050" {
          c := c.(revision := UPD96050);
        }
      } else if attr.name == "frequency" {
        c := c.(frequency := Unsigned(attr.content));
      } else if attr.name == "firmware" {
        c := c.(firmware := attr.content);
      } else if attr.name == "sha256" {
        c := c.(sha256 := attr.content);
      }
      assert attrs[..i + 1][..i] == attrs[..i];
      i := i + 1;
    }
    assert attrs[..i] == attrs;
  }

  /** The attribute loop of "hitachidsp": frequency, firmware file and digest. */
  method ScanHitachiAttributes(attrs: seq<Attribute>) returns (c: HitachiConfig)
    ensures c == HitachiConfigOf(attrs)
  {
    c := HitachiConfig(20000000, "", "");
    var i := 0;
    while i < |attrs|
      invariant 0 <= i <= |attrs|
      invariant c == HitachiConfigOf(attrs[..i])
    {
      var attr := attrs[i];
      if attr.name == "frequency" {
        c := c.(frequency := Unsigned(attr.content));
      } else if attr.name == "firmware" {
        c := c.(firmware := attr.content);
      } else if attr.name == "sha256" {
        c := c.(sha256 := attr.content);
      }
      assert attrs[..i + 1][..i] == attrs[..i];
      i := i + 1;
    }
    assert attrs[..i] == attrs;
  }

  /** The attribute loop of "link": frequency and program, each from its last attribute. */
  method ScanLinkAttributes(attrs: seq<Attribute>) returns (frequency: u32, program: string)
    ensures frequency == Choose<u32>(attrs, "frequency", AsUnsigned, 1)
    ensures program == Choose(attrs, "program", AsText, "")
  {
    frequency, program := 1, "";
    var i := 0;
    while i < |attrs|
      invariant 0 <= i <= |attrs|
      invariant frequency == Choose<u32>(attrs[..i], "frequency", AsUnsigned, 1)
      invariant program == Choose(attrs[..i], "program", AsText, "")
    {
      if attrs[i].name == "frequency" {
        frequency := Unsigned(attrs[i].content);
      }
      if attrs[i].name == "program" {
        program := attrs[i].content;
      }
      ChooseAt<u32>(attrs, i, "frequency", AsUnsigned, 1);
      ChooseAt(attrs, i, "program", AsText, "");
      i := i + 1;
    }
    assert attrs[..i] == attrs;
  }

  class Cartridge {
    /** The cartridge's mode and memory sizes, fixed before the descriptor is compiled. */
    const setup: Setup
    const host: Host

    /** `information.nss.option`: the option lists of the 16 DIP switches. */
    const nssOption: array<seq<string>>
    /** `necdsp.programROM`, `necdsp.dataROM` and `hitachidsp.dataROM`. */
    const necProgramRom: array<nat>
    const necDataRom: array<nat>
    const hitachiDataRom: array<nat>

    var region: Region
    var mapping: seq<Mapping>
    /** The `has_*` flags that are set. */
    var capabilities: set<Capability>
    var ramSize: u32
    /** `information.nss.setting`. */
    var nssSetting: seq<string>
    var icd2Revision: nat
    var necRevision: NecRevision
    var necFrequency: u32
    var hitachiFrequency: u32
    var spc7110DataRomOffset: u32
    var linkFrequency: u32
    var linkProgram: string
    /** The warnings passed to the host, in order. */
    var log: seq<Diagnostic>

    ghost predicate Valid()
      reads this`nssSetting
    {
      && nssOption.Length == MaxSettings && |nssSetting| <= MaxSettings
      && necProgramRom.Length == NecProgramCapacity
      && necDataRom.Length == NecDataCapacity
      && hitachiDataRom.Length == HitachiDataCapacity
      && necProgramRom != necDataRom && necProgramRom != hitachiDataRom && necDataRom != hitachiDataRom
    }

    ghost function Dip(): DipTable
      reads this`nssSetting, nssOption
    {
      DipTable(nssSetting, nssOption[..])
    }

    ghost function Chip(): Settings
      reads this`icd2Revision, this`necRevision, this`necFrequency, this`hitachiFrequency
      reads this`spc7110DataRomOffset, this`linkFrequency, this`linkProgram
    {
      Settings(icd2Revision, necRevision, necFrequency, hitachiFrequency, spc7110DataRomOffset, linkFrequency, linkProgram)
    }

    ghost function Store(): Storage
      reads necProgramRom, necDataRom, hitachiDataRom
    {
      Storage(necProgramRom[..], necDataRom[..], hitachiDataRom[..])
    }

    /** Everything the section compilers write. */
    ghost function Snapshot(): State
      reads this`mapping, this`ramSize, this`capabilities, this`log
      reads this`nssSetting, nssOption
      reads this`icd2Revision, this`necRevision, this`necFrequency, this`hitachiFrequency
      reads this`spc7110DataRomOffset, this`linkFrequency, this`linkProgram
      reads necProgramRom, necDataRom, hitachiDataRom
    {
      State(mapping, ramSize, capabilities, Dip(), Chip(), Store(), log)
    }

    constructor(setup: Setup, host: Host)
      ensures Valid()
      ensures this.setup == setup && this.host == host
      ensures mapping == [] && capabilities == {} && ramSize == 0 && nssSetting == [] && log == []
      ensures fresh(nssOption) && fresh(necProgramRom) && fresh(necDataRom) && fresh(hitachiDataRom)
    {
      this.setup := setup;
      this.host := host;
      nssOption := new seq<string>[MaxSettings](_ => []);
      necProgramRom := new nat[NecProgramCapacity](_ => 0);
      necDataRom := new nat[NecDataCapacity](_ => 0);
      hitachiDataRom := new nat[HitachiDataCapacity](_ => 0);
      region := NTSC;
      mapping := [];
      capabilities := {};
      ramSize := 0;
      nssSetting := [];
      icd2Revision := 1;
      necRevision := UPD7725;
      necFrequency := 8000000;
      hitachiFrequency := 20000000;
      spc7110DataRomOffset := Spc7110DefaultOffset;
      linkFrequency := 1;
      linkProgram := "";
      log := [];
    }

    // ----------------------------------------------------------------
    // The inner loops shared by every section compiler
    // ----------------------------------------------------------------

    /** `foreach(leaf) if(leaf.name == "map") { Mapping m(...); ...; mapping.append(m); }` */
    method AppendLeafMaps(leaves: seq<Node>, b: Binding)
      modifies this`mapping
      ensures mapping == old(mapping) + LeafMaps(leaves, b)
    {
      var i := 0;
      while i < |leaves|
        invariant 0 <= i <= |leaves|
        invariant mapping == old(mapping) + LeafMaps(leaves[..i], b)
      {
        var leaf := leaves[i];
        LeafMapsAt(leaves, i, b);
        if Selected(leaf, b.anyLeaf) {
          var m := BuildMapping(b.handler, leaf.attributes, b.fields);
          if m.size == 0 && !b.rule.KeepZero? {
            m := m.(size := b.rule.n);
          }
          if !(b.rule.FallbackOrDrop? && m.size == 0) {
            AppendAssoc(old(mapping), LeafMaps(leaves[..i], b), [m]);
            mapping := mapping + [m];
          }
        }
        i := i + 1;
      }
      assert leaves[..i] == leaves;
    }

    /** One child element compiled with its group. */
    method CompileGroup(node: Node, g: Group)
      modifies this`mapping, this`ramSize
      ensures var e := GroupStep(node, g, old(ramSize));
        mapping == old(mapping) + e.maps && ramSize == e.ramSize
    {
      if g.setsRamSize {
        ramSize := ScanAttributes<u32>(node.attributes, "size", AsHex, ramSize);
      }
      var rule: SizeRule;
      match g.sizing {
        case AsDeclared => rule := KeepZero;
        case OrFixed(n) => rule := Fallback(n);
        case OrFixedElseDrop(n) => rule := FallbackOrDrop(n);
        case OrRamSize => rule := Fallback(ramSize);
        case OrLocalSizeElseDrop =>
          var local := ScanAttributes<u32>(node.attributes, "size", AsHex, 0);
          rule := FallbackOrDrop(local);
      }
      AppendLeafMaps(node.children, Binding(g.handler, g.fields, rule, g.anyLeaf));
    }

    /** A section's loop over its child elements, dispatching on their names. */
    method CompileChildren(children: seq<Node>, route: string -> Option<Group>)
      modifies this`mapping, this`ramSize
      ensures var e := GroupMaps(children, route, old(ramSize));
        mapping == old(mapping) + e.maps && ramSize == e.ramSize
    {
      var i := 0;
      while i < |children|
        invariant 0 <= i <= |children|
        invariant var e := GroupMaps(children[..i], route, old(ramSize));
          mapping == old(mapping) + e.maps && ramSize == e.ramSize
      {
        var child := children[i];
        ghost var before := GroupMaps(children[..i], route, old(ramSize));
        GroupMapsAt(children, i, route, old(ramSize));
        match route(child.name) {
          case None =>
          case Some(g) =>
            CompileGroup(child, g);
            AppendAssoc(old(mapping), before.maps, GroupStep(child, g, before.ramSize).maps);
        }
        i := i + 1;
      }
      assert children[..i] == children;
    }

    // ----------------------------------------------------------------
    // The section compilers, one per `xml_parse_*`
    // ----------------------------------------------------------------

    /** `xml_parse_rom`: ROM windows; size 0 becomes the ROM's size. */
    method XmlParseRom(node: Node)
      requires Valid()
      modifies this`mapping, this`ramSize
      ensures mapping == old(mapping) + GroupStep(node, RomGroup(setup.romSize), old(ramSize)).maps
      ensures ramSize == old(ramSize)
      ensures KindOf(node.name) == RomSection ==> Snapshot() == SectionState(node, setup, host, old(Snapshot()))
    {
      CompileGroup(node, RomGroup(setup.romSize));
    }

    /** `xml_parse_ram`: reads "size" into `ram_size`, then RAM windows; size 0 becomes `ram_size`. */
    method XmlParseRam(node: Node)
      requires Valid()
      modifies this`mapping, this`ramSize
      ensures var e := GroupStep(node, RamGroup(), old(ramSize));
        mapping == old(mapping) + e.maps && ramSize == e.ramSize
      ensures KindOf(node.name) == RamSection ==> Snapshot() == SectionState(node, setup, host, old(Snapshot()))
    {
      CompileGroup(node, RamGroup());
    }

    /** `xml_parse_nss`: the DIP-switch table, stopping once 16 settings are named. */
    method XmlParseNss(node: Node)
      requires Valid()
      modifies this`nssSetting, nssOption, this`capabilities
      ensures Valid()
      ensures Dip() == NssFold(old(Dip()), node.children)
      ensures capabilities == old(capabilities) + {HasNssDip}
      ensures KindOf(node.name) == NssSection ==> Snapshot() == SectionState(node, setup, host, old(Snapshot()))
    {
      capabilities := capabilities + {HasNssDip};
      CompileNssSettings(node.children);
    }

    /** The loop of `xml_parse_nss`, with its `break` at 16 named settings. */
    method CompileNssSettings(children: seq<Node>)
      requires Valid()
      modifies this`nssSetting, nssOption
      ensures Valid()
      ensures Dip() == NssFold(old(Dip()), children)
    {
      ghost var t0 := Dip();
      var i := 0;
      while i < |children|
        invariant 0 <= i <= |children|
        invariant Valid()
        invariant Dip() == NssFold(t0, children[..i])
      {
        NssFoldAt(t0, children, i);
        if children[i].name == "setting" {
          if |nssSetting| >= MaxSettings {
            NssStopsAt(t0, children, i);
            break;
          }
          XmlParseSetting(children[i]);
        }
        i := i + 1;
      }
      if i == |children| {
        assert children[..i] == children;
      }
    }

    /** One "setting" element while fewer than 16 are named: its number is the count of named settings so far. */
    method XmlParseSetting(setting: Node)
      requires Valid() && setting.name == "setting" && |nssSetting| < MaxSettings
      modifies this`nssSetting, nssOption
      ensures Valid()
      ensures Dip() == NssStep(old(Dip()), setting)
    {
      var number := |nssSetting|;
      nssOption[number] := [];
      var name := ScanAttributes(setting.attributes, "name", AsName, None);
      if name.Some? {
        nssSetting := nssSetting + [name.value];
      }
      AppendOptions(number, setting.children);
    }

    /** The option lines of one setting, appended to its (cleared) slot. */
    method AppendOptions(number: nat, leaves: seq<Node>)
      requires number < nssOption.Length && nssOption[number] == []
      modifies nssOption
      ensures nssOption[..] == old(nssOption[..])[number := OptionTexts(leaves)]
    {
      var j := 0;
      while j < |leaves|
        invariant 0 <= j <= |leaves|
        invariant nssOption[..] == old(nssOption[..])[number := OptionTexts(leaves[..j])]
      {
        var leaf := leaves[j];
        var optionName := ScanAttributes(leaf.attributes, "name", AsText, "");
        var value := ScanAttributes<Word>(leaf.attributes, "value", AsWord, 0);
        OptionTextsAt(leaves, j);
        nssOption[number] := nssOption[number] + [Hex4(value) + ":" + optionName];
        j := j + 1;
      }
      assert leaves[..j] == leaves;
    }

    /** `xml_parse_icd2`: only in Super Game Boy mode; the revision, then the ICD2's port windows. */
    method XmlParseIcd2(node: Node)
      requires Valid()
      modifies this`mapping, this`ramSize, this`icd2Revision
      ensures mapping == old(mapping) + (if setup.mode == SuperGameBoy then GroupStep(node, PortGroup(Icd2Io), old(ramSize)).maps else [])
      ensures Chip() == if setup.mode == SuperGameBoy then old(Chip()).(icd2Revision := Icd2Revision(node)) else old(Chip())
      ensures ramSize == old(ramSize)
      ensures KindOf(node.name) == Icd2Section ==> Snapshot() == SectionState(node, setup, host, old(Snapshot()))
    {
      if setup.mode != SuperGameBoy {
        return;
      }
      SetUpIcd2(node);
      CompileGroup(node, PortGroup(Icd2Io));
    }

    /** The part of `xml_parse_icd2` before its port windows: the revision. */
    method SetUpIcd2(node: Node)
      modifies this`icd2Revision
      ensures Chip() == old(Chip()).(icd2Revision := Icd2Revision(node))
    {
      icd2Revision := ScanAttributes<Icd2Rev>(node.attributes, "revision", Icd2RevisionOf, 1);
    }

    /** `xml_parse_superfx`. */
    method XmlParseSuperFx(node: Node)
      requires Valid()
      modifies this`mapping, this`ramSize, this`capabilities
      ensures var e := GroupMaps(node.children, SuperFxRoute, old(ramSize));
        mapping == old(mapping) + e.maps && ramSize == e.ramSize
      ensures capabilities == old(capabilities) + {HasSuperFx}
      ensures KindOf(node.name) == SuperFxSection ==> Snapshot() == SectionState(node, setup, host, old(Snapshot()))
    {
      capabilities := capabilities + {HasSuperFx};
      CompileChildren(node.children, SuperFxRoute);
    }

    /** `xml_parse_sa1`: "mcu" has a level of its own. */
    method XmlParseSa1(node: Node)
      requires Valid()
      modifies this`mapping, this`ramSize, this`capabilities
      ensures var e := Sa1Maps(node.children, old(ramSize));
        mapping == old(mapping) + e.maps && ramSize == e.ramSize
      ensures capabilities == old(capabilities) + {HasSa1}
      ensures KindOf(node.name) == Sa1Section ==> Snapshot() == SectionState(node, setup, host, old(Snapshot()))
    {
      capabilities := capabilities + {HasSa1};
      CompileSa1Children(node.children);
    }

    /** The loop of `xml_parse_sa1` over the section's child elements. */
    method CompileSa1Children(children: seq<Node>)
      modifies this`mapping, this`ramSize
      ensures var e := Sa1Maps(children, old(ramSize));
        mapping == old(mapping) + e.maps && ramSize == e.ramSize
    {
      var i := 0;
      while i < |children|
        invariant 0 <= i <= |children|
        invariant var e := Sa1Maps(children[..i], old(ramSize));
          mapping == old(mapping) + e.maps && ramSize == e.ramSize
      {
        var child := children[i];
        ghost var before := Sa1Maps(children[..i], old(ramSize));
        Sa1MapsAt(children, i, old(ramSize));
        if child.name == "mcu" {
          CompileChildren(child.children, Sa1McuRoute);
          AppendAssoc(old(mapping), before.maps, GroupMaps(child.children, Sa1McuRoute, before.ramSize).maps);
        } else {
          match Sa1Route(child.name) {
            case None =>
            case Some(g) =>
              CompileGroup(child, g);
              AppendAssoc(old(mapping), before.maps, GroupStep(child, g, before.ramSize).maps);
          }
        }
        i := i + 1;
      }
      assert children[..i] == children;
    }

    /** `xml_parse_necdsp`: model and clock, both ROMs from the firmware file, then the DSP's ports. */
    method XmlParseNecDsp(node: Node)
      requires Valid()
      modifies this`mapping, this`ramSize, this`capabilities, this`necRevision, this`necFrequency, this`log
      modifies necProgramRom, necDataRom
      ensures var e := GroupMaps(node.children, NecDspRoute, old(ramSize));
        mapping == old(mapping) + e.maps && ramSize == e.ramSize
      ensures capabilities == old(capabilities) + {HasNecDsp}
      ensures var c := NecConfigOf(node.attributes);
        var l := NecLoad(c, host);
        && Chip() == old(Chip()).(necRevision := c.revision, necFrequency := c.frequency)
        && Store() == old(Store()).(necProgram := NecProgramImage(l, c.revision), necData := NecDataImage(l, c.revision))
        && log == old(log) + NecDiagnostics(host, c.firmware, l, c.sha256)
      ensures KindOf(node.name) == NecDspSection ==> Snapshot() == SectionState(node, setup, host, old(Snapshot()))
    {
      capabilities := capabilities + {HasNecDsp};
      SetUpNecDsp(node.attributes);
      CompileChildren(node.children, NecDspRoute);
    }

    /** The part of `xml_parse_necdsp` before its child elements: the chip's settings and its two ROMs. */
    method SetUpNecDsp(attrs: seq<Attribute>)
      requires Valid()
      modifies this`necRevision, this`necFrequency, this`log, necProgramRom, necDataRom
      ensures var c := NecConfigOf(attrs);
        var l := NecLoad(c, host);
        && Chip() == old(Chip()).(necRevision := c.revision, necFrequency := c.frequency)
        && Store() == old(Store()).(necProgram := NecProgramImage(l, c.revision), necData := NecDataImage(l, c.revision))
        && log == old(log) + NecDiagnostics(host, c.firmware, l, c.sha256)
    {
      necRevision := UPD7725;
      necFrequency := 8000000;
      ClearWords(necProgramRom);
      ClearWords(necDataRom);
      var c := ScanNecAttributes(attrs);
      necRevision := c.revision;
      necFrequency := c.frequency;
      LoadNecFirmware(c);
    }

    /** `xml_parse_hitachidsp`: clock, the data ROM from the firmware file, then the DSP's windows. */
    method XmlParseHitachiDsp(node: Node)
      requires Valid()
      modifies this`mapping, this`ramSize, this`capabilities, this`hitachiFrequency, this`log
      modifies hitachiDataRom
      ensures var e := GroupMaps(node.children, HitachiDspRoute, old(ramSize));
        mapping == old(mapping) + e.maps && ramSize == e.ramSize
      ensures capabilities == old(capabilities) + {HasHitachiDsp}
      ensures var c := HitachiConfigOf(node.attributes);
        var l := HitachiLoad(c, host);
        && Chip() == old(Chip()).(hitachiFrequency := c.frequency)
        && Store() == old(Store()).(hitachiData := HitachiDataImage(l))
        && log == old(log) + HitachiDiagnostics(host, c.firmware, l, c.sha256)
      ensures KindOf(node.name) == HitachiDspSection ==> Snapshot() == SectionState(node, setup, host, old(Snapshot()))
    {
      capabilities := capabilities + {HasHitachiDsp};
      SetUpHitachiDsp(node.attributes);
      CompileChildren(node.children, HitachiDspRoute);
    }

    /** The part of `xml_parse_hitachidsp` before its child elements: the chip's clock and its data ROM. */
    method SetUpHitachiDsp(attrs: seq<Attribute>)
      requires Valid()
      modifies this`hitachiFrequency, this`log, hitachiDataRom
      ensures var c := HitachiConfigOf(attrs);
        var l := HitachiLoad(c, host);
        && Chip() == old(Chip()).(hitachiFrequency := c.frequency)
        && Store() == old(Store()).(hitachiData := HitachiDataImage(l))
        && log == old(log) + HitachiDiagnostics(host, c.firmware, l, c.sha256)
    {
      hitachiFrequency := 20000000;
      ClearWords(hitachiDataRom);
      var c := ScanHitachiAttributes(attrs);
      hitachiFrequency := c.frequency;
      LoadHitachiFirmware(c);
    }

    /** `xml_parse_bsx`: only in the two B.S.X. modes. */
    method XmlParseBsx(node: Node)
      requires Valid()
      modifies this`mapping, this`ramSize
      ensures setup.mode == BsxSlotted || setup.mode == Bsx ==>
        var e := GroupMaps(node.children, BsxRoute, old(ramSize));
        mapping == old(mapping) + e.maps && ramSize == e.ramSize
      ensures !(setup.mode == BsxSlotted || setup.mode == Bsx) ==> mapping == old(mapping) && ramSize == old(ramSize)
      ensures KindOf(node.name) == BsxSection ==> Snapshot() == SectionState(node, setup, host, old(Snapshot()))
    {
      if setup.mode != BsxSlotted && setup.mode != Bsx {
        return;
      }
      CompileChildren(node.children, BsxRoute);
    }

    /** `xml_parse_sufamiturbo`: only in Sufami Turbo mode; each "slot" picks its memories by "id". */
    method XmlParseSufamiTurbo(node: Node)
      requires Valid()
      modifies this`mapping, this`ramSize
      ensures setup.mode == SufamiTurbo ==>
        var e := SufamiMaps(node.children, setup, old(ramSize));
        mapping == old(mapping) + e.maps && ramSize == e.ramSize
      ensures setup.mode != SufamiTurbo ==> mapping == old(mapping) && ramSize == old(ramSize)
      ensures KindOf(node.name) == SufamiTurboSection ==> Snapshot() == SectionState(node, setup, host, old(Snapshot()))
    {
      if setup.mode != SufamiTurbo {
        return;
      }
      CompileSufamiSlots(node.children);
    }

    /** The loop of `xml_parse_sufamiturbo` over the section's child elements. */
    method CompileSufamiSlots(children: seq<Node>)
      modifies this`mapping, this`ramSize
      ensures var e := SufamiMaps(children, setup, old(ramSize));
        mapping == old(mapping) + e.maps && ramSize == e.ramSize
    {
      var i := 0;
      while i < |children|
        invariant 0 <= i <= |children|
        invariant var e := SufamiMaps(children[..i], setup, old(ramSize));
          mapping == old(mapping) + e.maps && ramSize == e.ramSize
      {
        var child := children[i];
        ghost var before := SufamiMaps(children[..i], setup, old(ramSize));
        SufamiMapsAt(children, i, setup, old(ramSize));
        if child.name == "slot" {
          var slot := ScanAttributes(child.attributes, "id", SlotOf, SlotA);
          var route := SufamiSlotRoute(slot, SlotRomSize(setup, slot));
          CompileChildren(child.children, route);
          AppendAssoc(old(mapping), before.maps, GroupMaps(child.children, route, before.ramSize).maps);
        }
        i := i + 1;
      }
      assert children[..i] == children;
    }

    /** `xml_parse_srtc`. */
    method XmlParseSrtc(node: Node)
      requires Valid()
      modifies this`mapping, this`ramSize, this`capabilities
      ensures mapping == old(mapping) + GroupStep(node, PortGroup(SrtcIo), old(ramSize)).maps
      ensures ramSize == old(ramSize)
      ensures capabilities == old(capabilities) + {HasSrtc}
      ensures KindOf(node.name) == SrtcSection ==> Snapshot() == SectionState(node, setup, host, old(Snapshot()))
    {
      capabilities := capabilities + {HasSrtc};
      CompileGroup(node, PortGroup(SrtcIo));
    }

    /** `xml_parse_obc1`. */
    method XmlParseObc1(node: Node)
      requires Valid()
      modifies this`mapping, this`ramSize, this`capabilities
      ensures mapping == old(mapping) + GroupStep(node, PortGroup(Obc1Io), old(ramSize)).maps
      ensures ramSize == old(ramSize)
      ensures capabilities == old(capabilities) + {HasObc1}
      ensures KindOf(node.name) == Obc1Section ==> Snapshot() == SectionState(node, setup, host, old(Snapshot()))
    {
      capabilities := capabilities + {HasObc1};
      CompileGroup(node, PortGroup(Obc1Io));
    }

    /** `xml_parse_setarisc`. */
    method XmlParseSetaRisc(node: Node)
      requires Valid()
      modifies this`mapping, this`ramSize, this`capabilities
      ensures mapping == old(mapping) + GroupStep(node, PortGroup(St0018Mmio), old(ramSize)).maps
      ensures ramSize == old(ramSize)
      ensures capabilities == old(capabilities) + {HasSt0018}
      ensures KindOf(node.name) == SetaRiscSection ==> Snapshot() == SectionState(node, setup, host, old(Snapshot()))
    {
      capabilities := capabilities + {HasSt0018};
      CompileGroup(node, PortGroup(St0018Mmio));
    }

    /** `xml_parse_msu1`. */
    method XmlParseMsu1(node: Node)
      requires Valid()
      modifies this`mapping, this`ramSize, this`capabilities
      ensures mapping == old(mapping) + GroupStep(node, PortGroup(Msu1Mmio), old(ramSize)).maps
      ensures ramSize == old(ramSize)
      ensures capabilities == old(capabilities) + {HasMsu1}
      ensures KindOf(node.name) == Msu1Section ==> Snapshot() == SectionState(node, setup, host, old(Snapshot()))
    {
      capabilities := capabilities + {HasMsu1};
      CompileGroup(node, PortGroup(Msu1Mmio));
    }

    /** `xml_parse_sdd1`. */
    method XmlParseSdd1(node: Node)
      requires Valid()
      modifies this`mapping, this`ramSize, this`capabilities
      ensures var e := GroupMaps(node.children, Sdd1Route, old(ramSize));
        mapping == old(mapping) + e.maps && ramSize == e.ramSize
      ensures capabilities == old(capabilities) + {HasSdd1}
      ensures KindOf(node.name) == Sdd1Section ==> Snapshot() == SectionState(node, setup, host, old(Snapshot()))
    {
      capabilities := capabilities + {HasSdd1};
      CompileChildren(node.children, Sdd1Route);
    }

    /** The `map` elements under the SPC7110's "mcu": each may also move the data ROM offset. */
    method XmlParseSpc7110Mcu(leaves: seq<Node>)
      modifies this`mapping, this`spc7110DataRomOffset
      ensures mapping == old(mapping) + LeafMaps(leaves, Binding(Device(Spc7110Mcu), AddressOnly, KeepZero, false))
      ensures spc7110DataRomOffset == McuOffset(leaves, old(spc7110DataRomOffset))
    {
      var b := Binding(Device(Spc7110Mcu), AddressOnly, KeepZero, false);
      var i := 0;
      while i < |leaves|
        invariant 0 <= i <= |leaves|
        invariant mapping == old(mapping) + LeafMaps(leaves[..i], b)
        invariant spc7110DataRomOffset == McuOffset(leaves[..i], old(spc7110DataRomOffset))
      {
        var leaf := leaves[i];
        LeafMapsAt(leaves, i, b);
        McuOffsetAt(leaves, i, old(spc7110DataRomOffset));
        if leaf.name == "map" {
          var m := BuildMapping(b.handler, leaf.attributes, AddressOnly);
          spc7110DataRomOffset := ScanAttributes<u32>(leaf.attributes, "offset", AsHex, spc7110DataRomOffset);
          AppendAssoc(old(mapping), LeafMaps(leaves[..i], b), [m]);
          mapping := mapping + [m];
        }
        i := i + 1;
      }
      assert leaves[..i] == leaves;
    }

    /** `xml_parse_spc7110`. */
    method XmlParseSpc7110(node: Node)
      requires Valid()
      modifies this`mapping, this`ramSize, this`capabilities, this`spc7110DataRomOffset
      ensures var e := GroupMaps(node.children, Spc7110Route, old(ramSize));
        mapping == old(mapping) + e.maps && ramSize == e.ramSize
      ensures capabilities == old(capabilities) + {HasSpc7110} + (if HasChildNamed(node.children, "rtc") then {HasSpc7110Rtc} else {})
      ensures Chip() == old(Chip()).(spc7110DataRomOffset := Spc7110Offset(node.children, Spc7110DefaultOffset))
      ensures KindOf(node.name) == Spc7110Section ==> Snapshot() == SectionState(node, setup, host, old(Snapshot()))
    {
      capabilities := capabilities + {HasSpc7110};
      spc7110DataRomOffset := Spc7110DefaultOffset;
      CompileSpc7110Children(node.children);
    }

    /** The loop of `xml_parse_spc7110` over the section's child elements. */
    method CompileSpc7110Children(children: seq<Node>)
      modifies this`mapping, this`ramSize, this`capabilities, this`spc7110DataRomOffset
      ensures var e := GroupMaps(children, Spc7110Route, old(ramSize));
        mapping == old(mapping) + e.maps && ramSize == e.ramSize
      ensures capabilities == old(capabilities) + (if HasChildNamed(children, "rtc") then {HasSpc7110Rtc} else {})
      ensures spc7110DataRomOffset == Spc7110Offset(children, old(spc7110DataRomOffset))
    {
      var i := 0;
      while i < |children|
        invariant 0 <= i <= |children|
        invariant var e := GroupMaps(children[..i], Spc7110Route, old(ramSize));
          mapping == old(mapping) + e.maps && ramSize == e.ramSize
        invariant capabilities == old(capabilities) + (if HasChildNamed(children[..i], "rtc") then {HasSpc7110Rtc} else {})
        invariant spc7110DataRomOffset == Spc7110Offset(children[..i], old(spc7110DataRomOffset))
      {
        ghost var before := GroupMaps(children[..i], Spc7110Route, old(ramSize));
        GroupMapsAt(children, i, Spc7110Route, old(ramSize));
        Spc7110OffsetAt(children, i, old(spc7110DataRomOffset));
        XmlParseSpc7110Child(children[i]);
        if Spc7110Route(children[i].name).Some? {
          AppendAssoc(old(mapping), before.maps, GroupStep(children[i], Spc7110Route(children[i].name).value, before.ramSize).maps);
        }
        RtcSeenAfter(children, i);
        i := i + 1;
      }
      assert children[..i] == children;
    }

    /** One child element of "spc7110": "mcu" may also move the data ROM offset, "rtc" adds the clock. */
    method XmlParseSpc7110Child(child: Node)
      modifies this`mapping, this`ramSize, this`capabilities, this`spc7110DataRomOffset
      ensures var e := if Spc7110Route(child.name).None? then Emit([], old(ramSize))
                       else GroupStep(child, Spc7110Route(child.name).value, old(ramSize));
        mapping == old(mapping) + e.maps && ramSize == e.ramSize
      ensures capabilities == old(capabilities) + (if child.name == "rtc" then {HasSpc7110Rtc} else {})
      ensures spc7110DataRomOffset
           == if child.name == "mcu" then McuOffset(child.children, old(spc7110DataRomOffset)) else old(spc7110DataRomOffset)
    {
      if child.name == "mcu" {
        XmlParseSpc7110Mcu(child.children);
      } else {
        if child.name == "rtc" {
          capabilities := capabilities + {HasSpc7110Rtc};
        }
        match Spc7110Route(child.name) {
          case None =>
          case Some(g) => CompileGroup(child, g);
        }
      }
    }

    /** `xml_parse_link`: clock and program name, then the link's port windows. */
    method XmlParseLink(node: Node)
      requires Valid()
      modifies this`mapping, this`ramSize, this`capabilities, this`linkFrequency, this`linkProgram
      ensures mapping == old(mapping) + GroupStep(node, PortGroup(LinkIo), old(ramSize)).maps
      ensures ramSize == old(ramSize)
      ensures capabilities == old(capabilities) + {HasLink}
      ensures Chip() == old(Chip()).(linkFrequency := Choose<u32>(node.attributes, "frequency", AsUnsigned, 1),
                                     linkProgram := Choose(node.attributes, "program", AsText, ""))
      ensures KindOf(node.name) == LinkSection ==> Snapshot() == SectionState(node, setup, host, old(Snapshot()))
    {
      capabilities := capabilities + {HasLink};
      SetUpLink(node.attributes);
      CompileGroup(node, PortGroup(LinkIo));
    }

    /** The part of `xml_parse_link` before its port windows: the clock and the program name. */
    method SetUpLink(attrs: seq<Attribute>)
      modifies this`linkFrequency, this`linkProgram
      ensures Chip() == old(Chip()).(linkFrequency := Choose<u32>(attrs, "frequency", AsUnsigned, 1),
                                     linkProgram := Choose(attrs, "program", AsText, ""))
    {
      linkFrequency, linkProgram := ScanLinkAttributes(attrs);
    }

    // ----------------------------------------------------------------
    // DSP firmware
    // ----------------------------------------------------------------

    /** Opens the NEC firmware, fills both ROMs from it when its size is right, and checks its digest. */
    method LoadNecFirmware(c: NecConfig)
      requires Valid()
      requires forall k :: 0 <= k < NecProgramCapacity ==> necProgramRom[k] == 0
      requires forall k :: 0 <= k < NecDataCapacity ==> necDataRom[k] == 0
      modifies necProgramRom, necDataRom, this`log
      ensures necProgramRom[..] == NecProgramImage(NecLoad(c, host), c.revision)
      ensures necDataRom[..] == NecDataImage(NecLoad(c, host), c.revision)
      ensures log == old(log) + NecDiagnostics(host, c.firmware, NecLoad(c, host), c.sha256)
    {
      ghost var load := NecLoad(c, host);
      var promsize, dromsize := ProgramWords(c.revision), DataWords(c.revision);
      var filesize := promsize * 3 + dromsize * 2;
      var file := host.firmware(c.firmware);
      if file.None? {
        assert load == Missing;
        log := log + [Diagnostic(NecChip, c.firmware, MissingFile)];
      } else if |file.value| != filesize {
        assert load == WrongSize(|file.value|);
        log := log + [Diagnostic(NecChip, c.firmware, WrongFileSize(None))];
      } else {
        var bytes := file.value;
        assert load == Loaded(bytes);
        var pos := 0;
        var n := 0;
        while n < promsize
          invariant 0 <= n <= promsize && pos == 3 * n
          invariant forall k :: 0 <= k < NecProgramCapacity ==> necProgramRom[k] == (if k < n then NecProgramWord(load, c.revision, k) else 0)
          invariant forall k :: 0 <= k < NecDataCapacity ==> necDataRom[k] == 0
          modifies necProgramRom
        {
          necProgramRom[n] := ReadMsb(bytes, pos, 3);
          pos := pos + 3;
          n := n + 1;
        }
        n := 0;
        while n < dromsize
          invariant 0 <= n <= dromsize && pos == 3 * promsize + 2 * n
          invariant forall k :: 0 <= k < NecProgramCapacity ==> necProgramRom[k] == NecProgramWord(load, c.revision, k)
          invariant forall k :: 0 <= k < NecDataCapacity ==> necDataRom[k] == (if k < n then NecDataWord(load, c.revision, k) else 0)
          modifies necDataRom
        {
          necDataRom[n] := ReadMsb(bytes, pos, 2);
          pos := pos + 2;
          n := n + 1;
        }
        if c.sha256 != "" {
          if c.sha256 != host.sha256(bytes) {
            log := log + [Diagnostic(NecChip, c.firmware, DigestMismatch)];
          }
        }
      }
      assert necProgramRom[..] == NecProgramImage(load, c.revision);
      assert necDataRom[..] == NecDataImage(load, c.revision);
    }

    /** Opens the Hitachi firmware, fills the data ROM from it when its size is right, and checks its digest. */
    method LoadHitachiFirmware(c: HitachiConfig)
      requires Valid()
      requires forall k :: 0 <= k < HitachiDataCapacity ==> hitachiDataRom[k] == 0
      modifies hitachiDataRom, this`log
      ensures hitachiDataRom[..] == HitachiDataImage(HitachiLoad(c, host))
      ensures log == old(log) + HitachiDiagnostics(host, c.firmware, HitachiLoad(c, host), c.sha256)
    {
      ghost var load := HitachiLoad(c, host);
      var file := host.firmware(c.firmware);
      if file.None? {
        assert load == Missing;
        log := log + [Diagnostic(HitachiChip, c.firmware, MissingFile)];
      } else if |file.value| != 1024 * 3 {
        assert load == WrongSize(|file.value|);
        log := log + [Diagnostic(HitachiChip, c.firmware, WrongFileSize(Some(|file.value|)))];
      } else {
        var bytes := file.value;
        assert load == Loaded(bytes);
        var pos := 0;
        var n := 0;
        while n < 1024
          invariant 0 <= n <= 1024 && pos == 3 * n
          invariant forall k :: 0 <= k < HitachiDataCapacity ==> hitachiDataRom[k] == (if k < n then HitachiDataWord(load, k) else 0)
          modifies hitachiDataRom
        {
          hitachiDataRom[n] := ReadLsb(bytes, pos, 3);
          pos := pos + 3;
          n := n + 1;
        }
        if c.sha256 != "" {
          if c.sha256 != host.sha256(bytes) {
            log := log + [Diagnostic(HitachiChip, c.firmware, DigestMismatch)];
          }
        }
      }
      assert hitachiDataRom[..] == HitachiDataImage(load);
    }

    // ----------------------------------------------------------------
    // The whole descriptor
    // ----------------------------------------------------------------

    /**
     * The dispatch on a section element's name in `parse_xml_cartridge`.
     * The source tests the seventeen names one after the other; as they
     * are distinct, at most one compiler runs.
     */
    method XmlParseSection(node: Node)
      requires Valid()
      modifies this, nssOption, necProgramRom, necDataRom, hitachiDataRom
      ensures Valid()
      ensures Snapshot() == SectionState(node, setup, host, old(Snapshot()))
      ensures region == old(region)
    {
      match KindOf(node.name) {
        case RomSection => XmlParseRom(node);
        case RamSection => XmlParseRam(node);
        case NssSection => XmlParseNss(node);
        case Icd2Section => XmlParseIcd2(node);
        case SuperFxSection => XmlParseSuperFx(node);
        case Sa1Section => XmlParseSa1(node);
        case NecDspSection => XmlParseNecDsp(node);
        case HitachiDspSection => XmlParseHitachiDsp(node);
        case BsxSection => XmlParseBsx(node);
        case SufamiTurboSection => XmlParseSufamiTurbo(node);
        case SrtcSection => XmlParseSrtc(node);
        case Sdd1Section => XmlParseSdd1(node);
        case Spc7110Section => XmlParseSpc7110(node);
        case Obc1Section => XmlParseObc1(node);
        case SetaRiscSection => XmlParseSetaRisc(node);
        case Msu1Section => XmlParseMsu1(node);
        case LinkSection => XmlParseLink(node);
        case OtherSection =>
      }
    }

    /** The loop over one "cartridge" element's sections. */
    method XmlParseSections(nodes: seq<Node>)
      requires Valid()
      modifies this, nssOption, necProgramRom, necDataRom, hitachiDataRom
      ensures Valid()
      ensures Snapshot() == CartridgeState(nodes, setup, host, old(Snapshot()))
      ensures region == old(region)
    {
      ghost var start := Snapshot();
      var j := 0;
      while j < |nodes|
        invariant 0 <= j <= |nodes|
        invariant Valid()
        invariant Snapshot() == CartridgeState(nodes[..j], setup, host, start)
        invariant region == old(region)
      {
        assert nodes[..j + 1][..j] == nodes[..j];
        XmlParseSection(nodes[j]);
        CartridgeStateStep(nodes[..j + 1], setup, host, start);
        j := j + 1;
      }
      assert nodes[..j] == nodes;
    }

    /** `parse_xml_cartridge`: the NSS setting names are cleared, then every "cartridge" element is compiled. */
    method ParseXmlCartridge(heads: seq<Node>)
      requires Valid()
      modifies this, nssOption, necProgramRom, necDataRom, hitachiDataRom
      ensures Valid()
      ensures Snapshot() == CartridgeState(SectionsOf(heads), setup, host, old(Snapshot()).(dip := old(Dip()).(settings := [])))
      ensures region == DocumentRegion(heads, old(region))
    {
      nssSetting := [];
      if |heads| == 0 {
        return;
      }
      XmlParseHeads(heads);
    }

    /** The loop of `parse_xml_cartridge` over the document's top-level elements. */
    method XmlParseHeads(heads: seq<Node>)
      requires Valid()
      modifies this, nssOption, necProgramRom, necDataRom, hitachiDataRom
      ensures Valid()
      ensures Snapshot() == CartridgeState(SectionsOf(heads), setup, host, old(Snapshot()))
      ensures region == DocumentRegion(heads, old(region))
    {
      ghost var start, r0 := Snapshot(), region;
      var i := 0;
      while i < |heads|
        invariant 0 <= i <= |heads|
        invariant Valid()
        invariant Snapshot() == CartridgeState(SectionsOf(heads[..i]), setup, host, start)
        invariant region == DocumentRegion(heads[..i], r0)
      {
        ghost var done := SectionsOf(heads[..i]);
        SectionsOfAt(heads, i);
        DocumentRegionAt(heads, i, r0);
        if heads[i].name == "cartridge" {
          XmlParseCartridgeElement(heads[i]);
          CartridgeStateConcat(done, heads[i].children, setup, host, start);
        } else {
          assert done + [] == done;
        }
        i := i + 1;
      }
      assert heads[..i] == heads;
    }

    /** One "cartridge" element: its region, then its sections. */
    method XmlParseCartridgeElement(head: Node)
      requires Valid()
      modifies this, nssOption, necProgramRom, necDataRom, hitachiDataRom
      ensures Valid()
      ensures Snapshot() == CartridgeState(head.children, setup, host, old(Snapshot()))
      ensures region == Choose(head.attributes, "region", RegionOf, old(region))
    {
      region := ScanAttributes(head.attributes, "region", RegionOf, region);
      XmlParseSections(head.children);
    }

    /** `parse_xml`: the table is emptied, the descriptor compiled, and B.S.X. modes get a B.S.X. slot. */
    method ParseXml(heads: seq<Node>)
      requires Valid()
      modifies this, nssOption, necProgramRom, necDataRom, hitachiDataRom
      ensures Valid()
      ensures Snapshot() == XmlState(heads, setup, host, old(Snapshot()))
      ensures region == DocumentRegion(heads, old(region))
    {
      mapping := [];
      ParseXmlCartridge(heads);
      if setup.mode == BsxSlotted || setup.mode == Bsx {
        capabilities := capabilities + {HasBsxSlot};
      }
    }
  }

  // ------------------------------------------------------------------
  // One more loop iteration, for each fold the loops above follow
  // ------------------------------------------------------------------

  lemma GroupMapsAt(children: seq<Node>, i: nat, route: string -> Option<Group>, rs: u32)
    requires i < |children|
    ensures var before := GroupMaps(children[..i], route, rs);
      GroupMaps(children[..i + 1], route, rs)
        == if route(children[i].name).None? then before
           else
             var step := GroupStep(children[i], route(children[i].name).value, before.ramSize);
             Emit(before.maps + step.maps, step.ramSize)
  {
    assert children[..i + 1][..i] == children[..i];
    GroupMapsStep(children[..i + 1], route, rs);
  }

  lemma Spc7110OffsetAt(children: seq<Node>, i: nat, init: u32)
    requires i < |children|
    ensures Spc7110Offset(children[..i + 1], init)
         == if children[i].name == "mcu" then McuOffset(children[i].children, Spc7110Offset(children[..i], init))
            else Spc7110Offset(children[..i], init)
  {
    assert children[..i + 1][..i] == children[..i];
  }

  lemma McuOffsetAt(leaves: seq<Node>, i: nat, init: u32)
    requires i < |leaves|
    ensures McuOffset(leaves[..i + 1], init)
         == if leaves[i].name == "map" then Choose<u32>(leaves[i].attributes, "offset", AsHex, McuOffset(leaves[..i], init))
            else McuOffset(leaves[..i], init)
  {
    assert leaves[..i + 1][..i] == leaves[..i];
  }

  lemma LeafMapsAt(leaves: seq<Node>, i: nat, b: Binding)
    requires i < |leaves|
    ensures var m := LeafMapping(leaves[i], b);
      LeafMaps(leaves[..i + 1], b)
        == if Selected(leaves[i], b.anyLeaf) && Appended(m, b.rule) then LeafMaps(leaves[..i], b) + [m] else LeafMaps(leaves[..i], b)
  {
    assert leaves[..i + 1][..i] == leaves[..i];
  }

  lemma Sa1MapsAt(children: seq<Node>, i: nat, rs: u32)
    requires i < |children|
    ensures var before := Sa1Maps(children[..i], rs);
      Sa1Maps(children[..i + 1], rs)
        == if children[i].name == "mcu" then
             var inner := GroupMaps(children[i].children, Sa1McuRoute, before.ramSize);
             Emit(before.maps + inner.maps, inner.ramSize)
           else if Sa1Route(children[i].name).None? then before
           else
             var step := GroupStep(children[i], Sa1Route(children[i].name).value, before.ramSize);
             Emit(before.maps + step.maps, step.ramSize)
  {
    assert children[..i + 1][..i] == children[..i];
  }

  lemma SufamiMapsAt(children: seq<Node>, i: nat, setup: Setup, rs: u32)
    requires i < |children|
    ensures var before := SufamiMaps(children[..i], setup, rs);
      SufamiMaps(children[..i + 1], setup, rs)
        == if children[i].name == "slot" then
             var slot := Choose(children[i].attributes, "id", SlotOf, SlotA);
             var inner := GroupMaps(children[i].children, SufamiSlotRoute(slot, SlotRomSize(setup, slot)), before.ramSize);
             Emit(before.maps + inner.maps, inner.ramSize)
           else before
  {
    assert children[..i + 1][..i] == children[..i];
  }

  lemma NssFoldAt(t: DipTable, nodes: seq<Node>, i: nat)
    requires WellFormed(t) && i < |nodes|
    ensures NssFold(t, nodes[..i + 1]) == NssStep(NssFold(t, nodes[..i]), nodes[i])
  {
    assert nodes[..i + 1][..i] == nodes[..i];
  }

  lemma OptionTextsAt(leaves: seq<Node>, j: nat)
    requires j < |leaves|
    ensures OptionTexts(leaves[..j + 1]) == OptionTexts(leaves[..j]) + [OptionText(leaves[j])]
  {
    assert leaves[..j + 1][..j] == leaves[..j];
  }

  lemma ChooseAt<T>(attrs: seq<Attribute>, i: nat, name: string, pick: string -> Option<T>, init: T)
    requires i < |attrs|
    ensures Choose(attrs[..i + 1], name, pick, init)
         == if attrs[i].name == name && pick(attrs[i].content).Some? then pick(attrs[i].content).value
            else Choose(attrs[..i], name, pick, init)
  {
    assert attrs[..i + 1][..i] == attrs[..i];
  }

  lemma SectionsOfAt(heads: seq<Node>, i: nat)
    requires i < |heads|
    ensures SectionsOf(heads[..i + 1]) == SectionsOf(heads[..i]) + (if heads[i].name == "cartridge" then heads[i].children else [])
  {
    assert heads[..i + 1][..i] == heads[..i];
  }

  lemma DocumentRegionAt(heads: seq<Node>, i: nat, r0: Region)
    requires i < |heads|
    ensures DocumentRegion(heads[..i + 1], r0)
         == if heads[i].name == "cartridge" then Choose(heads[i].attributes, "region", RegionOf, DocumentRegion(heads[..i], r0))
            else DocumentRegion(heads[..i], r0)
  {
    assert heads[..i + 1][..i] == heads[..i];
  }

  /** Seeing one more child updates "has an rtc child" the way the loop does. */
  lemma RtcSeenAfter(children: seq<Node>, i: nat)
    requires i < |children|
    ensures HasChildNamed(children[..i + 1], "rtc") <==> HasChildNamed(children[..i], "rtc") || children[i].name == "rtc"
  {
    var a, b := children[..i + 1], children[..i];
    if HasChildNamed(a, "rtc") && children[i].name != "rtc" {
      var k :| 0 <= k < |a| && a[k].name == "rtc";
      assert b[k] == a[k];
    }
    if HasChildNamed(b, "rtc") {
      var k :| 0 <= k < |b| && b[k].name == "rtc";
      assert a[k] == b[k];
    }
    if children[i].name == "rtc" {
      assert a[i] == children[i];
    }
  }
}
