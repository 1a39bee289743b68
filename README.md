# SNES cartridge descriptor compiler

This project models, in Dafny, the part of the bsnes SNES core that turns a
cartridge's XML descriptor into the cartridge's configuration
(`snes/cartridge/xml.cpp`). It covers:

- the **memory mapping table** (`mapping`): one `Mapping` per `map` element,
  with its bank and address ranges, mapping mode, offset and size;
- the shared **`ram_size`** that several sections read and write;
- the **`has_*` capability flags**;
- the **NSS DIP-switch table** (`information.nss`);
- each chip's **settings**: ICD2 revision, NEC DSP model and clock, Hitachi
  DSP clock, SPC7110 data ROM offset, link clock and program;
- the **NEC and Hitachi DSP firmware ROMs**, loaded from files;
- the **warnings** raised while loading that firmware;
- the cartridge **region**.

The model is in two layers.

*Specification functions* say what the compiler produces:

- `Mappings` holds a `Mapping` and the `xml_parse_address` and `xml_parse_mode` rules.
- `Sections` holds the section-by-section mapping rules, the capabilities and the region.
- `Nss` holds the DIP-switch table.
- `Firmware` holds firmware decoding and the warnings.
- `Chips` holds the chip settings, ROM images and warning log.
- `Compiler` combines everything into one `State`, folded over the section elements in document order.

A section's child elements are compiled by a *route*. The route maps a child's name to a `Group`: where its windows go, which `map` attributes it reads, how a size of 0 is resolved, and whether the child first reads a `size` attribute into `ram_size`.

*The imperative model* (`Cartridges.Cartridge`) follows the source method by method, except that its NEC DSP digest warning is the corrected one (see "## Findings"):

- a class whose fields are the cartridge's state;
- the firmware ROMs are arrays, cleared and filled by loops;
- every `foreach` is a `while` loop with its invariants;
- each method's postcondition ties the new state to the specification functions.

`Cartridges.Cartridge.ParseXml` is proved to leave the cartridge exactly in `Compiler.XmlState` of the descriptor, whose warning log uses that corrected NEC warning. The lemmas about the specification functions state what that means:

- the mapping table is the sections' windows in document order;
- only the seventeen known section names do anything;
- the mode-gated sections are silent outside their mode;
- the last attribute wins;
- the NSS table holds the first 16 named settings;
- a loaded firmware file is used byte for byte;
- each DSP section raises at most one warning.

The descriptor arrives already parsed: a sequence of `Descriptor.Node`
elements, each with a name, attributes in document order, and child elements.

## Model

| member | source | states |
|---|---|---|
| `Text.Run` | snes/cartridge/xml.cpp:709-711 | the digits `hex()` reads are the longest prefix of digit characters, and the character after them is not a digit |
| `Text.UnsignedReadsBothNotations` | snes/cartridge/xml.cpp:713-716 | `xml_parse_unsigned` reads "0x"-prefixed text as hex and plain digits as decimal, both kept to 32 bits |
| `Text.Hex4` | snes/cartridge/xml.cpp:128 | `hex<4>` gives exactly four hex digits |
| `Text.Hex4RoundTrip` | snes/cartridge/xml.cpp:128 | reading the four digits of `hex<4>(v)` back with `hex()` gives v for every 16-bit v |
| `Text.Split` | snes/cartridge/xml.cpp:719-724 | `split` gives at least one piece and no piece contains the separator |
| `Text.SplitJoin` | snes/cartridge/xml.cpp:719-724 | joining the pieces of a split with the separator restores the text |
| `Text.SplitCount` | snes/cartridge/xml.cpp:719-721 | a split has one piece more than the text has separators, so `part.size() != 2` means "not exactly one ':'" |
| `Text.SplitOfPiece` | snes/cartridge/xml.cpp:725-727 | text without the separator splits into itself alone |
| `Text.SplitAround` | snes/cartridge/xml.cpp:728-730 | text "x SEP y" with no separator in x splits into x followed by the pieces of y |
| `Descriptor.ChooseDefault` | snes/cartridge/xml.cpp:31-36 | an attribute loop with no accepted attribute of its name leaves the value as it was |
| `Descriptor.ChooseAccepted` | snes/cartridge/xml.cpp:31-36 | the value after an attribute loop is the initial one or the reading of one of the attributes of that name |
| `Descriptor.ChooseLastWins` | snes/cartridge/xml.cpp:138-143 | the last accepted attribute of a name decides the value, whatever came before it |
| `Descriptor.ScanAttributes` | snes/cartridge/xml.cpp:138-143 | the loop over the attributes computes the last-accepted-wins value |
| `Mappings.NewMapping` | snes/cartridge/xml.cpp:749-766 | a new Mapping is Direct with every range, the offset and the size 0, bound to its handler |
| `Mappings.ParseMode` | snes/cartridge/xml.cpp:743-747 | only "direct", "linear" and "shadow" change the mode, and nothing else changes |
| `Mappings.ParseAddress` | snes/cartridge/xml.cpp:718-721 | only the four ranges can change, and text without exactly one ':' changes nothing |
| `Mappings.ParseAddressRanges` | snes/cartridge/xml.cpp:728-740 | "b0-b1:a0-a1" sets banks b0..b1 and addresses a0..a1 |
| `Mappings.ParseAddressPoints` | snes/cartridge/xml.cpp:725-736 | "b:a" sets both ends of each range to the single value |
| `Mappings.ParseAddressSidesIndependent` | snes/cartridge/xml.cpp:723-740 | the bank side and the address side are read independently; a side with more than one '-' keeps its old range |
| `Mappings.ApplyAttributes` | snes/cartridge/xml.cpp:145-151 | the attribute loop keeps the handler; where only "address" is read, mode, offset and size keep their defaults |
| `Mappings.ApplyAttributesLastWins` | snes/cartridge/xml.cpp:75-80 | mode, offset and size come from the last accepted attribute of each name |
| `Mappings.ApplyAttributesWithoutAddress` | snes/cartridge/xml.cpp:75-80 | without an "address" attribute the ranges stay at their defaults |
| `Mappings.BuildMapping` | snes/cartridge/xml.cpp:74-80 | the loop over a `map` element's attributes builds the Mapping the specification gives |
| `Sections.LeafMaps` | snes/cartridge/xml.cpp:72-84 | one Mapping per selected child; exactly one per selected child unless empty windows are dropped |
| `Sections.LeafMapsBacking` | snes/cartridge/xml.cpp:496-505 | every window is bound to the group's handler, and none has size 0 where the rule drops or replaces 0 |
| `Sections.LeafMapsConcat` | snes/cartridge/xml.cpp:72-84 | compiling two runs of children appends their windows in order |
| `Sections.LeafMappingSize` | snes/cartridge/xml.cpp:78-81 | a window's size is its declared "size", or the fallback when that is 0 |
| `Sections.GroupMapsKeepsRamSize` | snes/cartridge/xml.cpp:334-366 | a section none of whose children reads "size" leaves `ram_size` alone |
| `Sections.GroupMapsDropsEmpty` | snes/cartridge/xml.cpp:504-526 | a section that drops empty windows appends none of size 0 |
| `Sections.GroupMapsConcat` | snes/cartridge/xml.cpp:159-202 | two runs of children compiled one after the other append in order, the second starting from the first's `ram_size` |
| `Sections.UnroutedChildIgnored` | snes/cartridge/xml.cpp:159-202 | a child element whose name the section does not handle adds no window and leaves `ram_size` alone, wherever it stands among its siblings |
| `Sections.SufamiMapsSizes` | snes/cartridge/xml.cpp:479-533 | Sufami Turbo slots never change the shared `ram_size` and never append an empty window |
| `Sections.KindOfKnown` | snes/cartridge/xml.cpp:38-56 | exactly the seventeen section names select a compiler |
| `Sections.SectionsOfConcat` | snes/cartridge/xml.cpp:29-58 | the sections of two runs of top-level elements are the sections of each, in order |
| `Sections.OtherHeadIgnored` | snes/cartridge/xml.cpp:29-30 | a top-level element not named "cartridge" contributes nothing, wherever it stands |
| `Sections.CartridgeMapsPrefix` | snes/cartridge/xml.cpp:38-56 | sections only append: the table after a prefix of them is a prefix of the final table |
| `Sections.UnknownSectionIgnored` | snes/cartridge/xml.cpp:38-56 | an element with any other name adds no window and no flag |
| `Sections.ModeGatedSections` | snes/cartridge/xml.cpp:135 | "icd2" outside Super Game Boy mode, "bsx" outside the B.S.X. modes and "sufamiturbo" outside Sufami Turbo mode add nothing |
| `Sections.UnionOverExact` | snes/cartridge/xml.cpp:38-56 | a flag gathered over the sections is set exactly when some section sets it |
| `Sections.CartridgeCapabilitiesExact` | snes/cartridge/xml.cpp:38-56 | a `has_*` flag is set exactly when some section sets it: a section of its kind, or for the SPC7110 RTC an "rtc" child |
| `Nss.OptionValue` | snes/cartridge/xml.cpp:126 | an option's value is kept to 16 bits |
| `Nss.OptionTexts` | snes/cartridge/xml.cpp:121-129 | one option line per child element, in order, each "vvvv:name" |
| `Nss.NssStep` | snes/cartridge/xml.cpp:110-131 | a setting never drops a name and adds at most one; below 16 settings a "setting" element fills the option list of the next free number with its own option lines, and no other list changes |
| `Nss.NamedSettings` | snes/cartridge/xml.cpp:111-120 | the named "setting" elements in document order, one per setting name |
| `Nss.NssOptionsOfNamed` | snes/cartridge/xml.cpp:115-129 | the option list of every setting the section names is that setting's own option lines, whatever follows it |
| `Nss.NssFold` | snes/cartridge/xml.cpp:110-131 | the section keeps at most 16 settings and only appends names |
| `Nss.NssFoldConcat` | snes/cartridge/xml.cpp:110-131 | compiling two runs of elements one after the other is compiling them together |
| `Nss.NssSaturated` | snes/cartridge/xml.cpp:112-113 | with 16 settings named, the rest of the section changes nothing |
| `Nss.NssStopsAt` | snes/cartridge/xml.cpp:113 | the loop's `break` at 16 settings gives the same table as going on |
| `Nss.Take16` | snes/cartridge/xml.cpp:113 | the kept settings are a prefix of the named ones, at most 16 |
| `Nss.NssSettingsAreNames` | snes/cartridge/xml.cpp:111-120 | the settings are the names of the named "setting" elements in document order, cut at 16 |
| `Nss.NssOptionsFrame` | snes/cartridge/xml.cpp:115 | option lists of slots already named, and of slots past the next free one, are untouched |
| `Nss.OptionTextRoundTrip` | snes/cartridge/xml.cpp:128 | an option line reads back as its value in four hex digits, ':' and its name |
| `Firmware.ProgramWords` | snes/cartridge/xml.cpp:306 | `promsize` fits the 16384-word program ROM |
| `Firmware.DataWords` | snes/cartridge/xml.cpp:307 | `dromsize` fits the 2048-word data ROM |
| `Firmware.NecFileSize` | snes/cartridge/xml.cpp:308 | the file holds 3-byte program words then 2-byte data words: 8192 bytes for the uPD7725, 53248 for the uPD96050 |
| `Firmware.ReadMsb` | snes/cartridge/xml.cpp:317 | a w-byte read is below 256^w |
| `Firmware.MsbRoundTrip` | snes/cartridge/xml.cpp:317-318 | a word read most significant byte first, written back the same way, is the bytes it came from |
| `Firmware.LsbRoundTrip` | snes/cartridge/xml.cpp:395 | a word read least significant byte first, written back the same way, is the bytes it came from |
| `Firmware.Classify` | snes/cartridge/xml.cpp:311-316 | a missing file, a file of the wrong size and a loaded file are told apart, and only a file of exactly the expected size is loaded |
| `Firmware.MsbWordsRoundTrip` | snes/cartridge/xml.cpp:317-318 | successive most-significant-first reads, written back, are the bytes read |
| `Firmware.LsbWordsRoundTrip` | snes/cartridge/xml.cpp:395 | successive least-significant-first reads, written back, are the bytes read |
| `Firmware.NecProgramReads` | snes/cartridge/xml.cpp:317 | the program ROM image is successive 3-byte reads from the start of the file |
| `Firmware.NecDataReads` | snes/cartridge/xml.cpp:318 | the data ROM image is successive 2-byte reads after the program words |
| `Firmware.HitachiDataReads` | snes/cartridge/xml.cpp:395 | the Hitachi data ROM image is successive 3-byte reads, least significant byte first |
| `Firmware.NecImageRoundTrip` | snes/cartridge/xml.cpp:306-318 | a loaded NEC file is used byte for byte: its program words then its data words, written back, are the file |
| `Firmware.HitachiImageRoundTrip` | snes/cartridge/xml.cpp:391-395 | a loaded Hitachi file is used byte for byte |
| `Firmware.ImagesZeroUnlessLoaded` | snes/cartridge/xml.cpp:287-288 | without a file of the right size every ROM word stays 0 |
| `Firmware.NecDiagnostics` | snes/cartridge/xml.cpp:311-330 | at most one warning, naming the NEC DSP and the file; none exactly when the file loaded and its digest, if given, matches; a missing file is reported as missing, a wrong size without the size, a failing digest as a digest mismatch |
| `Firmware.HitachiDiagnostics` | snes/cartridge/xml.cpp:389-406 | at most one warning, naming the Hitachi DSP and the file; none exactly when the file loaded and its digest matches; a missing file is reported as missing, a wrong size with the size, a failing digest as a digest mismatch |
| `Firmware.NecDiagnosticsDifferOnlyOnDigest` | snes/cartridge/xml.cpp:311-330 | the NEC warnings as written and as intended agree on every input except a failing digest check, where the source names the Hitachi DSP |
| `Firmware.NecDigestWarningNamesHitachi` | snes/cartridge/xml.cpp:327-329 | a failing NEC digest check is reported as Hitachi DSP firmware by the source, and as NEC DSP firmware by the corrected model |
| `Firmware.NecDigestWarningCounterexample` | snes/cartridge/xml.cpp:328 | a concrete NEC file and digest on which the source's warning names the Hitachi DSP |
| `Chips.Icd2Revision` | snes/cartridge/xml.cpp:136-143 | the ICD2 revision is 1 or 2 |
| `Chips.LastOfKind` | snes/cartridge/xml.cpp:38-56 | the section found is of the kind and no later section is; with none, no section is of that kind |
| `Chips.NecSettingsFromLastSection` | snes/cartridge/xml.cpp:284-303 | the NEC DSP's model and clock come from the last "necdsp" section, and are untouched without one |
| `Chips.LinkSettingsFromLastSection` | snes/cartridge/xml.cpp:690-696 | the link's clock and program come from the last "link" section, and are untouched without one |
| `Chips.HitachiSettingsFromLastSection` | snes/cartridge/xml.cpp:370-380 | the Hitachi DSP's clock comes from the last "hitachidsp" section, 20000000 when it gives none, and is untouched without one |
| `Chips.Icd2RevisionOnlyInSuperGameBoyMode` | snes/cartridge/xml.cpp:135 | outside Super Game Boy mode the ICD2 revision is never written |
| `Chips.Spc7110OffsetDefault` | snes/cartridge/xml.cpp:579 | with no "mcu" child the SPC7110 data ROM offset stays 0x100000 |
| `Chips.NecLoad` | snes/cartridge/xml.cpp:305-316 | a loaded NEC file has exactly the size the model calls for |
| `Chips.HitachiLoad` | snes/cartridge/xml.cpp:387-394 | a loaded Hitachi file has exactly 3072 bytes |
| `Chips.NecStorageFromLastSection` | snes/cartridge/xml.cpp:287-318 | both NEC ROMs hold the image of the last "necdsp" section's firmware; earlier sections leave no trace |
| `Chips.SectionLog` | snes/cartridge/xml.cpp:311-330 | a section raises at most one warning (the NEC digest warning in its corrected form) |
| `Chips.LogBound` | snes/cartridge/xml.cpp:389-406 | at most one warning per DSP section, and each names a chip whose section is present (for the corrected NEC digest warning) |
| `Chips.CartridgeDip` | snes/cartridge/xml.cpp:113 | the DIP table never holds more than 16 settings |
| `Compiler.SectionState` | snes/cartridge/xml.cpp:38-56 | one section element keeps the DIP table within 16 settings |
| `Compiler.CartridgeStateConcat` | snes/cartridge/xml.cpp:29-58 | compiling two runs of sections one after the other is compiling them together |
| `Compiler.CartridgeStateComponents` | snes/cartridge/xml.cpp:38-56 | the state after the sections is, concern by concern, the table, flags, DIP table, settings, ROMs and log of those sections |
| `Compiler.StateMaps` | snes/cartridge/xml.cpp:38-56 | the mapping table after the sections is the old one followed by the sections' windows |
| `Compiler.StateOthers` | snes/cartridge/xml.cpp:38-56 | flags, DIP table, settings, ROMs and log after the sections are those the sections give |
| `Compiler.XmlStateMapping` | snes/cartridge/xml.cpp:6-8 | after `parse_xml` the table is exactly the sections' windows, and the NSS settings the first 16 named ones |
| `Compiler.DipSettingsAreNames` | snes/cartridge/xml.cpp:107-132 | the DIP settings after the sections are the named settings of every "nss" section, cut at 16 |
| `Compiler.XmlStateBsxSlot` | snes/cartridge/xml.cpp:10-13 | `has_bsx_slot` is set after `parse_xml` exactly when it was set or the mode is B.S.X. or B.S.X.-slotted |
| `Compiler.NoSectionSetsBsxSlot` | snes/cartridge/xml.cpp:61-63 | no section sets `has_bsx_slot` |
| `Cartridges.ClearWords` | snes/cartridge/xml.cpp:287-288 | the clearing loop sets every word of a ROM to 0 |
| `Cartridges.ScanNecAttributes` | snes/cartridge/xml.cpp:292-303 | the "necdsp" attribute loop computes the model, clock, firmware name and digest the specification gives |
| `Cartridges.ScanHitachiAttributes` | snes/cartridge/xml.cpp:377-385 | the "hitachidsp" attribute loop computes the clock, firmware name and digest the specification gives |
| `Cartridges.ScanLinkAttributes` | snes/cartridge/xml.cpp:693-696 | the "link" attribute loop computes the last accepted clock and program |
| `Cartridges.Cartridge.AppendLeafMaps` | snes/cartridge/xml.cpp:72-84 | the loop over `map` children appends exactly their windows |
| `Cartridges.Cartridge.CompileGroup` | snes/cartridge/xml.cpp:145-153 | one element's "size" then its windows, as the group says |
| `Cartridges.Cartridge.CompileChildren` | snes/cartridge/xml.cpp:159-202 | the loop over a section's children appends the routed children's windows and threads `ram_size` |
| `Cartridges.Cartridge.XmlParseRom` | snes/cartridge/xml.cpp:71-85 | `xml_parse_rom` appends the ROM windows, size 0 becoming the ROM size |
| `Cartridges.Cartridge.XmlParseRam` | snes/cartridge/xml.cpp:87-105 | `xml_parse_ram` reads "size" into `ram_size` and appends the RAM windows |
| `Cartridges.Cartridge.XmlParseNss` | snes/cartridge/xml.cpp:107-132 | `xml_parse_nss` sets `has_nss_dip` and builds the DIP table |
| `Cartridges.Cartridge.CompileNssSettings` | snes/cartridge/xml.cpp:110-131 | the loop, with its `break` at 16, computes the DIP-table fold |
| `Cartridges.Cartridge.XmlParseSetting` | snes/cartridge/xml.cpp:111-130 | one "setting" element: clears and refills its option list and records its name if it has one |
| `Cartridges.Cartridge.AppendOptions` | snes/cartridge/xml.cpp:121-129 | the option loop fills exactly one slot with the option lines |
| `Cartridges.Cartridge.XmlParseIcd2` | snes/cartridge/xml.cpp:134-154 | `xml_parse_icd2` sets the revision and appends the ICD2 windows, only in Super Game Boy mode |
| `Cartridges.Cartridge.SetUpIcd2` | snes/cartridge/xml.cpp:136-143 | the revision loop sets the ICD2 revision and no other setting |
| `Cartridges.Cartridge.XmlParseSuperFx` | snes/cartridge/xml.cpp:156-203 | `xml_parse_superfx` sets `has_superfx` and appends the ROM, RAM and MMIO windows |
| `Cartridges.Cartridge.XmlParseSa1` | snes/cartridge/xml.cpp:205-280 | `xml_parse_sa1` sets `has_sa1` and appends the windows of its children |
| `Cartridges.Cartridge.CompileSa1Children` | snes/cartridge/xml.cpp:208-279 | the SA-1 loop, including the nested "mcu" level, computes the SA-1 fold |
| `Cartridges.Cartridge.XmlParseNecDsp` | snes/cartridge/xml.cpp:282-367 | `xml_parse_necdsp` sets the flag, model and clock, fills both ROMs, logs its warning (the digest warning in its corrected form) and appends the DSP windows |
| `Cartridges.Cartridge.SetUpNecDsp` | snes/cartridge/xml.cpp:283-332 | defaults, cleared ROMs, the attribute loop and the firmware load (corrected digest warning), leaving the other settings alone |
| `Cartridges.Cartridge.XmlParseHitachiDsp` | snes/cartridge/xml.cpp:369-436 | `xml_parse_hitachidsp` sets the flag and clock, fills the data ROM, logs its warning and appends the DSP windows |
| `Cartridges.Cartridge.SetUpHitachiDsp` | snes/cartridge/xml.cpp:370-409 | default clock, cleared ROM, the attribute loop and the firmware load |
| `Cartridges.Cartridge.XmlParseBsx` | snes/cartridge/xml.cpp:438-477 | `xml_parse_bsx` appends the B.S.X. windows, only in the B.S.X. modes |
| `Cartridges.Cartridge.XmlParseSufamiTurbo` | snes/cartridge/xml.cpp:479-533 | `xml_parse_sufamiturbo` appends the slots' windows, only in Sufami Turbo mode |
| `Cartridges.Cartridge.CompileSufamiSlots` | snes/cartridge/xml.cpp:482-532 | the slot loop computes the Sufami Turbo fold |
| `Cartridges.Cartridge.XmlParseSrtc` | snes/cartridge/xml.cpp:535-547 | `xml_parse_srtc` sets `has_srtc` and appends the S-RTC windows |
| `Cartridges.Cartridge.XmlParseSdd1` | snes/cartridge/xml.cpp:549-575 | `xml_parse_sdd1` sets `has_sdd1` and appends the MCU and MMIO windows |
| `Cartridges.Cartridge.XmlParseSpc7110Mcu` | snes/cartridge/xml.cpp:592-602 | the "mcu" loop appends its windows and takes the data ROM offset from the last "offset" |
| `Cartridges.Cartridge.XmlParseSpc7110` | snes/cartridge/xml.cpp:577-644 | `xml_parse_spc7110` sets its flags, the data ROM offset and appends its windows |
| `Cartridges.Cartridge.CompileSpc7110Children` | snes/cartridge/xml.cpp:581-643 | the SPC7110 loop computes the windows, the offset and the RTC flag |
| `Cartridges.Cartridge.XmlParseSpc7110Child` | snes/cartridge/xml.cpp:582-642 | one SPC7110 child: only "mcu" moves the offset, only "rtc" sets the RTC flag |
| `Cartridges.Cartridge.XmlParseObc1` | snes/cartridge/xml.cpp:646-658 | `xml_parse_obc1` sets `has_obc1` and appends the OBC1 windows |
| `Cartridges.Cartridge.XmlParseSetaRisc` | snes/cartridge/xml.cpp:660-672 | `xml_parse_setarisc` sets `has_st0018` and appends the ST0018 windows |
| `Cartridges.Cartridge.XmlParseMsu1` | snes/cartridge/xml.cpp:674-686 | `xml_parse_msu1` sets `has_msu1` and appends the MSU1 windows |
| `Cartridges.Cartridge.XmlParseLink` | snes/cartridge/xml.cpp:688-707 | `xml_parse_link` sets `has_link`, its clock and program, and appends the link windows |
| `Cartridges.Cartridge.SetUpLink` | snes/cartridge/xml.cpp:690-696 | the link attribute loop sets the clock and program and no other setting |
| `Cartridges.Cartridge.LoadNecFirmware` | snes/cartridge/xml.cpp:305-332 | the load fills both NEC ROMs with the file's image (or leaves them 0) and logs the warning, the digest one in its corrected form |
| `Cartridges.Cartridge.LoadHitachiFirmware` | snes/cartridge/xml.cpp:387-409 | the load fills the Hitachi data ROM with the file's image (or leaves it 0) and logs the warning |
| `Cartridges.Cartridge.XmlParseSection` | snes/cartridge/xml.cpp:39-55 | one section element moves the whole state as `Compiler.SectionState` says |
| `Cartridges.Cartridge.XmlParseSections` | snes/cartridge/xml.cpp:38-56 | the loop over one "cartridge" element's sections computes `Compiler.CartridgeState` |
| `Cartridges.Cartridge.XmlParseCartridgeElement` | snes/cartridge/xml.cpp:30-57 | one "cartridge" element: its "region" attribute, then its sections |
| `Cartridges.Cartridge.XmlParseHeads` | snes/cartridge/xml.cpp:29-58 | the loop over the top-level elements compiles the sections of every "cartridge" one and sets the region |
| `Cartridges.Cartridge.ParseXmlCartridge` | snes/cartridge/xml.cpp:22-59 | NSS setting names cleared, nothing more for an empty document, else every "cartridge" element compiled |
| `Cartridges.Cartridge.ParseXml` | snes/cartridge/xml.cpp:6-20 | `parse_xml` leaves the cartridge exactly in `Compiler.XmlState` of the descriptor |

## Left out

- The XML text parser (`xml_parse`) is not modelled. The model starts from the parsed element tree.
- `attr.parse()` entity decoding is not modelled. An NSS name is the attribute's raw content.
- The nall helpers `hex()`, `integer()`, `lstring::split` and `hex<4>` are not part of this model. They are modelled in `Text` by their usual behaviour:
  - `hex()` skips an optional "0x", "0X" or "$" prefix, reads hex digits up to the first other character, and keeps 32 bits.
  - `integer()` reads an optional '-' and decimal digits, and wraps to 32 bits.
  - `split` on k separators gives k + 1 pieces.
  - `hex<4>` gives four lower-case digits.
- `file::readm(n)` is taken to read n bytes most significant first, and `file::readl(n)` least significant first. Their definitions are not part of this model.
- The firmware file system and the SHA-256 routine are the parameter `Firmware.Host`. A file is looked up by the descriptor's firmware name. The path built from `system.interface->path(Slot::Base, ".dsp")` is not modelled, and neither is the SHA-256 algorithm.
- Warnings are `Firmware.Diagnostic` values: the chip, the file and the reason. The message wording is not modelled, and neither is the call to `system.interface->message`.
- The read/write entry points bound into each Mapping (`function<READ_FUNC>`, `Memory::read`, …) are the tag `Mappings.Handler`. The bus that uses the table is not modelled.
- Memory sizes (`rom.size()`, the Sufami Turbo slot ROM sizes) and the cartridge mode are inputs, in `Sections.Setup`.
- In `parse_xml`, only `parse_xml_bsx`'s effect (`has_bsx_slot`) is modelled. `list[1]` and `list[2]` are not read by the source's `parse_xml_bsx`, `parse_xml_sufami_turbo` and `parse_xml_gameboy`. The latter two do nothing.
- The section loop's chain of independent `if`s on `node.name` is modelled as one `match` on the section kind. This is equivalent: the seventeen names are distinct and no compiler renames the node.
- `Cartridges.Cartridge.XmlParseSetting` records a setting's name after its attribute loop, not inside it. The slot number is fixed before the loop, so the last name wins either way.
- Several source loops are split into helper methods, so that each proof stays small: the NSS loop, the SA-1, Sufami Turbo and SPC7110 loops, and the DSP set-up before the child loop. The steps and their order are the source's.
- XmlParseNecDsp (`Cartridges.Cartridge.XmlParseNecDsp`): on a NEC firmware file that loads but fails its digest check, the model logs a warning naming the NEC DSP, where the source's message names the Hitachi DSP. The model uses the corrected warning of "## Findings"; `Firmware.NecDiagnosticsDifferOnlyOnDigest` states the only difference from the source.
- SetUpNecDsp (`Cartridges.Cartridge.SetUpNecDsp`): same difference as XmlParseNecDsp, since it performs the firmware load.
- LoadNecFirmware (`Cartridges.Cartridge.LoadNecFirmware`): same difference. This is the method that appends the corrected digest warning.
- SectionLog (`Chips.SectionLog`): a "necdsp" section contributes the corrected NEC warnings (`Firmware.NecDiagnostics`), not the source's (`Firmware.NecDiagnosticsAsWritten`).
- LogBound (`Chips.LogBound`): its clause "a Hitachi DSP warning implies a hitachidsp section" holds for the corrected log only. In the source, a failing NEC digest check also produces a Hitachi DSP warning.
- Integer widths: `unsigned` values are kept to 32 bits, and NSS option values to 16 bits (`(uint16)`). Nothing else in the modelled code can overflow.

## Findings

| source | as written | input that shows it | evidently intended | confidence | as-written member | corrected member |
|---|---|---|---|---|---|---|
| snes/cartridge/xml.cpp:328 | the warning for a NEC DSP firmware file whose SHA-256 does not match reads "Hitachi DSP firmware" | a "necdsp" section naming a firmware file of the right size, with a non-empty "sha256" attribute that differs from the file's digest | the warning names the NEC DSP, like the other two NEC warnings at lines 312 and 314 | high; not executed | `Firmware.NecDigestWarningCounterexample` | `Firmware.NecDiagnostics` |
