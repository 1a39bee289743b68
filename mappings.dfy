/**
 * One compiled address-window binding (`Cartridge::Mapping`), the grammar of
 * its "address" and "mode" attributes, and the construction of a Mapping
 * from a `map` element's attributes.
 *
 * The source mutates a local `Mapping&` before copying it into the table;
 * here each such update is a function from the old record to the new one.
 */
module Mappings {
  import opened Wrappers
  import opened Text
  import opened Descriptor

  /** `Bus::MapMode`. */
  datatype Mode = Direct | Linear | Shadow

  datatype Slot = SlotA | SlotB

  /** Memory regions bound through `Memory::read` / `Memory::write`. */
  datatype Store =
    | Rom | Ram
    | SuperFxRom | SuperFxRam
    | Sa1IRam | Sa1BwRam
    | BsxFlash
    | SlotRom(romSlot: Slot) | SlotRam(ramSlot: Slot)

  /** Device read/write entry-point pairs, one per pair the descriptor compiler binds. */
  datatype Port =
    | Icd2Io
    | SuperFxMmio
    | Sa1Mmc | Sa1MmcCpu | Sa1Mmio
    | NecDr | NecSr | NecDp
    | HitachiRom | HitachiMmio
    | BsxMcu | BsxMmio
    | SrtcIo
    | Sdd1Mcu | Sdd1Mmio
    | Spc7110Dcu | Spc7110Mcu | Spc7110Mmio | Spc7110Ram
    | Obc1Io
    | St0018Mmio
    | Msu1Mmio
    | LinkIo

  /** What a Mapping dispatches to; `Unbound` is what the default constructor leaves. */
  datatype Handler = Unbound | Memory(store: Store) | Device(port: Port)

  datatype Mapping = Mapping(
    banklo: u32, bankhi: u32,
    addrlo: u32, addrhi: u32,
    mode: Mode,
    offset: u32, size: u32,
    handler: Handler)

  /** The three `Mapping` constructors: whatever the backing, everything else starts at its default. */
  function NewMapping(h: Handler): (m: Mapping)
    ensures m.handler == h && m.mode == Direct
    ensures m.banklo == 0 && m.bankhi == 0 && m.addrlo == 0 && m.addrhi == 0
    ensures m.offset == 0 && m.size == 0
  {
    Mapping(0, 0, 0, 0, Direct, 0, 0, h)
  }

  /** The mode a "mode" attribute names, if it names one exactly. */
  function ModeOf(text: string): Option<Mode> {
    if text == "direct" then Some(Direct)
    else if text == "linear" then Some(Linear)
    else if text == "shadow" then Some(Shadow)
    else None
  }

  /** `xml_parse_mode`: only the three exact keywords change the mode. */
  function ParseMode(m: Mapping, data: string): (r: Mapping)
    ensures r.(mode := m.mode) == m
    ensures data == "direct" ==> r.mode == Direct
    ensures data == "linear" ==> r.mode == Linear
    ensures data == "shadow" ==> r.mode == Shadow
    ensures data != "direct" && data != "linear" && data != "shadow" ==> r == m
  {
    match ModeOf(data)
    case Some(k) => m.(mode := k)
    case None => m
  }

  /**
   * One side of an address text: "v" gives the range [v, v], "lo-hi" gives
   * [lo, hi], and any other number of '-'-separated pieces keeps (lo, hi).
   */
  function SideRange(side: string, lo: u32, hi: u32): (u32, u32) {
    var sub := Split('-', side);
    if |sub| == 1 then (Hex(sub[0]), Hex(sub[0]))
    else if |sub| == 2 then (Hex(sub[0]), Hex(sub[1]))
    else (lo, hi)
  }

  /** `xml_parse_address`: "B[-B]:A[-A]" sets the bank and address ranges. */
  function ParseAddress(m: Mapping, data: string): (r: Mapping)
    ensures r.mode == m.mode && r.offset == m.offset && r.size == m.size && r.handler == m.handler
    ensures Occurrences(':', data) != 1 ==> r == m
  {
    SplitCount(':', data);
    var part := Split(':', data);
    if |part| != 2 then m
    else
      var (blo, bhi) := SideRange(part[0], m.banklo, m.bankhi);
      var (alo, ahi) := SideRange(part[1], m.addrlo, m.addrhi);
      m.(banklo := blo, bankhi := bhi, addrlo := alo, addrhi := ahi)
  }

  /** Splitting "x:y" on ':' when neither side holds a ':' gives [x, y]. */
  lemma SplitPair(sep: char, x: string, y: string)
    requires sep !in x && sep !in y
    ensures Split(sep, x + [sep] + y) == [x, y]
  {
    SplitAround(sep, x, y);
    SplitOfPiece(sep, y);
  }

  /** "B0-B1:A0-A1" gives banks [B0, B1] and addresses [A0, A1], read as hex. */
  lemma ParseAddressRanges(m: Mapping, b0: string, b1: string, a0: string, a1: string)
    requires ':' !in b0 && ':' !in b1 && ':' !in a0 && ':' !in a1
    requires '-' !in b0 && '-' !in b1 && '-' !in a0 && '-' !in a1
    ensures ParseAddress(m, b0 + "-" + b1 + ":" + a0 + "-" + a1)
         == m.(banklo := Hex(b0), bankhi := Hex(b1), addrlo := Hex(a0), addrhi := Hex(a1))
  {
    var bank, addr := b0 + "-" + b1, a0 + "-" + a1;
    assert b0 + "-" + b1 + ":" + a0 + "-" + a1 == bank + [':'] + addr;
    assert ':' !in bank && ':' !in addr;
    SplitPair(':', bank, addr);
    SplitPair('-', b0, b1);
    SplitPair('-', a0, a1);
  }

  /** "B:A" gives the single bank [B, B] and the single address [A, A]. */
  lemma ParseAddressPoints(m: Mapping, b: string, a: string)
    requires ':' !in b && ':' !in a && '-' !in b && '-' !in a
    ensures ParseAddress(m, b + ":" + a)
         == m.(banklo := Hex(b), bankhi := Hex(b), addrlo := Hex(a), addrhi := Hex(a))
  {
    SplitPair(':', b, a);
    SplitOfPiece('-', b);
    SplitOfPiece('-', a);
  }

  /**
   * The two sides are independent: a bank side with more than one '-' keeps
   * the old bank range while the address side is still applied, and the
   * other way round.
   */
  lemma ParseAddressSidesIndependent(m: Mapping, bank: string, addr: string)
    requires ':' !in bank && ':' !in addr
    ensures var r := ParseAddress(m, bank + ":" + addr);
      && (r.addrlo, r.addrhi) == SideRange(addr, m.addrlo, m.addrhi)
      && (r.banklo, r.bankhi) == SideRange(bank, m.banklo, m.bankhi)
      && (Occurrences('-', bank) > 1 ==> r.banklo == m.banklo && r.bankhi == m.bankhi)
      && (Occurrences('-', addr) > 1 ==> r.addrlo == m.addrlo && r.addrhi == m.addrhi)
  {
    SplitPair(':', bank, addr);
    SplitCount('-', bank);
    SplitCount('-', addr);
  }

  /** Which attributes a `map` element's loop reads. */
  datatype AttrSet =
    | AddressOnly              // device windows: only "address"
    | AddressModeOffsetSize    // memory-like windows: "address", "mode", "offset", "size"

  /** One pass of the attribute loop of a `map` element. */
  function ApplyAttribute(m: Mapping, a: Attribute, fields: AttrSet): Mapping {
    if a.name == "address" then ParseAddress(m, a.content)
    else if fields == AddressOnly then m
    else if a.name == "mode" then ParseMode(m, a.content)
    else if a.name == "offset" then m.(offset := Hex(a.content))
    else if a.name == "size" then m.(size := Hex(a.content))
    else m
  }

  /** The Mapping after the whole attribute loop, attributes taken in document order. */
  function ApplyAttributes(m: Mapping, attrs: seq<Attribute>, fields: AttrSet): (r: Mapping)
    ensures r.handler == m.handler
    ensures fields == AddressOnly ==> r.mode == m.mode && r.offset == m.offset && r.size == m.size
    decreases |attrs|
  {
    if attrs == [] then m
    else ApplyAttribute(ApplyAttributes(m, attrs[..|attrs| - 1], fields), attrs[|attrs| - 1], fields)
  }

  /**
   * For a memory-like window, mode, offset and size are those of the last
   * "mode" naming a keyword, the last "offset" and the last "size"
   * attribute; absent ones keep the constructor's defaults.
   */
  lemma {:induction false} ApplyAttributesLastWins(m: Mapping, attrs: seq<Attribute>)
    ensures var r := ApplyAttributes(m, attrs, AddressModeOffsetSize);
      && r.mode == Choose(attrs, "mode", ModeOf, m.mode)
      && r.offset == Choose(attrs, "offset", AsHex, m.offset)
      && r.size == Choose(attrs, "size", AsHex, m.size)
    decreases |attrs|
  {
    if attrs != [] {
      ApplyAttributesLastWins(m, attrs[..|attrs| - 1]);
    }
  }

  /** Without an "address" attribute the bank and address ranges are those of `m`. */
  lemma {:induction false} ApplyAttributesWithoutAddress(m: Mapping, attrs: seq<Attribute>, fields: AttrSet)
    requires forall i :: 0 <= i < |attrs| ==> attrs[i].name != "address"
    ensures var r := ApplyAttributes(m, attrs, fields);
      r.banklo == m.banklo && r.bankhi == m.bankhi && r.addrlo == m.addrlo && r.addrhi == m.addrhi
    decreases |attrs|
  {
    if attrs != [] {
      var front := attrs[..|attrs| - 1];
      assert forall i :: 0 <= i < |front| ==> front[i] == attrs[i];
      ApplyAttributesWithoutAddress(m, front, fields);
    }
  }

  /** Builds one Mapping from its backing and its `map` element's attributes. */
  method BuildMapping(h: Handler, attrs: seq<Attribute>, fields: AttrSet) returns (m: Mapping)
    ensures m == ApplyAttributes(NewMapping(h), attrs, fields)
  {
    m := NewMapping(h);
    var i := 0;
    while i < |attrs|
      invariant 0 <= i <= |attrs|
      invariant m == ApplyAttributes(NewMapping(h), attrs[..i], fields)
    {
      var attr := attrs[i];
      if attr.name == "address" {
        m := ParseAddress(m, attr.content);
      }
      if fields == AddressModeOffsetSize {
        if attr.name == "mode" {
          m := ParseMode(m, attr.content);
        }
        if attr.name == "offset" {
          m := m.(offset := Hex(attr.content));
        }
        if attr.name == "size" {
          m := m.(size := Hex(attr.content));
        }
      }
      assert attrs[..i + 1][..i] == attrs[..i];
      i := i + 1;
    }
    assert attrs[..i] == attrs;
  }
}
