/**
 * The string helpers the descriptor compiler relies on: hex and decimal
 * literals, splitting on a separator, and fixed-width hex rendering.
 *
 * They are nall's string routines (declared at nall/string/base.hpp:108,
 * 139-140, 170-178). Their definitions are outside this model; the
 * definitions here are the behaviour assumed for them:
 *   - `Hex` (nall `hex`/`strhex`): an optional "0x", "0X" or "$" prefix is
 *     skipped, then hex digits are read until the first other character;
 *     the caller stores the result in a 32-bit `unsigned`.
 *   - `Decimal` (nall `integer`): an optional '-', then decimal digits until
 *     the first other character; the signed result is stored in `unsigned`.
 *   - `Split` (nall `lstring::split`): k separators give k + 1 parts.
 *   - `Hex4` (nall `hex<4>`): exactly four lower-case hex digits.
 */
module Text {

  /** The source's `unsigned` is 32 bits wide. */
  const U32Modulus: int := 0x1_0000_0000

  type u32 = x: int | 0 <= x < 0x1_0000_0000

  predicate IsHexDigit(c: char) {
    ('0' <= c <= '9') || ('a' <= c <= 'f') || ('A' <= c <= 'F')
  }

  predicate IsDecimalDigit(c: char) {
    '0' <= c <= '9'
  }

  function HexDigitValue(c: char): (v: nat)
    requires IsHexDigit(c)
    ensures v < 16
  {
    if '0' <= c <= '9' then c as int - '0' as int
    else if 'a' <= c <= 'f' then c as int - 'a' as int + 10
    else c as int - 'A' as int + 10
  }

  /** The longest prefix of `s` whose characters all satisfy `isDigit`. */
  function Run(s: string, isDigit: char -> bool): (d: string)
    ensures |d| <= |s| && d == s[..|d|]
    ensures forall i :: 0 <= i < |d| ==> isDigit(d[i])
    ensures |d| < |s| ==> !isDigit(s[|d|])
  {
    if s == [] || !isDigit(s[0]) then [] else [s[0]] + Run(s[1..], isDigit)
  }

  /** A string made only of digits is its own run. */
  lemma {:induction false} RunOfDigits(s: string, isDigit: char -> bool)
    requires forall i :: 0 <= i < |s| ==> isDigit(s[i])
    ensures Run(s, isDigit) == s
  {
    if s != [] {
      RunOfDigits(s[1..], isDigit);
      assert [s[0]] + s[1..] == s;
    }
  }

  /** Big-endian value of a string of hex digits. */
  function HexDigitsValue(d: string): nat
    requires forall i :: 0 <= i < |d| ==> IsHexDigit(d[i])
  {
    if d == [] then 0 else HexDigitsValue(d[..|d| - 1]) * 16 + HexDigitValue(d[|d| - 1])
  }

  /** Value of a string of decimal digits. */
  function DecimalDigitsValue(d: string): nat
    requires forall i :: 0 <= i < |d| ==> IsDecimalDigit(d[i])
  {
    if d == [] then 0 else DecimalDigitsValue(d[..|d| - 1]) * 10 + DecimalDigitValue(d[|d| - 1])
  }

  function DecimalDigitValue(c: char): (v: nat)
    requires IsDecimalDigit(c)
    ensures v < 10
  {
    c as int - '0' as int
  }

  /** Length of the hex marker ("0x", "0X" or "$") at the head of `s`, if any. */
  function HexPrefixLength(s: string): (n: nat)
    ensures n <= |s|
  {
    if |s| >= 2 && s[0] == '0' && (s[1] == 'x' || s[1] == 'X') then 2
    else if |s| >= 1 && s[0] == '$' then 1
    else 0
  }

  /** `hex(s)` as stored in an `unsigned`. */
  function Hex(s: string): u32 {
    HexDigitsValue(Run(s[HexPrefixLength(s)..], IsHexDigit)) % U32Modulus
  }

  /** `integer(s)` as stored in an `unsigned`: a negative value wraps around. */
  function Decimal(s: string): u32 {
    if |s| > 0 && s[0] == '-' then
      var magnitude: int := DecimalDigitsValue(Run(s[1..], IsDecimalDigit));
      (0 - magnitude) % U32Modulus
    else
      DecimalDigitsValue(Run(s, IsDecimalDigit)) % U32Modulus
  }

  predicate StartsWith(s: string, prefix: string) {
    |prefix| <= |s| && s[..|prefix|] == prefix
  }

  /** `xml_parse_unsigned`: hex when the text begins with "0x", decimal otherwise. */
  function Unsigned(s: string): u32 {
    if StartsWith(s, "0x") then Hex(s) else Decimal(s)
  }

  /**
   * `xml_parse_unsigned` reads "0x" followed by hex digits as hex, and a
   * string of decimal digits as decimal (both kept to 32 bits).
   */
  lemma UnsignedReadsBothNotations(h: string, d: string)
    requires forall i :: 0 <= i < |h| ==> IsHexDigit(h[i])
    requires forall i :: 0 <= i < |d| ==> IsDecimalDigit(d[i])
    ensures Unsigned("0x" + h) == HexDigitsValue(h) % U32Modulus
    ensures Unsigned(d) == DecimalDigitsValue(d) % U32Modulus
  {
    var s := "0x" + h;
    assert StartsWith(s, "0x");
    assert s[HexPrefixLength(s)..] == h;
    RunOfDigits(h, IsHexDigit);
    if |d| >= 2 {
      assert d[1] != 'x';
    }
    RunOfDigits(d, IsDecimalDigit);
  }

  /** One hex digit, lower case. */
  function HexChar(d: nat): (c: char)
    requires d < 16
    ensures IsHexDigit(c) && HexDigitValue(c) == d
    ensures c != 'x' && c != 'X' && c != '$'
  {
    if d < 10 then ('0' as int + d) as char else ('a' as int + d - 10) as char
  }

  /** `hex<4>(v)`: exactly four hex digits, most significant first. */
  function Hex4(v: nat): (s: string)
    requires v < 0x1_0000
    ensures |s| == 4
    ensures forall i :: 0 <= i < |s| ==> IsHexDigit(s[i])
  {
    [HexChar(v / 0x1000), HexChar(v / 0x100 % 0x10), HexChar(v / 0x10 % 0x10), HexChar(v % 0x10)]
  }

  /** Reading back a four-digit rendering gives the value rendered. */
  lemma Hex4RoundTrip(v: nat)
    requires v < 0x1_0000
    ensures Hex(Hex4(v)) == v
  {
    var s := Hex4(v);
    assert HexPrefixLength(s) == 0;
    assert s[0..] == s;
    RunOfDigits(s, IsHexDigit);
    var a, b, c, d := v / 0x1000, v / 0x100 % 0x10, v / 0x10 % 0x10, v % 0x10;
    FourDigits(v);
    assert s[..1][..0] == [];
    assert s[..2][..1] == s[..1];
    assert s[..3][..2] == s[..2];
    assert s[..4][..3] == s[..3];
    assert s[..4] == s;
    assert HexDigitsValue(s[..1]) == a;
    assert HexDigitsValue(s[..2]) == a * 16 + b;
    assert HexDigitsValue(s[..3]) == (a * 16 + b) * 16 + c;
    assert HexDigitsValue(s) == ((a * 16 + b) * 16 + c) * 16 + d;
  }

  lemma FourDigits(v: nat)
    requires v < 0x1_0000
    ensures v == ((v / 0x1000 * 16 + v / 0x100 % 0x10) * 16 + v / 0x10 % 0x10) * 16 + v % 0x10
  {
    var q := v / 0x10;
    assert v == q * 16 + v % 0x10;
    assert q / 0x10 == v / 0x100;
    assert q == (v / 0x100) * 16 + v / 0x10 % 0x10;
    assert (v / 0x100) / 0x10 == v / 0x1000;
    assert v / 0x100 == (v / 0x1000) * 16 + v / 0x100 % 0x10;
  }

  /** Number of occurrences of `c` in `s`. */
  function Occurrences(c: char, s: string): nat {
    if s == [] then 0 else (if s[0] == c then 1 else 0) + Occurrences(c, s[1..])
  }

  /** `lstring::split(sep, s)`: the pieces of `s` between occurrences of `sep`. */
  function Split(sep: char, s: string): (parts: seq<string>)
    ensures |parts| >= 1
    ensures forall i :: 0 <= i < |parts| ==> sep !in parts[i]
    decreases |s|
  {
    if s == [] then [[]]
    else
      var rest := Split(sep, s[1..]);
      if s[0] == sep then [[]] + rest
      else [[s[0]] + rest[0]] + rest[1..]
  }

  /** The pieces glued back together with the separator between them. */
  function Join(sep: char, parts: seq<string>): string {
    if parts == [] then []
    else if |parts| == 1 then parts[0]
    else parts[0] + [sep] + Join(sep, parts[1..])
  }

  /** Splitting loses nothing: joining the pieces restores the text. */
  lemma {:induction false} SplitJoin(sep: char, s: string)
    ensures Join(sep, Split(sep, s)) == s
    decreases |s|
  {
    if s != [] {
      SplitJoin(sep, s[1..]);
      var rest := Split(sep, s[1..]);
      if s[0] == sep {
        assert ([[]] + rest)[1..] == rest;
        assert s == [sep] + s[1..];
      } else {
        var parts := [[s[0]] + rest[0]] + rest[1..];
        if |rest| == 1 {
          assert s == [s[0]] + s[1..];
        } else {
          assert parts[1..] == rest[1..];
          assert Join(sep, rest) == rest[0] + [sep] + Join(sep, rest[1..]);
          assert s == [s[0]] + s[1..];
        }
      }
    }
  }

  /** The number of pieces is one more than the number of separators. */
  lemma {:induction false} SplitCount(sep: char, s: string)
    ensures |Split(sep, s)| == Occurrences(sep, s) + 1
    decreases |s|
  {
    if s != [] {
      SplitCount(sep, s[1..]);
    }
  }

  /** Text without the separator is one piece. */
  lemma {:induction false} SplitOfPiece(sep: char, x: string)
    requires sep !in x
    ensures Split(sep, x) == [x]
    decreases |x|
  {
    if x != [] {
      assert sep !in x[1..];
      SplitOfPiece(sep, x[1..]);
      assert [x[0]] + x[1..] == x;
    }
  }

  /** A separator after a separator-free head splits off exactly that head. */
  lemma {:induction false} SplitAround(sep: char, x: string, y: string)
    requires sep !in x
    ensures Split(sep, x + [sep] + y) == [x] + Split(sep, y)
    decreases |x|
  {
    if x == [] {
      assert x + [sep] + y == [sep] + y;
      assert ([sep] + y)[1..] == y;
    } else {
      assert sep !in x[1..];
      SplitAround(sep, x[1..], y);
      assert (x + [sep] + y)[1..] == x[1..] + [sep] + y;
      assert [x[0]] + x[1..] == x;
    }
  }

  // ------------------------------------------------------------------
  // Sequence facts used by the loops that build strings and tables
  // ------------------------------------------------------------------

  lemma AppendAssoc<T>(a: seq<T>, b: seq<T>, c: seq<T>)
    ensures a + (b + c) == a + b + c
  {
  }

  lemma TakeDropRejoin<T>(s: seq<T>, i: nat)
    requires i <= |s|
    ensures s[..i] + s[i..] == s
  {
  }

  lemma TakeAtDrop<T>(s: seq<T>, k: nat)
    requires k < |s|
    ensures s == s[..k] + [s[k]] + s[k + 1..]
  {
  }
}
