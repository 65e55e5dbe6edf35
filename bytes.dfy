/**
 * Machine-level values of the PIC16F877A firmware: 8-bit registers, pin levels,
 * C characters and NUL-terminated strings, and the bit arithmetic the display
 * driver uses to split a byte over the four data lines D4..D7.
 */
module Bytes {

  /** An `unsigned char`: the width of every special-function register. */
  type Byte = x: int | 0 <= x < 256

  /** The level of one output pin. */
  type Bit = x: int | 0 <= x <= 1

  /** A value the four data lines D4..D7 carry in one transfer. */
  type Nibble = x: int | 0 <= x < 16

  /** A C `char` holding one 8-bit character. */
  type CChar = c: char | c as int < 256 witness '\0'

  /** `x >> k` on an unsigned value: `k` halvings, each dropping the lowest bit. */
  function Shr(x: nat, k: nat): nat
  {
    if k == 0 then x else Shr(x, k - 1) / 2
  }

  /** Bit `k` of `x`, i.e. C's `(x >> k) & 0x01`. */
  function BitOf(x: Byte, k: nat): Bit
  {
    Shr(x, k) % 2
  }

  /** The nibble read back from four pin levels, D4 being the least significant line. */
  function LinesValue(d4: Bit, d5: Bit, d6: Bit, d7: Bit): Nibble
  {
    d4 + 2 * d5 + 4 * d6 + 8 * d7
  }

  /** The nibble D4..D7 carry when they are driven with bits 4..7 of `x`: its upper half. */
  function HighLines(x: Byte): (n: Nibble)
    ensures n == x / 16
  {
    var high := LinesValue(BitOf(x, 4), BitOf(x, 5), BitOf(x, 6), BitOf(x, 7));
    BinaryDigits(x);
    SplitSixteen(x, high, LinesValue(BitOf(x, 0), BitOf(x, 1), BitOf(x, 2), BitOf(x, 3)));
    high
  }

  /** The nibble D4..D7 carry when they are driven with bits 0..3 of `x`: its lower half. */
  function LowLines(x: Byte): (n: Nibble)
    ensures n == x % 16
  {
    var low := LinesValue(BitOf(x, 0), BitOf(x, 1), BitOf(x, 2), BitOf(x, 3));
    BinaryDigits(x);
    SplitSixteen(x, LinesValue(BitOf(x, 4), BitOf(x, 5), BitOf(x, 6), BitOf(x, 7)), low);
    low
  }

  /** Four halvings peel off four bits: `x` is `16 * (x >> 4)` plus bits 0..3 of `x`. */
  lemma {:induction false} PeelFour(x: nat, k: nat)
    ensures Shr(x, k) == (Shr(x, k) % 2) + 2 * (Shr(x, k + 1) % 2)
                         + 4 * (Shr(x, k + 2) % 2) + 8 * (Shr(x, k + 3) % 2) + 16 * Shr(x, k + 4)
  {
    var y0 := Shr(x, k);
    var y1 := Shr(x, k + 1);
    var y2 := Shr(x, k + 2);
    var y3 := Shr(x, k + 3);
    var y4 := Shr(x, k + 4);
    assert y1 == y0 / 2 && y2 == y1 / 2 && y3 == y2 / 2 && y4 == y3 / 2;
    assert y0 == y0 % 2 + 2 * y1;
    assert y1 == y1 % 2 + 2 * y2;
    assert y2 == y2 % 2 + 2 * y3;
    assert y3 == y3 % 2 + 2 * y4;
  }

  /** A byte halved eight times is zero. */
  lemma ByteShr8(x: Byte)
    ensures Shr(x, 8) == 0
  {
    assert Shr(x, 1) < 128 && Shr(x, 2) < 64 && Shr(x, 3) < 32 && Shr(x, 4) < 16;
    assert Shr(x, 5) < 8 && Shr(x, 6) < 4 && Shr(x, 7) < 2;
  }

  /** A byte written as sixteen times a nibble plus a nibble has those nibbles as quotient and remainder by 16. */
  lemma SplitSixteen(x: Byte, high: Nibble, low: Nibble)
    requires x == 16 * high + low
    ensures x / 16 == high && x % 16 == low
  {
  }

  /** Bits 0..7 of a byte are its binary digits, least significant first. */
  lemma BinaryDigits(x: Byte)
    ensures x == BitOf(x, 0) + 2 * BitOf(x, 1) + 4 * BitOf(x, 2) + 8 * BitOf(x, 3)
                 + 16 * BitOf(x, 4) + 32 * BitOf(x, 5) + 64 * BitOf(x, 6) + 128 * BitOf(x, 7)
  {
    assert Shr(x, 0) == x;
    PeelFour(x, 0);
    PeelFour(x, 4);
    ByteShr8(x);
  }

  /**
   * Splitting a byte over D4..D7, high nibble first, loses nothing: the first
   * transfer carries the upper four bits, the second the lower four, and the
   * receiver recombines them into the original byte.
   */
  lemma NibbleRoundTrip(x: Byte)
    ensures HighLines(x) == x / 16 && LowLines(x) == x % 16
    ensures 16 * HighLines(x) + LowLines(x) == x
  {
    BinaryDigits(x);
  }

  /**
   * The length of the C string stored in `s`: the index of the first NUL,
   * or `|s|` when there is none.
   */
  function CLen(s: seq<CChar>): (n: nat)
    ensures n <= |s|
    ensures forall i :: 0 <= i < n ==> s[i] != '\0'
    ensures n < |s| ==> s[n] == '\0'
  {
    if s == [] || s[0] == '\0' then 0 else 1 + CLen(s[1..])
  }

  /** The characters of the C string stored in `s`, without its terminator. */
  function CStr(s: seq<CChar>): (r: seq<CChar>)
    ensures '\0' !in r
    ensures r <= s
  {
    s[..CLen(s)]
  }

  /** A text followed by its terminator reads back as that text, whatever follows. */
  lemma CStrOfTerminated(text: seq<CChar>, rest: seq<CChar>)
    requires '\0' !in text
    ensures CStr(text + ['\0'] + rest) == text
  {
    var s := text + ['\0'] + rest;
    assert s[|text|] == '\0';
  }
}
