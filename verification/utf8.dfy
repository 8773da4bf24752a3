/**
 * A concrete rune-size function for the rune steps: the length of the
 * well-formed UTF-8 sequence at the head of a byte string, following the
 * table of well-formed byte sequences in section 4 of RFC 3629, and 1 for
 * a byte that does not begin one.
 */
module Utf8 {
  import opened Buffer

  predicate InRange(b: Byte, lo: Byte, hi: Byte) {
    lo <= b <= hi
  }

  /**
   * The number of bytes the rune at the head of s occupies; an ill-formed
   * or truncated sequence counts as one byte, and the empty string as none.
   */
  function RuneSize(s: seq<Byte>): (n: nat)
    ensures |s| == 0 <==> n == 0
    ensures n <= |s| && n <= 4
    ensures 0 < |s| && s[0] < 0x80 ==> n == 1
    ensures 1 < n ==> forall k :: 1 <= k < n ==> InRange(s[k], 0x80, 0xBF)
  {
    if |s| == 0 then 0
    else
      var b := s[0];
      var need: nat := if 0xC2 <= b <= 0xDF then 2
        else if 0xE0 <= b <= 0xEF then 3
        else if 0xF0 <= b <= 0xF4 then 4
        else 1;
      // the second byte's range excludes overlong forms, surrogates and code points past U+10FFFF
      var lo2: Byte := if b == 0xE0 then 0xA0 else if b == 0xF0 then 0x90 else 0x80;
      var hi2: Byte := if b == 0xED then 0x9F else if b == 0xF4 then 0x8F else 0xBF;
      if need == 1 || |s| < need then 1
      else if !InRange(s[1], lo2, hi2) then 1
      else if need == 2 then 2
      else if !InRange(s[2], 0x80, 0xBF) then 1
      else if need == 3 then 3
      else if !InRange(s[3], 0x80, 0xBF) then 1
      else 4
  }

  /** The byte of value n. */
  function ToByte(n: int): (b: Byte)
    requires 0 <= n < 0x100
    ensures b as int == n
  {
    if n == 0 then 0 else ToByte(n - 1) + 1
  }

  /** A continuation byte: the marker bits 10 and six bits of payload. */
  function Cont(n: int): (b: Byte)
    requires 0 <= n < 64
    ensures InRange(b, 0x80, 0xBF) && b as int == 0x80 + n
    ensures n < 16 <==> b < 0x90
    ensures n < 32 <==> b < 0xA0
  {
    0x80 + ToByte(n)
  }

  /**
   * The UTF-8 encoding of a Unicode scalar value, as a Go string holds it:
   * one byte below U+0080, then two, three or four (section 3 of RFC 3629).
   */
  function Encode(ch: char): (bs: seq<Byte>)
    ensures 1 <= |bs| <= 4
    ensures (ch as int < 0x80) <==> |bs| == 1
    ensures ch as int < 0x80 ==> bs[0] as int == ch as int
    ensures ch as int >= 0x80 ==> bs[0] >= 0xC2
    ensures 0x80 <= ch as int < 0x800 ==> bs[0] as int == 0xC0 + ch as int / 64
    ensures 0x800 <= ch as int < 0x1_0000 ==> bs[0] as int == 0xE0 + ch as int / 4096
    ensures 0x1_0000 <= ch as int ==> bs[0] as int == 0xF0 + ch as int / 0x4_0000
    ensures ch as int >= 0x80 ==> bs[|bs| - 1] as int == 0x80 + ch as int % 64
    ensures forall k :: 1 <= k < |bs| ==> InRange(bs[k], 0x80, 0xBF)
  {
    var cp := ch as int;
    if cp < 0x80 then [ToByte(cp)]
    else if cp < 0x800 then Encode2(cp)
    else if cp < 0x1_0000 then Encode3(cp)
    else Encode4(cp)
  }

  /** Two bytes, 110xxxxx 10xxxxxx, for U+0080 to U+07FF. */
  function Encode2(cp: int): (bs: seq<Byte>)
    requires 0x80 <= cp < 0x800
    ensures |bs| == 2 && InRange(bs[0], 0xC2, 0xDF) && InRange(bs[1], 0x80, 0xBF)
    ensures bs[0] as int == 0xC0 + cp / 64 && bs[1] as int == 0x80 + cp % 64
  {
    [0xC0 + ToByte(cp / 64), Cont(cp % 64)]
  }

  /** Three bytes, 1110xxxx 10xxxxxx 10xxxxxx, for U+0800 to U+FFFF. */
  function Encode3(cp: int): (bs: seq<Byte>)
    requires 0x800 <= cp < 0x1_0000
    ensures |bs| == 3 && InRange(bs[0], 0xE0, 0xEF)
    ensures bs[0] as int == 0xE0 + cp / 4096 && bs[2] as int == 0x80 + cp % 64
    ensures InRange(bs[1], 0x80, 0xBF) && InRange(bs[2], 0x80, 0xBF)
    ensures bs[0] == 0xE0 ==> bs[1] >= 0xA0
    ensures bs[0] == 0xED && cp < 0xD800 ==> bs[1] <= 0x9F
  {
    [0xE0 + ToByte(cp / 4096), Cont(cp % 4096 / 64), Cont(cp % 64)]
  }

  /** Four bytes, 11110xxx and three continuation bytes, for U+10000 to U+10FFFF. */
  function Encode4(cp: int): (bs: seq<Byte>)
    requires 0x1_0000 <= cp < 0x11_0000
    ensures |bs| == 4 && InRange(bs[0], 0xF0, 0xF4)
    ensures bs[0] as int == 0xF0 + cp / 0x4_0000 && bs[3] as int == 0x80 + cp % 64
    ensures InRange(bs[1], 0x80, 0xBF) && InRange(bs[2], 0x80, 0xBF) && InRange(bs[3], 0x80, 0xBF)
    ensures bs[0] == 0xF0 ==> bs[1] >= 0x90
    ensures bs[0] == 0xF4 ==> bs[1] <= 0x8F
  {
    [0xF0 + ToByte(cp / 0x4_0000), Cont(cp % 0x4_0000 / 4096), Cont(cp % 4096 / 64), Cont(cp % 64)]
  }

  /** The rune-size function reads an encoded character, whatever follows it, as exactly one rune. */
  lemma {:induction false} DecodesEncoding(ch: char, rest: seq<Byte>)
    ensures RuneSize(Encode(ch) + rest) == |Encode(ch)|
  {
  }
}
