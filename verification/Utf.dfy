// UTF-8 to 16-bit units and back, one character at a time.
module Utf {
  /** The byte at p of a C string: behind the last byte comes the terminating 0. */
  function At(s: seq<bv8>, p: nat): bv8 {
    if p < |s| then s[p] else 0
  }

  /** How many leading one bits a lead byte has; 1 for a byte without any. */
  function LeadSize(c: bv8): (r: nat)
    ensures 1 <= r <= 8
  {
    if c < 0xC0 then 1 else if c < 0xE0 then 2 else if c < 0xF0 then 3 else if c < 0xF8 then 4
    else if c < 0xFC then 5 else if c < 0xFE then 6 else if c < 0xFF then 7 else 8
  }

  method Utf8Size(lead: bv8) returns (count: nat)
    ensures count == LeadSize(lead)
  {
    var c := lead;
    count := 0;
    while c & 0x80 != 0
      invariant count <= 8
      invariant count == 0 ==> c == lead
      invariant count == 1 ==> c == lead << 1 && lead >= 0x80
      invariant count == 2 ==> c == lead << 2 && lead >= 0xC0
      invariant count == 3 ==> c == lead << 3 && lead >= 0xE0
      invariant count == 4 ==> c == lead << 4 && lead >= 0xF0
      invariant count == 5 ==> c == lead << 5 && lead >= 0xF8
      invariant count == 6 ==> c == lead << 6 && lead >= 0xFC
      invariant count == 7 ==> c == lead << 7 && lead >= 0xFE
      invariant count == 8 ==> c == 0 && lead == 0xFF
      decreases 8 - count
    {
      c := c << 1;
      count := count + 1;
    }
    if count == 0 {
      count := 1;
    }
  }

  function Utf8Encode(u: bv32): (r: seq<bv8>)
    ensures |r| <= 4 && (u <= 0x10FFFF ==> |r| >= 1)
  {
    if u <= 0x7F then [u as bv8]
    else if u <= 0x7FF then
      [(((u >> 6) & 0x1F) | 0xC0) as bv8, ((u & 0x3F) | 0x80) as bv8]
    else if u <= 0xFFFF then
      [(((u >> 12) & 0x0F) | 0xE0) as bv8, (((u >> 6) & 0x3F) | 0x80) as bv8, ((u & 0x3F) | 0x80) as bv8]
    else if u <= 0x10FFFF then
      [(((u >> 18) & 0x07) | 0xF0) as bv8, (((u >> 12) & 0x3F) | 0x80) as bv8,
       (((u >> 6) & 0x3F) | 0x80) as bv8, ((u & 0x3F) | 0x80) as bv8]
    else []
  }

  /** The encoding is that of RFC 3629: a letter, an accented one, the euro sign and an emoji. */
  lemma KnownCharacters()
    ensures Utf8Encode(0x41) == [0x41] && Utf8Encode(0xE9) == [0xC3, 0xA9]
    ensures Utf8Encode(0x20AC) == [0xE2, 0x82, 0xAC] && Utf8Encode(0x1F600) == [0xF0, 0x9F, 0x98, 0x80]
  {
  }

  function TwoByteUnit(b1: bv8, b2: bv8): bv16 {
    ((((b1 & 0x1F) as bv16 << 6) | (b2 & 0x3F) as bv16) & 0xFF) | (((b1 & 0x1F) >> 2) as bv16 << 8)
  }

  function ThreeByteUnit(b1: bv8, b2: bv8, b3: bv8): bv16 {
    ((((b2 & 0x3F) as bv16 << 6) | (b3 & 0x3F) as bv16) & 0x00FF)
    | ((((b1 & 0x0F) as bv16 << 4) | ((b2 & 0x3F) >> 2) as bv16) << 8)
  }

  /** The unit a character starting with these bytes decodes to and how many bytes it takes;
      0 bytes for a malformed character. */
  function DecodeBytes(b1: bv8, b2: bv8, b3: bv8): (bv16, nat) {
    match LeadSize(b1)
    case 1 => (b1 as bv16, 1)
    case 2 =>
      if b2 & 0xC0 != 0x80 then (0, 0)
      else (TwoByteUnit(b1, b2), 2)
    case 3 =>
      if b2 & 0xC0 != 0x80 || b3 & 0xC0 != 0x80 then (0, 0)
      else (ThreeByteUnit(b1, b2, b3), 3)
    case _ => (0, 0)
  }

  function Utf2Unicode(s: seq<bv8>, p: nat): (bv16, nat) {
    DecodeBytes(At(s, p), At(s, p + 1), At(s, p + 2))
  }

  method DecodeAt(s: seq<bv8>, p: nat) returns (unit: bv16, ofs: nat)
    ensures (unit, ofs) == Utf2Unicode(s, p)
  {
    var b1, b2, b3 := At(s, p), At(s, p + 1), At(s, p + 2);
    var size := Utf8Size(b1);
    unit, ofs := 0, 0;
    if size == 1 {
      unit, ofs := b1 as bv16, 1;
    } else if size == 2 && b2 & 0xC0 == 0x80 {
      unit, ofs := TwoByteUnit(b1, b2), 2;
    } else if size == 3 && b2 & 0xC0 == 0x80 && b3 & 0xC0 == 0x80 {
      unit, ofs := ThreeByteUnit(b1, b2, b3), 3;
    }
  }

  lemma DecodeTwoBytes(u: bv16, b3: bv8)
    requires 0x7F < u <= 0x7FF
    ensures var c := Utf8Encode(u as bv32); DecodeBytes(c[0], c[1], b3) == (u, 2)
  {
    var c := Utf8Encode(u as bv32);
    assert 0xC0 <= c[0] < 0xE0;
  }

  lemma ThreeByteBits(u: bv16)
    ensures var w := u as bv32;
      ThreeByteUnit((((w >> 12) & 0x0F) | 0xE0) as bv8, (((w >> 6) & 0x3F) | 0x80) as bv8, ((w & 0x3F) | 0x80) as bv8) == u
  {
  }

  lemma ThreeByteMarks(u: bv16)
    ensures var w := u as bv32;
      && 0xE0 <= (((w >> 12) & 0x0F) | 0xE0) as bv8 < 0xF0
      && (((w >> 6) & 0x3F) | 0x80) as bv8 & 0xC0 == 0x80 && ((w & 0x3F) | 0x80) as bv8 & 0xC0 == 0x80
  {
  }

  lemma DecodeThreeBytes(u: bv16)
    requires 0x7FF < u
    ensures var c := Utf8Encode(u as bv32); |c| == 3 && DecodeBytes(c[0], c[1], c[2]) == (u, 3)
  {
    hide ThreeByteUnit, TwoByteUnit;
    ThreeByteBits(u);
    ThreeByteMarks(u);
  }

  /** The decoder undoes the encoder on every non-zero unit, wherever it stands. */
  lemma DecodeUndoesEncode(u: bv16, before: seq<bv8>, after: seq<bv8>)
    requires u != 0
    ensures Utf2Unicode(before + Utf8Encode(u as bv32) + after, |before|) == (u, |Utf8Encode(u as bv32)|)
  {
    hide DecodeBytes;
    var c := Utf8Encode(u as bv32);
    var s := before + c + after;
    var p := |before|;
    assert forall k :: 0 <= k < |c| ==> At(s, p + k) == c[k];
    assert At(s, p + 0) == c[0];
    if u <= 0x7F {
      DecodeOneByte(u, At(s, p + 1), At(s, p + 2));
    } else if u <= 0x7FF {
      assert At(s, p + 1) == c[1];
      DecodeTwoBytes(u, At(s, p + 2));
    } else {
      DecodeThreeBytes(u);
      assert At(s, p + 1) == c[1] && At(s, p + 2) == c[2];
    }
  }

  lemma DecodeOneByte(u: bv16, b2: bv8, b3: bv8)
    requires u <= 0x7F
    ensures DecodeBytes(u as bv8, b2, b3) == (u, 1)
  {
  }

  /** Two bytes, least significant first. */
  function Le16(x: bv16): (r: seq<bv8>)
    ensures |r| == 2
  {
    [(x & 0xFF) as bv8, ((x >> 8) & 0xFF) as bv8]
  }
}
