// Writing and reading the fields of MTP datasets. An offset threads through a series of writes
// and turns negative, for good, at the first one that would not fit.
module MtpHelpers {
  import opened Utf
  import opened Usbstring

  /** What a write of these bytes at `index` does: it happens in full when it ends before the
      last byte of the buffer, and else leaves everything before `index` and from `maxsize` on. */
  ghost predicate Appended(before: seq<bv8>, after: seq<bv8>, index: int, maxsize: int, bytes: seq<bv8>, r: int) {
    && |after| == |before| && maxsize <= |before|
    && (index < 0 ==> r == index && after == before)
    && (0 <= index && index + |bytes| < maxsize ==>
          r == index + |bytes| && after == before[..index] + bytes + before[r..])
    && (0 <= index && index + |bytes| >= maxsize ==>
          r == -1 && forall k :: 0 <= k < |before| && (k < index || k >= maxsize) ==> after[k] == before[k])
  }

  /** Two writes in a row are one write of both. */
  lemma AppendedTwice(s0: seq<bv8>, s1: seq<bv8>, s2: seq<bv8>, index: int, maxsize: int,
                      a: seq<bv8>, i: int, b: seq<bv8>, j: int)
    requires Appended(s0, s1, index, maxsize, a, i) && Appended(s1, s2, i, maxsize, b, j)
    ensures Appended(s0, s2, index, maxsize, a + b, j)
  {
    if index >= 0 && index + |a| + |b| < maxsize {
      assert s2 == s0[..index] + (a + b) + s0[j..];
    }
  }

  // --- Fixed-size fields ---

  function Le32(x: bv32): (r: seq<bv8>)
    ensures |r| == 4
  {
    [(x & 0xFF) as bv8, ((x >> 8) & 0xFF) as bv8, ((x >> 16) & 0xFF) as bv8, ((x >> 24) & 0xFF) as bv8]
  }

  /** The lowest byte comes first. */
  lemma LowByteFirst(x: bv32, y: bv16)
    ensures var b := Le32(x); x == b[0] as bv32 | (b[1] as bv32 << 8) | (b[2] as bv32 << 16) | (b[3] as bv32 << 24)
    ensures var c := Le16(y); y == c[0] as bv16 | (c[1] as bv16 << 8)
  {
  }

  method Poke08(buffer: array<bv8>, index: int, maxsize: int, data: bv8) returns (r: int)
    requires maxsize <= buffer.Length
    modifies buffer
    ensures Appended(old(buffer[..]), buffer[..], index, maxsize, [data], r)
  {
    if index < 0 {
      return index;
    }
    if index + 1 >= maxsize {
      return -1;
    }
    buffer[index] := data;
    return index + 1;
  }

  method Poke16(buffer: array<bv8>, index: int, maxsize: int, data: bv16) returns (r: int)
    requires maxsize <= buffer.Length
    modifies buffer
    ensures Appended(old(buffer[..]), buffer[..], index, maxsize, Le16(data), r)
  {
    if index < 0 {
      return index;
    }
    if index + 2 >= maxsize {
      return -1;
    }
    buffer[index], buffer[index + 1] := (data & 0xFF) as bv8, ((data >> 8) & 0xFF) as bv8;
    return index + 2;
  }

  method Poke32(buffer: array<bv8>, index: int, maxsize: int, data: bv32) returns (r: int)
    requires maxsize <= buffer.Length
    modifies buffer
    ensures Appended(old(buffer[..]), buffer[..], index, maxsize, Le32(data), r)
  {
    if index < 0 {
      return index;
    }
    if index + 4 >= maxsize {
      return -1;
    }
    buffer[index], buffer[index + 1] := (data & 0xFF) as bv8, ((data >> 8) & 0xFF) as bv8;
    buffer[index + 2], buffer[index + 3] := ((data >> 16) & 0xFF) as bv8, ((data >> 24) & 0xFF) as bv8;
    return index + 4;
  }

  function ByteAt(b: seq<bv8>, k: nat): bv32 {
    if k < |b| then b[k] as bv32 else 0
  }

  function Join(b0: bv32, b1: bv32, b2: bv32, b3: bv32): bv32 {
    b0 | (b1 << 8) | (b2 << 16) | (b3 << 24)
  }

  /** The number whose bytes these are, least significant first. */
  function FromLe(b: seq<bv8>): bv32 {
    Join(ByteAt(b, 0), ByteAt(b, 1), ByteAt(b, 2), ByteAt(b, 3))
  }

  /** x moved up by `i` bytes. */
  function ShiftBytes(x: bv32, i: nat): bv32
    requires i < 4
  {
    if i == 0 then x else if i == 1 then x << 8 else if i == 2 then x << 16 else x << 24
  }

  /** One step of the accumulation: byte number i joins in. */
  function WithByte(data: bv32, x: bv8, i: nat): bv32
    requires i < 4
  {
    data | ShiftBytes(x as bv32, i)
  }

  method Peek(buffer: seq<bv8>, index: nat, typesize: nat) returns (data: bv32)
    requires 1 <= typesize <= 4 && index + typesize <= |buffer|
    ensures data == FromLe(buffer[index..index + typesize])
  {
    hide FromLe, WithByte;
    ghost var b := buffer[index..index + typesize];
    FromLeNothing();
    data := 0;
    var i := 0;
    assert b[..0] == [];
    while i < typesize
      invariant 0 <= i <= typesize
      invariant data == FromLe(b[..i])
    {
      PeekStep(b, i);
      data := WithByte(data, buffer[index + i], i);
      i := i + 1;
    }
    assert b[..i] == b;
  }

  lemma PeekStep(b: seq<bv8>, i: nat)
    requires i < |b| <= 4
    ensures FromLe(b[..i + 1]) == WithByte(FromLe(b[..i]), b[i], i)
  {
    hide FromLe, WithByte;
    assert b[..i + 1] == b[..i] + [b[i]];
    FromLeAppend(b[..i], b[i]);
  }

  lemma FromLeNothing()
    ensures FromLe([]) == 0
  {
  }

  lemma FromLeAppend(b: seq<bv8>, x: bv8)
    requires |b| <= 3
    ensures FromLe(b + [x]) == WithByte(FromLe(b), x, |b|)
  {
    hide Join, WithByte, ByteAt;
    BytesOfAppend(b, x);
    var b0, b1, b2, y := ByteAt(b, 0), ByteAt(b, 1), ByteAt(b, 2), ByteAt([x], 0);
    if |b| == 0 {
      JoinFirst(x);
    } else if |b| == 1 {
      JoinSecond(b0, x);
    } else if |b| == 2 {
      JoinThird(b0, b1, x);
    } else {
      JoinFourth(b0, b1, b2, x);
    }
  }

  lemma BytesOfAppend(b: seq<bv8>, x: bv8)
    ensures forall k: nat :: k != |b| ==> ByteAt(b + [x], k) == ByteAt(b, k)
    ensures ByteAt(b + [x], |b|) == ByteAt([x], 0)
    ensures forall k: nat :: k >= |b| ==> ByteAt(b, k) == 0
  {
  }

  lemma JoinFirst(x: bv8)
    ensures Join(ByteAt([x], 0), 0, 0, 0) == WithByte(Join(0, 0, 0, 0), x, 0)
  {
  }

  lemma JoinSecond(b0: bv32, x: bv8)
    ensures Join(b0, ByteAt([x], 0), 0, 0) == WithByte(Join(b0, 0, 0, 0), x, 1)
  {
  }

  lemma JoinThird(b0: bv32, b1: bv32, x: bv8)
    ensures Join(b0, b1, ByteAt([x], 0), 0) == WithByte(Join(b0, b1, 0, 0), x, 2)
  {
  }

  lemma JoinFourth(b0: bv32, b1: bv32, b2: bv32, x: bv8)
    ensures Join(b0, b1, b2, ByteAt([x], 0)) == WithByte(Join(b0, b1, b2, 0), x, 3)
  {
  }

  lemma BytesOf16(x: bv16)
    ensures (((x & 0xFF) as bv8) as bv32) | ((((x >> 8) & 0xFF) as bv8 as bv32) << 8) == x as bv32
  {
  }

  lemma BytesOf32(y: bv32)
    ensures ((y & 0xFF) as bv8 as bv32) | ((((y >> 8) & 0xFF) as bv8 as bv32) << 8)
      | ((((y >> 16) & 0xFF) as bv8 as bv32) << 16) | ((((y >> 24) & 0xFF) as bv8 as bv32) << 24) == y
  {
  }

  /** Reading undoes writing. */
  lemma FromLeOfLe16(x: bv16)
    ensures FromLe(Le16(x)) == x as bv32
  {
    BytesOf16(x);
  }

  lemma FromLeOfLe32(y: bv32)
    ensures FromLe(Le32(y)) == y
  {
    BytesOf32(y);
  }

  // --- Strings ---

  /** The units written after k steps of the conversion loop: all of them decoded units, except
      that the last one written ends the text. */
  ghost predicate Written(s: seq<bv8>, p: nat, us: seq<bv16>, more: bool) {
    && |us| <= 255
    && (more ==> |us| < 255 && Decode(s, 0) == us + Decode(s, p))
    && (!more && |us| < 255 ==> us == Decode(s, 0) + [0])
    && (!more && |us| == 255 ==> us[..254] <= Decode(s, 0) && (us[254] == 0 ==> us[..254] == Decode(s, 0))
                                 && |Decode(s, 0)| >= 254)
  }

  lemma WrittenBegins(s: seq<bv8>)
    ensures Written(s, 0, [], true) && UnitBytes([]) == []
  {
    assert [] + Decode(s, 0) == Decode(s, 0);
  }

  lemma WrittenStep(s: seq<bv8>, p: nat, us: seq<bv16>)
    requires Written(s, p, us, true)
    ensures var (u, n) := Utf2Unicode(s, p); Written(s, p + n, us + [u], u != 0 && n != 0 && |us| + 1 < 255)
  {
    hide Utf2Unicode;
    var (u, n) := Utf2Unicode(s, p);
    var d := Decode(s, 0);
    if p >= |s| {
      AtEnd(s, p);
    }
    if u != 0 && n != 0 {
      assert Decode(s, p) == [u] + Decode(s, p + n);
      assert d == (us + [u]) + Decode(s, p + n);
    } else {
      assert Decode(s, p) == [] && d == us;
      ZeroWhenMalformed(s, p);
    }
  }

  lemma AtEnd(s: seq<bv8>, p: nat)
    requires p >= |s|
    ensures Utf2Unicode(s, p).0 == 0
  {
  }

  lemma ZeroWhenMalformed(s: seq<bv8>, p: nat)
    ensures Utf2Unicode(s, p).1 == 0 ==> Utf2Unicode(s, p).0 == 0
  {
  }

  lemma WrittenIsEmitted(s: seq<bv8>, p: nat, us: seq<bv16>)
    requires Written(s, p, us, false)
    ensures |us| == |Emitted(s)| && Emitted(s)[..|us| - 1] == us[..|us| - 1]
    ensures |us| < 255 ==> Emitted(s) == us
  {
    var d := Decode(s, 0);
    if |us| == 255 {
      assert d[..254] == us[..254];
    }
  }

  /** The buffer with these units at `start`, else unchanged. */
  ghost predicate Laid(before: seq<bv8>, after: seq<bv8>, start: int, us: seq<bv16>) {
    if us == [] then after == before
    else
      && 0 <= start && start + 2 * |us| <= |before|
      && after == before[..start] + UnitBytes(us) + before[start + 2 * |us|..]
  }

  method PutUnit(buffer: array<bv8>, i: nat, unit: bv16)
    requires i + 2 <= buffer.Length
    modifies buffer
    ensures buffer[..] == old(buffer[..])[..i] + Le16(unit) + old(buffer[..])[i + 2..]
  {
    buffer[i], buffer[i + 1] := (unit & 0xFF) as bv8, ((unit >> 8) & 0xFF) as bv8;
  }

  lemma LaidOneMore(before: seq<bv8>, now: seq<bv8>, after: seq<bv8>, start: int, us: seq<bv16>, u: bv16)
    requires Laid(before, now, start, us) && 0 <= start && start + 2 * |us| + 2 <= |before|
    requires var i := start + 2 * |us|; after == now[..i] + Le16(u) + now[i + 2..]
    ensures Laid(before, after, start, us + [u])
  {
    hide UnitBytes, Le16;
    UnitBytesAppend(us, u);
    if us == [] {
      UnitBytesOfNothing();
    }
  }

  lemma UnitBytesOfNothing()
    ensures UnitBytes([]) == []
  {
  }

  lemma LaidLast(before: seq<bv8>, now: seq<bv8>, after: seq<bv8>, start: int, us: seq<bv16>)
    requires Laid(before, now, start, us) && |us| == 255 && 0 <= start && start + 510 <= |now|
    requires after == now[..start + 508] + Le16(0) + now[start + 510..]
    ensures Laid(before, after, start, us[..254] + [0])
  {
    hide UnitBytes, Le16;
    assert us == us[..254] + [us[254]];
    UnitBytesAppend(us[..254], us[254]);
    UnitBytesAppend(us[..254], 0);
  }

  lemma LaidIsAppended(before: seq<bv8>, after: seq<bv8>, start: int, maxsize: int, us: seq<bv16>)
    requires Laid(before, after, start, us) && us != [] && start + 2 * |us| < maxsize <= |before|
    ensures Appended(before, after, start, maxsize, UnitBytes(us), start + 2 * |us|)
  {
    hide UnitBytes;
  }

  /** Stopped short: the units that would follow do not fit. */
  lemma TooLong(before: seq<bv8>, now: seq<bv8>, start: int, maxsize: int, s: seq<bv8>, p: nat, us: seq<bv16>)
    requires Laid(before, now, start, us) && Written(s, p, us, true) && 0 <= start && maxsize <= |before|
    requires start + 2 * |us| + 2 >= maxsize && (|us| > 0 ==> start + 2 * |us| < maxsize)
    ensures Appended(before, now, start, maxsize, UnitBytes(Emitted(s)), -1)
  {
    hide UnitBytes, Decode;
    assert |Emitted(s)| >= |us| + 1;
  }

  lemma WrittenCut(s: seq<bv8>, p: nat, us: seq<bv16>)
    requires Written(s, p, us, false)
    ensures |us| > 0 && Emitted(s) == (if |us| == 255 then us[..254] + [0] else us)
  {
    hide Decode;
    WrittenIsEmitted(s, p, us);
    if |us| == 255 {
      assert Emitted(s) == Emitted(s)[..254] + [0];
    }
  }

  /** The conversion loop: decodes and writes units until the text, or the room for 255, ends. */
  method ConvertUnits(buffer: array<bv8>, index: int, maxsize: int, str: seq<bv8>)
    returns (len: int, ghost p: nat, ghost us: seq<bv16>)
    requires 0 <= index && maxsize <= buffer.Length
    modifies buffer
    ensures len < 0 ==> Appended(old(buffer[..]), buffer[..], index, maxsize, UnitBytes(Emitted(str)), -1)
    ensures len >= 0 ==>
      && len == |us| > 0 && Written(str, p, us, false) && index + 2 * |us| < maxsize
      && Laid(old(buffer[..]), buffer[..], index, us)
  {
    hide Decode, Emitted, UnitBytes, Utf2Unicode, Written, Laid, Le16, Appended;
    p, us, len := 0, [], 0;
    var i, more := index, true;
    var at: nat := 0;
    WrittenBegins(str);
    ghost var before := buffer[..];
    LaidNothing(before, index);
    while more
      invariant i == index + 2 * len && 0 <= len == |us| <= 255 && p == at
      invariant Written(str, p, us, more)
      invariant len > 0 ==> i < maxsize
      invariant more || len > 0
      invariant Laid(before, buffer[..], index, us)
      decreases more, 255 - len
    {
      var unit, ofs := DecodeAt(str, at);
      WrittenShort(str, p, us);
      if i + 2 >= maxsize {
        TooLong(before, buffer[..], index, maxsize, str, p, us);
        return -1, p, us;
      }
      WrittenStep(str, p, us);
      at := at + ofs;
      p := at;
      ghost var now := buffer[..];
      PutUnit(buffer, i, unit);
      LaidOneMore(before, now, buffer[..], index, us, unit);
      i := i + 2;
      us := us + [unit];
      len := len + 1;
      more := unit != 0 && ofs != 0 && len < 255;
    }
  }

  lemma LaidNothing(before: seq<bv8>, start: int)
    ensures Laid(before, before, start, [])
  {
  }

  lemma WrittenShort(s: seq<bv8>, p: nat, us: seq<bv16>)
    requires Written(s, p, us, true)
    ensures |us| < 255
  {
  }

  /** Decodes the string into units at `index`; returns how many, or -1 when they do not fit. A
      text of 255 units and more is cut: its last unit becomes the terminating 0. */
  method Char2UnicodeString(buffer: array<bv8>, index: int, maxsize: int, str: seq<bv8>) returns (len: int)
    requires 0 <= index && maxsize <= buffer.Length
    modifies buffer
    ensures len >= 0 ==> len == |Emitted(str)|
    ensures Appended(old(buffer[..]), buffer[..], index, maxsize, UnitBytes(Emitted(str)),
                     if len < 0 then -1 else index + 2 * len)
  {
    hide Decode, Emitted, UnitBytes, Utf2Unicode, Written, Laid, Le16, Appended;
    ghost var p, us, before := 0, [], buffer[..];
    len, p, us := ConvertUnits(buffer, index, maxsize, str);
    if len < 0 {
      return -1;
    }
    WrittenCut(str, p, us);
    if len >= 255 {
      LaidRoom(before, buffer[..], index, us);
      ghost var now := buffer[..];
      PutUnit(buffer, index + 508, 0);
      LaidLast(before, now, buffer[..], index, us);
    }
    LaidIsAppended(before, buffer[..], index, maxsize, Emitted(str));
  }

  lemma LaidRoom(before: seq<bv8>, after: seq<bv8>, start: int, us: seq<bv16>)
    requires Laid(before, after, start, us)
    ensures us != [] ==> |after| == |before| && start + 2 * |us| <= |before|
  {
  }

  /** The count as a byte. */
  function CountByte(n: nat): bv8
    requires n <= 255
  {
    if n == 0 then 0 else CountByte(n - 1) + 1
  }

  lemma NextByte(x: bv8)
    requires x as int != 255
    ensures (x + 1) as int == x as int + 1
  {
    assert x != 255;
  }

  lemma CountByteUnfolds(n: nat)
    requires n <= 255
    ensures n == 0 ==> CountByte(n) as int == 0
    ensures n > 0 ==> CountByte(n) == CountByte(n - 1) + 1
  {
  }

  lemma {:induction false} CountByteReads(n: nat)
    requires n <= 255
    ensures CountByte(n) as int == n
  {
    hide CountByte;
    CountByteUnfolds(n);
    if n > 0 {
      CountByteReads(n - 1);
      NextByte(CountByte(n - 1));
    }
  }

  /** An MTP string: the number of units with the terminating 0, then the units; an empty string
      is a lone 0. */
  function StringBytes(s: seq<bv8>): seq<bv8> {
    if At(s, 0) == 0 then [0] else [CountByte(|Emitted(s)|)] + UnitBytes(Emitted(s))
  }

  method PokeString(buffer: array<bv8>, index: int, maxsize: int, str: seq<bv8>) returns (r: int)
    requires maxsize <= buffer.Length
    modifies buffer
    ensures Appended(old(buffer[..]), buffer[..], index, maxsize, StringBytes(str), r)
  {
    hide CountByte, Emitted, UnitBytes;
    if index < 0 {
      return index;
    }
    if index + 1 >= maxsize {
      return -1;
    }
    ghost var before := buffer[..];
    buffer[index] := 0;
    ghost var marked := buffer[..];
    if At(str, 0) == 0 {
      assert marked == before[..index] + [0] + before[index + 1..];
      return index + 1;
    }
    var len := Char2UnicodeString(buffer, index + 1, maxsize, str);
    if len < 0 {
      return -1;
    }
    ghost var filled := buffer[..];
    buffer[index] := CountByte(len);
    r := index + 1 + 2 * len;
    assert filled == marked[..index + 1] + UnitBytes(Emitted(str)) + marked[r..];
    assert buffer[..] == before[..index] + ([CountByte(len)] + UnitBytes(Emitted(str))) + before[r..];
  }
}
