// The ObjectInfo and event datasets (section 5.3.1 and appendix G of the MTP 1.1 specification)
// as the responder writes them, and the reader of an incoming ObjectInfo.
module MtpDatasets {
  import opened Utf
  import opened Usbstring
  import opened MtpHelpers
  import opened Wrappers

  const FORMAT_UNDEFINED: bv16 := 0x3000
  const FORMAT_ASSOCIATION: bv16 := 0x3001
  const GENERIC_FOLDER: bv16 := 0x0001
  const CONTAINER_TYPE_EVENT: bv16 := 4

  /** What the datasets show of an object's record, and the size that the record holds. */
  datatype Object = Object(storageId: bv32, parent: bv32, isDir: bool, name: seq<bv8>, size: bv64)

  /** What the file system says of it: its size and its date in text form. */
  datatype Stat = Stat(size: bv64, date: seq<bv8>)

  function Format(o: Object): bv16 {
    if o.isDir then FORMAT_ASSOCIATION else FORMAT_UNDEFINED
  }

  function Saturated(size: bv64): bv32 {
    if size >= 0x1_0000_0000 then 0xFFFF_FFFF else (size & 0xFFFF_FFFF) as bv32
  }

  /** The record takes over the size that the file system says. */
  function Refreshed(o: Object, stat: Option<Stat>): Object {
    if stat.Some? then o.(size := stat.value.size) else o
  }

  /** The first 52 bytes: everything before the file name. */
  function InfoHead(o: Object, st: Stat): seq<bv8> {
    Le32(o.storageId) + Le16(Format(o)) + Le16(0) + Le32(Saturated(st.size)) + Le16(0) + Le32(0) + Le32(0) + Le32(0)
    + Le32(0) + Le32(0) + Le32(0) + Le32(o.parent) + Le16(if o.isDir then GENERIC_FOLDER else 0) + Le32(0) + Le32(0)
  }

  function InfoBytes(o: Object, st: Stat): seq<bv8> {
    InfoHead(o, st) + StringBytes(o.name) + StringBytes(st.date) + StringBytes(st.date) + [0]
  }

  // --- Writing with a memory of what has been written since s0 ---

  method Put16(buffer: array<bv8>, ofs: int, maxsize: int, data: bv16, ghost s0: seq<bv8>, ghost done: seq<bv8>)
    returns (r: int, ghost now: seq<bv8>)
    requires Appended(s0, buffer[..], 0, maxsize, done, ofs) && maxsize <= buffer.Length
    modifies buffer
    ensures now == done + Le16(data) && Appended(s0, buffer[..], 0, maxsize, now, r)
  {
    hide Appended, Le16;
    ghost var s1 := buffer[..];
    r := Poke16(buffer, ofs, maxsize, data);
    now := done + Le16(data);
    AppendedTwice(s0, s1, buffer[..], 0, maxsize, done, ofs, Le16(data), r);
  }

  method Put32(buffer: array<bv8>, ofs: int, maxsize: int, data: bv32, ghost s0: seq<bv8>, ghost done: seq<bv8>)
    returns (r: int, ghost now: seq<bv8>)
    requires Appended(s0, buffer[..], 0, maxsize, done, ofs) && maxsize <= buffer.Length
    modifies buffer
    ensures now == done + Le32(data) && Appended(s0, buffer[..], 0, maxsize, now, r)
  {
    hide Appended, Le32;
    ghost var s1 := buffer[..];
    r := Poke32(buffer, ofs, maxsize, data);
    now := done + Le32(data);
    AppendedTwice(s0, s1, buffer[..], 0, maxsize, done, ofs, Le32(data), r);
  }

  method PutString(buffer: array<bv8>, ofs: int, maxsize: int, str: seq<bv8>, ghost s0: seq<bv8>, ghost done: seq<bv8>)
    returns (r: int, ghost now: seq<bv8>)
    requires Appended(s0, buffer[..], 0, maxsize, done, ofs) && maxsize <= buffer.Length
    modifies buffer
    ensures now == done + StringBytes(str) && Appended(s0, buffer[..], 0, maxsize, now, r)
  {
    hide Appended, StringBytes;
    ghost var s1 := buffer[..];
    r := PokeString(buffer, ofs, maxsize, str);
    now := done + StringBytes(str);
    AppendedTwice(s0, s1, buffer[..], 0, maxsize, done, ofs, StringBytes(str), r);
  }

  /** Writes the dataset at the start of the buffer; 0 when the object cannot be found any more. `o` is the record afterwards. */
  method BuildObjectInfoDataset(buffer: array<bv8>, maxsize: int, entry: Object, stat: Option<Stat>) returns (ofs: int, o: Object)
    requires maxsize <= buffer.Length
    modifies buffer
    ensures stat.None? ==> ofs == 0 && buffer[..] == old(buffer[..])
    ensures stat.Some? ==> Appended(old(buffer[..]), buffer[..], 0, maxsize, InfoBytes(entry, stat.value), ofs)
    ensures o == Refreshed(entry, stat)
  {
    hide Appended, Le16, Le32, StringBytes;
    if stat.None? {
      return 0, entry;
    }
    var st := stat.value;
    ghost var s0 := buffer[..];
    ghost var done;
    o := entry;
    ofs := Poke32(buffer, 0, maxsize, o.storageId);
    done := Le32(o.storageId);
    ofs, done := Put16(buffer, ofs, maxsize, Format(o), s0, done);
    ofs, done := Put16(buffer, ofs, maxsize, 0, s0, done);
    o := o.(size := st.size);
    ofs, done := Put32(buffer, ofs, maxsize, Saturated(o.size), s0, done);
    ofs, done := Put16(buffer, ofs, maxsize, 0, s0, done);
    ofs, done := Put32(buffer, ofs, maxsize, 0, s0, done);
    ofs, done := Put32(buffer, ofs, maxsize, 0, s0, done);
    ofs, done := Put32(buffer, ofs, maxsize, 0, s0, done);
    ofs, done := Put32(buffer, ofs, maxsize, 0, s0, done);
    ofs, done := Put32(buffer, ofs, maxsize, 0, s0, done);
    ofs, done := Put32(buffer, ofs, maxsize, 0, s0, done);
    ofs, done := Put32(buffer, ofs, maxsize, o.parent, s0, done);
    ofs, done := Put16(buffer, ofs, maxsize, if o.isDir then GENERIC_FOLDER else 0, s0, done);
    ofs, done := Put32(buffer, ofs, maxsize, 0, s0, done);
    ofs, done := Put32(buffer, ofs, maxsize, 0, s0, done);
    ofs, done := PutString(buffer, ofs, maxsize, o.name, s0, done);
    ofs, done := PutString(buffer, ofs, maxsize, st.date, s0, done);
    ofs, done := PutString(buffer, ofs, maxsize, st.date, s0, done);
    ghost var s1, before := buffer[..], ofs;
    ofs := Poke08(buffer, ofs, maxsize, 0);
    AppendedTwice(s0, s1, buffer[..], 0, maxsize, done, before, [0], ofs);
  }

  // --- Reading an incoming ObjectInfo ---

  const FORMAT_OFFSET: nat := 0x04
  const SIZE_OFFSET: nat := 0x08
  const NAME_OFFSET: nat := 0x34
  const NAME_BUFFER: nat := 257

  /** A receive buffer is long enough for the longest file name. */
  predicate Readable(d: seq<bv8>) {
    |d| >= NAME_OFFSET + 1 + 2 * 255
  }

  function UnitOf(b: seq<bv8>): bv16 {
    (FromLe(b) & 0xFFFF) as bv16
  }

  function UnitsIn(d: seq<bv8>, p: nat, n: nat): (us: seq<bv16>)
    requires p + 2 * n <= |d|
    ensures |us| == n
  {
    if n == 0 then [] else UnitsIn(d, p, n - 1) + [UnitOf(d[p + 2 * (n - 1)..p + 2 * n])]
  }

  function NameLength(d: seq<bv8>): (n: nat)
    requires Readable(d)
    ensures n <= 255
  {
    d[NAME_OFFSET] as int
  }

  function NameIn(d: seq<bv8>): seq<bv8>
    requires Readable(d)
  {
    Fitted(UnitsIn(d, NAME_OFFSET + 1, NameLength(d)), NAME_BUFFER)
  }

  method ParseObjectInfo(d: seq<bv8>) returns (format: bv32, size: bv32, name: seq<bv8>)
    requires Readable(d)
    ensures format == FromLe(d[4..6]) && size == FromLe(d[8..12])
    ensures name == NameIn(d)
  {
    hide FromLe, Fitted, UnitOf;
    format := Peek(d, FORMAT_OFFSET, 2);
    size := Peek(d, SIZE_OFFSET, 4);
    var length := d[NAME_OFFSET] as int;
    var units: seq<bv16> := [];
    var i := 0;
    while i < length
      invariant 0 <= i <= length == NameLength(d) && units == UnitsIn(d, NAME_OFFSET + 1, i)
    {
      var raw := Peek(d, NAME_OFFSET + 1 + i * 2, 2);
      UnitIsRead(d[NAME_OFFSET + 1 + i * 2..NAME_OFFSET + 1 + i * 2 + 2], raw);
      units := units + [Truncate16(raw)];
      i := i + 1;
    }
    var str := new bv8[NAME_BUFFER];
    var cut := Unicode2CharString(str, units, NAME_BUFFER);
    name := [];
    var k := 0;
    ghost var f := Fitted(units, NAME_BUFFER);
    FittedHasNoNul(units, NAME_BUFFER);
    while str[k] != 0
      invariant 0 <= k <= |f| && name == f[..k] && str[..|f|] == f && str[|f|] == 0
      decreases |f| - k
    {
      assert str[k] == str[..|f| + 1][k];
      name := name + [str[k]];
      k := k + 1;
    }
    assert k == |f|;
  }

  function Truncate16(x: bv32): bv16 {
    (x & 0xFFFF) as bv16
  }

  lemma UnitIsRead(b: seq<bv8>, raw: bv32)
    requires raw == FromLe(b)
    ensures Truncate16(raw) == UnitOf(b)
  {
  }

  lemma EncodedByteNotZero(u: bv16)
    requires u != 0
    ensures 0 !in Utf8Encode(u as bv32)
  {
  }

  lemma {:induction false} EncodeHasNoNul(us: seq<bv16>)
    requires NonZero(us)
    ensures 0 !in Encode(us)
  {
    hide Utf8Encode;
    if us != [] {
      EncodedByteNotZero(us[0]);
      EncodeHasNoNul(us[1..]);
    }
  }

  lemma FittedHasNoNul(us: seq<bv16>, maxstrsize: int)
    ensures 0 !in Fitted(us, maxstrsize)
    ensures forall k :: 0 <= k < |Fitted(us, maxstrsize)| ==> Fitted(us, maxstrsize)[k] != 0
  {
    EncodeHasNoNul(Text(us)[..FitCount(Text(us), maxstrsize)]);
  }

  // --- The round trip ---

  lemma UnitOfLe16(u: bv16)
    ensures UnitOf(Le16(u)) == u
  {
    FromLeOfLe16(u);
    Widened(u);
  }

  lemma Widened(u: bv16)
    ensures Truncate16(u as bv32) == u
  {
  }

  lemma {:induction false} UnitsInBytes(d: seq<bv8>, p: nat, us: seq<bv16>)
    requires p + 2 * |us| <= |d| && d[p..p + 2 * |us|] == UnitBytes(us)
    ensures UnitsIn(d, p, |us|) == us
  {
    hide UnitOf, Le16;
    if us != [] {
      var n := |us| - 1;
      var init := us[..n];
      assert us == init + [us[n]];
      UnitBytesAppend(init, us[n]);
      assert d[p..p + 2 * n] == d[p..p + 2 * |us|][..2 * n];
      UnitsInBytes(d, p, init);
      assert d[p + 2 * n..p + 2 * |us|] == d[p..p + 2 * |us|][2 * n..];
      UnitOfLe16(us[n]);
    }
  }

  lemma TextOfEmitted(s: seq<bv8>)
    ensures var e := Emitted(s); Text(e) == e[..|e| - 1]
  {
    hide Emitted;
    var e := Emitted(s);
    assert e == e[..|e| - 1] + [0];
    TextOfNonZero(e[..|e| - 1]);
  }

  /** The units that the reader sees: none for an empty name, else the emitted text. */
  function Wire(name: seq<bv8>): seq<bv16> {
    if At(name, 0) == 0 then [] else Emitted(name)
  }

  /** A string in a dataset reads back as its units, from its count on. */
  lemma StringReadBack(d: seq<bv8>, p: nat, str: seq<bv8>)
    requires p + |StringBytes(str)| <= |d| && d[p..p + |StringBytes(str)|] == StringBytes(str)
    ensures p < |d| && d[p] as int == |Wire(str)| && |StringBytes(str)| == 1 + 2 * |Wire(str)|
    ensures UnitsIn(d, p + 1, |Wire(str)|) == Wire(str)
  {
    hide Emitted, UnitBytes, CountByte, UnitOf;
    var b := StringBytes(str);
    assert d[p] == d[p..p + |b|][0] == b[0];
    if At(str, 0) == 0 {
      assert b[0] == 0;
      ZeroByte(d[p]);
    } else {
      var e := Emitted(str);
      CountByteReads(|e|);
      assert d[p + 1..p + |b|] == d[p..p + |b|][1..] == b[1..] == UnitBytes(e);
      UnitsInBytes(d, p + 1, e);
    }
  }

  lemma NameReadBack(d: seq<bv8>, name: seq<bv8>)
    requires Readable(d) && NAME_OFFSET + |StringBytes(name)| <= |d|
    requires d[NAME_OFFSET..NAME_OFFSET + |StringBytes(name)|] == StringBytes(name)
    ensures NameIn(d) == Fitted(Wire(name), NAME_BUFFER)
  {
    hide Fitted, StringBytes, UnitsIn, Wire;
    StringReadBack(d, NAME_OFFSET, name);
  }

  /** The string with these units stands at p and ends at q. */
  predicate StringStands(d: seq<bv8>, p: nat, us: seq<bv16>, q: nat) {
    p < q <= |d| && d[p] as int == |us| && q == p + 1 + 2 * |us| && UnitsIn(d, p + 1, |us|) == us
  }

  /** The name, the date of creation and that of modification, the same one, follow each other as strings; then comes an empty
      string of keywords, and there the dataset ends. */
  lemma DatesFollow(o: Object, st: Stat, after: seq<bv8>) returns (p: nat, q: nat, r: nat)
    ensures var d := InfoBytes(o, st) + after;
      && StringStands(d, 52, Wire(o.name), p) && StringStands(d, p, Wire(st.date), q) && StringStands(d, q, Wire(st.date), r)
      && r < |d| && d[r] == 0 && |d| == r + 1 + |after|
  {
    hide StringBytes, Wire, InfoHead, StringStands;
    var d, h := InfoBytes(o, st) + after, InfoHead(o, st);
    HeadFields(o, st);
    var n, t := StringBytes(o.name), StringBytes(st.date);
    TailParts(d, h, n, t, after);
    hide InfoBytes;
    p, q, r := 52 + |n|, 52 + |n| + |t|, 52 + |n| + 2 * |t|;
    StringStandsThere(d, 52, o.name, p);
    StringStandsThere(d, p, st.date, q);
    StringStandsThere(d, q, st.date, r);
  }

  lemma StringStandsThere(d: seq<bv8>, p: nat, str: seq<bv8>, q: nat)
    requires q == p + |StringBytes(str)| <= |d| && d[p..q] == StringBytes(str)
    ensures StringStands(d, p, Wire(str), q)
  {
    hide StringBytes, Wire, UnitsIn;
    StringReadBack(d, p, str);
  }

  lemma TailParts(d: seq<bv8>, h: seq<bv8>, n: seq<bv8>, t: seq<bv8>, after: seq<bv8>)
    requires |h| == 52 && d == h + n + t + t + [0] + after
    ensures |d| == 53 + |n| + 2 * |t| + |after| && d[52 + |n| + 2 * |t|] == 0
    ensures d[52..52 + |n|] == n && d[52 + |n|..52 + |n| + |t|] == t && d[52 + |n| + |t|..52 + |n| + 2 * |t|] == t
  {
  }

  lemma ZeroByte(x: bv8)
    requires x == 0
    ensures x as int == 0
  {
  }

  /** A name the wire format carries: at most 254 units, in at most 256 bytes of UTF-8. */
  ghost predicate Carried(name: seq<bv8>, us: seq<bv16>) {
    NonZero(us) && |us| <= 254 && name == Encode(us) && |name| < 257
  }

  lemma CarriedSurvives(name: seq<bv8>, us: seq<bv16>)
    requires Carried(name, us)
    ensures Fitted(Wire(name), NAME_BUFFER) == name
  {
    DecodeEncoded([], us);
    assert [] + Encode(us) == Encode(us);
    if us == [] {
      assert Text([]) == [];
    } else {
      EncodeHasNoNul(us);
      assert |Utf8Encode(us[0] as bv32)| >= 1;
      assert name[0] != 0;
      TextOfNonZero(us);
      assert Emitted(name) == us + [0];
    }
    assert us[..|us|] == us;
    FitIs(us, |us|, NAME_BUFFER);
  }

  lemma SurvivorIsCarried(name: seq<bv8>) returns (us: seq<bv16>)
    requires Fitted(Wire(name), NAME_BUFFER) == name
    ensures Carried(name, us)
  {
    var w := Wire(name);
    us := Text(w)[..FitCount(Text(w), NAME_BUFFER)];
    if w != [] {
      TextOfEmitted(name);
    }
  }

  /** What is read back from the dataset of an object: its format, 0x3001 for a directory, its size as far as 32 bits show it, and
      its name exactly when the wire format can carry that name. Beside these stand the storage, the parent and whether it is a
      folder; the other words are 0. */
  lemma ObjectInfoRoundTrip(o: Object, st: Stat, after: seq<bv8>)
    requires Readable(InfoBytes(o, st) + after)
    ensures var d := InfoBytes(o, st) + after;
      && FromLe(d[0..4]) == o.storageId && FromLe(d[4..6]) == (if o.isDir then 0x3001 else 0x3000)
      && Wide(FromLe(d[8..12])) == (if st.size > 0xFFFF_FFFF then 0xFFFF_FFFF else st.size)
      && FromLe(d[38..42]) == o.parent && FromLe(d[42..44]) == (if o.isDir then 1 else 0)
      && (forall i :: 6 <= i < 8 || 12 <= i < 38 || 44 <= i < 52 ==> d[i] == 0)
      && (NameIn(d) == o.name <==> exists us :: Carried(o.name, us))
  {
    hide Fitted, Wire, NameIn, FromLe, Le16, Le32, StringBytes, Saturated, InfoHead, Wide;
    var d := InfoBytes(o, st) + after;
    HeadFields(o, st);
    HeadZeros(o, st);
    var h, b := InfoHead(o, st), StringBytes(o.name);
    assert d[..52] == h && d[52..52 + |b|] == b;
    HeadRead(d, o, st);
    NameReadBack(d, o.name);
    if NameIn(d) == o.name {
      var us := SurvivorIsCarried(o.name);
    }
    if us :| Carried(o.name, us) {
      CarriedSurvives(o.name, us);
    }
  }

  /** No byte leads a character of four bytes or more. */
  predicate ShortCharacters(s: seq<bv8>) {
    forall i :: 0 <= i < |s| ==> s[i] < 0xF0
  }

  lemma UnitIsShort(u: bv16)
    ensures ShortCharacters(Utf8Encode(u as bv32))
  {
    var w := u as bv32;
    assert w <= 0xFFFF;
    assert (w & 0x3F) | 0x80 < 0xF0 && ((w >> 6) & 0x3F) | 0x80 < 0xF0;
    assert ((w >> 6) & 0x1F) | 0xC0 < 0xF0 && ((w >> 12) & 0x0F) | 0xE0 < 0xF0;
  }

  /** Sixteen-bit units are encoded in at most three bytes each. */
  lemma {:induction false} UnitsAreShort(us: seq<bv16>)
    ensures ShortCharacters(Encode(us))
  {
    hide Utf8Encode;
    if us != [] {
      UnitIsShort(us[0]);
      UnitsAreShort(us[1..]);
    }
  }

  /** A name with a character of four bytes, such as an emoji, never comes back as it was. */
  lemma LongCharacterIsLost(o: Object, st: Stat, after: seq<bv8>, k: nat)
    requires Readable(InfoBytes(o, st) + after)
    requires k < |o.name| && o.name[k] >= 0xF0
    ensures NameIn(InfoBytes(o, st) + after) != o.name
  {
    ObjectInfoRoundTrip(o, st, after);
    hide Encode, NameIn, InfoBytes, Readable;
    forall us: seq<bv16>
      ensures !Carried(o.name, us)
    {
      UnitsAreShort(us);
    }
  }

  function Wide(x: bv32): bv64 {
    x as bv64
  }

  lemma SaturatedIs(size: bv64)
    ensures Wide(Saturated(size)) == if size > 0xFFFF_FFFF then 0xFFFF_FFFF else size
  {
  }

  lemma WidenedIs(x: bv16)
    requires FromLe(Le16(x)) == x as bv32
    ensures x == 0x3001 ==> FromLe(Le16(x)) == 0x3001
    ensures x == 0x3000 ==> FromLe(Le16(x)) == 0x3000
    ensures x == 1 ==> FromLe(Le16(x)) == 1
    ensures x == 0 ==> FromLe(Le16(x)) == 0
  {
    hide FromLe, Le16;
  }

  lemma KindReads(o: Object)
    ensures FromLe(Le16(Format(o))) == if o.isDir then 0x3001 else 0x3000
    ensures FromLe(Le16(if o.isDir then GENERIC_FOLDER else 0)) == if o.isDir then 1 else 0
  {
    FromLeOfLe16(Format(o));
    WidenedIs(Format(o));
    var kind: bv16 := if o.isDir then GENERIC_FOLDER else 0;
    FromLeOfLe16(kind);
    WidenedIs(kind);
    hide FromLe, Le16;
  }

  lemma SizeReads(size: bv64)
    ensures Wide(FromLe(Le32(Saturated(size)))) == if size > 0xFFFF_FFFF then 0xFFFF_FFFF else size
  {
    hide FromLe, Le32;
    FromLeOfLe32(Saturated(size));
    SaturatedIs(size);
  }

  lemma Front(d: seq<bv8>, h: seq<bv8>, i: nat, j: nat)
    requires |h| <= |d| && d[..|h|] == h && i <= j <= |h|
    ensures d[i..j] == h[i..j]
    ensures forall k :: 0 <= k < |h| ==> d[k] == h[k]
  {
    forall k | 0 <= k < |h|
      ensures d[k] == h[k]
    {
      assert d[k] == d[..|h|][k];
    }
    assert d[i..j] == h[i..j];
  }

  /** The fields of the fixed part, read from any dataset that starts with it. */
  lemma HeadRead(d: seq<bv8>, o: Object, st: Stat)
    requires |d| >= 52 && d[..52] == InfoHead(o, st)
    ensures FromLe(d[0..4]) == o.storageId && FromLe(d[4..6]) == (if o.isDir then 0x3001 else 0x3000)
    ensures Wide(FromLe(d[8..12])) == if st.size > 0xFFFF_FFFF then 0xFFFF_FFFF else st.size
    ensures FromLe(d[38..42]) == o.parent && FromLe(d[42..44]) == (if o.isDir then 1 else 0)
    ensures forall i :: 6 <= i < 8 || 12 <= i < 38 || 44 <= i < 52 ==> d[i] == 0
  {
    hide FromLe, Le16, Le32, Saturated, InfoHead, Wide, Format;
    HeadFields(o, st);
    HeadZeros(o, st);
    var h := InfoHead(o, st);
    Front(d, h, 0, 4);
    Front(d, h, 4, 6);
    Front(d, h, 8, 12);
    Front(d, h, 38, 42);
    Front(d, h, 42, 44);
    FromLeOfLe32(o.storageId);
    FromLeOfLe32(o.parent);
    SizeReads(st.size);
    KindReads(o);
  }

  lemma HeadFields(o: Object, st: Stat)
    ensures var h := InfoHead(o, st);
      && |h| == 52 && h[0..4] == Le32(o.storageId) && h[4..6] == Le16(Format(o)) && h[8..12] == Le32(Saturated(st.size))
      && h[38..42] == Le32(o.parent) && h[42..44] == Le16(if o.isDir then GENERIC_FOLDER else 0)
  {
    hide Format, Saturated, Le16, Le32;
    var h := InfoHead(o, st);
    var a := Le32(o.storageId) + Le16(Format(o)) + Le16(0) + Le32(Saturated(st.size));
    forall i | 0 <= i < 12
      ensures h[i] == a[i]
    {
    }
    assert h[0..4] == a[0..4] && h[4..6] == a[4..6] && h[8..12] == a[8..12];
  }

  lemma HeadZeros(o: Object, st: Stat)
    ensures var h := InfoHead(o, st);
      |h| == 52 && forall i :: 6 <= i < 8 || 12 <= i < 38 || 44 <= i < 52 ==> h[i] == 0
  {
    hide Format, Saturated;
  }

  // --- Events ---

  function ParamBytes(params: seq<bv32>): seq<bv8> {
    if params == [] then [] else ParamBytes(params[..|params| - 1]) + Le32(params[|params| - 1])
  }

  /** Everything behind the size field. */
  function EventBody(event: bv16, session: bv32, params: seq<bv32>): seq<bv8> {
    Le16(CONTAINER_TYPE_EVENT) + Le16(event) + Le32(session) + ParamBytes(params)
  }

  /** What is read back from an event: the container type 4, the event, the session, and every parameter. */
  lemma EventReadsBack(size: bv32, event: bv16, session: bv32, params: seq<bv32>, k: nat)
    requires k < |params|
    ensures var d := Le32(size) + EventBody(event, session, params);
      && |d| == 12 + 4 * |params| && FromLe(d[0..4]) == size && UnitOf(d[4..6]) == 4 && UnitOf(d[6..8]) == event
      && FromLe(d[8..12]) == session && FromLe(d[12 + 4 * k..12 + 4 * k + 4]) == params[k]
  {
    hide Le16, Le32, FromLe, UnitOf, ParamBytes;
    var d, b := Le32(size) + EventBody(event, session, params), ParamBytes(params);
    ParamAt(params, k);
    assert d[0..4] == Le32(size) && d[4..6] == Le16(4) && d[6..8] == Le16(event) && d[8..12] == Le32(session);
    assert d[12..] == b && d[12 + 4 * k..12 + 4 * k + 4] == b[4 * k..4 * k + 4];
    FromLeOfLe32(size);
    FromLeOfLe32(session);
    FromLeOfLe32(params[k]);
    UnitOfLe16(4);
    UnitOfLe16(event);
  }

  lemma {:induction false} ParamAt(params: seq<bv32>, k: nat)
    requires k < |params|
    ensures |ParamBytes(params)| == 4 * |params| && ParamBytes(params)[4 * k..4 * k + 4] == Le32(params[k])
  {
    hide Le32;
    var n := |params| - 1;
    var b, c := ParamBytes(params), ParamBytes(params[..n]);
    ParamLength(params);
    ParamLength(params[..n]);
    assert b == c + Le32(params[n]);
    hide ParamBytes;
    if k < n {
      ParamAt(params[..n], k);
      assert params[..n][k] == params[k];
      assert b[4 * k..4 * k + 4] == c[4 * k..4 * k + 4];
    } else {
      assert b[|c|..|c| + 4] == Le32(params[n]);
    }
  }

  lemma {:induction false} ParamLength(params: seq<bv32>)
    ensures |ParamBytes(params)| == 4 * |params|
  {
    if params != [] {
      ParamLength(params[..|params| - 1]);
    }
  }

  function Count32(n: nat): bv32
    requires n < 0x1_0000_0000
  {
    n as bv32
  }

  /** Overwriting the first four bytes of what has been written. */
  lemma PatchHead(s0: seq<bv8>, s1: seq<bv8>, s2: seq<bv8>, maxsize: int, body: seq<bv8>, ofs: int, head: bv32, r: int)
    requires Appended(s0, s1, 0, maxsize, Le32(0) + body, ofs) && ofs >= 0
    requires Appended(s1, s2, 0, maxsize, Le32(head), r)
    ensures Appended(s0, s2, 0, maxsize, Le32(head) + body, ofs)
  {
    assert s1 == Le32(0) + body + s0[ofs..];
    assert s2 == Le32(head) + s1[4..];
    assert s1[4..] == body + s0[ofs..];
  }

  /** The size is written as 0 first and filled in once the parameters are known to fit. */
  method BuildEventDataset(buffer: array<bv8>, maxsize: int, event: bv16, session: bv32, params: seq<bv32>)
    returns (ofs: int)
    requires maxsize <= buffer.Length < 0x8000_0000
    modifies buffer
    ensures var body := EventBody(event, session, params);
      if 4 + |body| < maxsize then
        ofs == 4 + |body| && buffer[..] == Le32(Count32(ofs)) + body + old(buffer[..])[ofs..]
      else
        ofs == -1 && forall k :: 0 <= k < buffer.Length && k >= maxsize ==> buffer[k] == old(buffer[k])
  {
    hide Le16, Le32, Count32, Appended;
    ghost var s0 := buffer[..];
    ghost var done := Le32(0);
    ofs := Poke32(buffer, 0, maxsize, 0);
    ofs, done := Put16(buffer, ofs, maxsize, CONTAINER_TYPE_EVENT, s0, done);
    ofs, done := Put16(buffer, ofs, maxsize, event, s0, done);
    ofs, done := Put32(buffer, ofs, maxsize, session, s0, done);
    assert done == Le32(0) + EventBody(event, session, params[..0]);
    var i := 0;
    while i < |params|
      invariant 0 <= i <= |params|
      invariant Appended(s0, buffer[..], 0, maxsize, done, ofs)
      invariant done == Le32(0) + EventBody(event, session, params[..i])
    {
      assert params[..i + 1][..i] == params[..i];
      ofs, done := Put32(buffer, ofs, maxsize, params[i], s0, done);
      assert done == Le32(0) + EventBody(event, session, params[..i + 1]);
      i := i + 1;
    }
    assert params[..i] == params;
    ghost var s1, body := buffer[..], EventBody(event, session, params);
    Outcome(s0, s1, maxsize, Le32(0) + body, ofs);
    if ofs >= 0 {
      var r := Poke32(buffer, 0, maxsize, Count32(ofs));
      PatchHead(s0, s1, buffer[..], maxsize, body, ofs, Count32(ofs), r);
      Outcome(s0, buffer[..], maxsize, Le32(Count32(ofs)) + body, ofs);
    }
  }

  lemma Outcome(s0: seq<bv8>, s1: seq<bv8>, maxsize: int, bytes: seq<bv8>, ofs: int)
    requires Appended(s0, s1, 0, maxsize, bytes, ofs)
    ensures |bytes| < maxsize ==> ofs == |bytes| && s1 == bytes + s0[ofs..]
    ensures |bytes| >= maxsize ==> ofs == -1 && forall k :: 0 <= k < |s0| && k >= maxsize ==> s1[k] == s0[k]
    ensures |s1| == |s0|
  {
  }
}
