// The object property list: self-describing records of handle, property code, data type and
// value behind a count, all filtered by the property the initiator asked for.
module PropList {
  import opened Utf
  import opened Usbstring
  import opened MtpHelpers
  import opened MtpDatasets
  import opened Wrappers

  const TYPE_UINT16: bv16 := 0x0004
  const TYPE_UINT32: bv16 := 0x0006
  const TYPE_UINT64: bv16 := 0x0008
  const TYPE_UINT128: bv16 := 0x000A
  const TYPE_STR: bv16 := 0xFFFF

  const STORAGE_ID: bv16 := 0xDC01
  const OBJECT_FORMAT: bv16 := 0xDC02
  const PROTECTION_STATUS: bv16 := 0xDC03
  const OBJECT_SIZE: bv16 := 0xDC04
  const ASSOCIATION_TYPE: bv16 := 0xDC05
  const ASSOCIATION_DESC: bv16 := 0xDC06
  const OBJECT_FILE_NAME: bv16 := 0xDC07
  const DATE_CREATED: bv16 := 0xDC08
  const DATE_MODIFIED: bv16 := 0xDC09
  const PARENT_OBJECT: bv16 := 0xDC0B
  const HIDDEN: bv16 := 0xDC0D
  const PERSISTENT_UID: bv16 := 0xDC41
  const PROP_NAME: bv16 := 0xDC44
  const DISPLAY_NAME: bv16 := 0xDCE0

  const ALL_PROPERTIES: bv32 := 0xFFFF_FFFF

  datatype Property = Property(code: bv16, dataType: bv16)

  /** The property table, without the repetitions of a code for further formats. The association
      type has no row in it. */
  function Table(): seq<Property> {
    [Property(STORAGE_ID, TYPE_UINT32), Property(OBJECT_FORMAT, TYPE_UINT16), Property(OBJECT_SIZE, TYPE_UINT64),
    Property(PROTECTION_STATUS, TYPE_UINT16), Property(DISPLAY_NAME, TYPE_STR), Property(OBJECT_FILE_NAME, TYPE_STR),
    Property(DATE_CREATED, TYPE_STR), Property(DATE_MODIFIED, TYPE_STR), Property(PARENT_OBJECT, TYPE_UINT32),
    Property(PERSISTENT_UID, TYPE_UINT128), Property(PROP_NAME, TYPE_STR), Property(ASSOCIATION_DESC, TYPE_UINT32),
    Property(HIDDEN, TYPE_UINT16)]
  }

  predicate Listed(code: bv16) {
    exists i :: 0 <= i < |Table()| && Table()[i].code == code
  }

  function Low(x: bv64): bv32 {
    (x & 0xFFFF_FFFF) as bv32
  }

  function High(x: bv64): bv32 {
    (x >> 32) as bv32
  }

  function Plus(x: bv32, i: bv32): bv32 {
    x + i
  }

  datatype Value = U16(u16: bv16) | U32(u32: bv32) | U64(u64: bv64) | U128(first: bv32) | Str(text: seq<bv8>) {
    function DataType(): bv16 {
      match this
      case U16(_) => TYPE_UINT16
      case U32(_) => TYPE_UINT32
      case U64(_) => TYPE_UINT64
      case U128(_) => TYPE_UINT128
      case Str(_) => TYPE_STR
    }

    /** The bytes written. A 128-bit value is written as its first word and that word plus 1, 2
        and 3, as the program does it. */
    function Bytes(): seq<bv8> {
      match this
      case U16(x) => Le16(x)
      case U32(x) => Le32(x)
      case U64(x) => Le32(Low(x)) + Le32(High(x))
      case U128(x) => Le32(x) + Le32(Plus(x, 1)) + Le32(Plus(x, 2)) + Le32(Plus(x, 3))
      case Str(s) => StringBytes(s)
    }
  }

  datatype Element = Element(code: bv16, value: Value)

  /** The element's code decides its data type in the table; the value handed over fits it. */
  predicate Typed(e: Element) {
    forall i :: 0 <= i < |Table()| && Table()[i].code == e.code ==> Table()[i].dataType == e.value.DataType()
  }

  predicate AskedFor(code: bv16, filter: bv32) {
    code as bv32 == filter || filter == ALL_PROPERTIES
  }

  predicate Selected(e: Element, filter: bv32) {
    AskedFor(e.code, filter) && Listed(e.code)
  }

  function ElementBytes(handle: bv32, e: Element): seq<bv8> {
    Le32(handle) + Le16(e.code) + Le16(e.value.DataType()) + e.value.Bytes()
  }

  function ListBytes(handle: bv32, es: seq<Element>, filter: bv32): seq<bv8> {
    if es == [] then []
    else
      var last := es[|es| - 1];
      ListBytes(handle, es[..|es| - 1], filter) + if Selected(last, filter) then ElementBytes(handle, last) else []
  }

  function ListCount(es: seq<Element>, filter: bv32): (n: nat)
    ensures n <= |es|
  {
    if es == [] then 0
    else ListCount(es[..|es| - 1], filter) + if Selected(es[|es| - 1], filter) then 1 else 0
  }

  // --- Writing ---

  lemma JoinParts(done: seq<bv8>, a: seq<bv8>, b: seq<bv8>, c: seq<bv8>, d: seq<bv8>)
    ensures done + a + b + c + d == done + (a + b + c + d) && done + a + b == done + (a + b)
  {
    assert done + a + b == done + (a + b);
    assert done + (a + b) + c == done + (a + b + c);
    assert done + (a + b + c) + d == done + (a + b + c + d);
  }

  method PutValue(buffer: array<bv8>, ofs: int, maxsize: int, v: Value, ghost s0: seq<bv8>, ghost done: seq<bv8>)
    returns (r: int, ghost now: seq<bv8>)
    requires Appended(s0, buffer[..], 0, maxsize, done, ofs) && maxsize <= buffer.Length
    modifies buffer
    ensures now == done + v.Bytes() && Appended(s0, buffer[..], 0, maxsize, now, r)
  {
    hide Appended, Le16, Le32, StringBytes, Low, High, Plus, UnitBytes;
    match v {
      case Str(s) =>
        r, now := PutString(buffer, ofs, maxsize, s, s0, done);
      case U16(x) =>
        r, now := Put16(buffer, ofs, maxsize, x, s0, done);
      case U32(x) =>
        r, now := Put32(buffer, ofs, maxsize, x, s0, done);
      case U64(x) =>
        r, now := Put32(buffer, ofs, maxsize, Low(x), s0, done);
        r, now := Put32(buffer, r, maxsize, High(x), s0, now);
        JoinParts(done, Le32(Low(x)), Le32(High(x)), [], []);
      case U128(x) =>
        r, now := Put32(buffer, ofs, maxsize, x, s0, done);
        r, now := Put32(buffer, r, maxsize, Plus(x, 1), s0, now);
        r, now := Put32(buffer, r, maxsize, Plus(x, 2), s0, now);
        r, now := Put32(buffer, r, maxsize, Plus(x, 3), s0, now);
        JoinParts(done, Le32(x), Le32(Plus(x, 1)), Le32(Plus(x, 2)), Le32(Plus(x, 3)));
    }
  }

  /** Writes one element if it is asked for and the table knows it; says whether it did. */
  method ObjectPropListElement(buffer: array<bv8>, ofs: int, maxsize: int, e: Element, handle: bv32, filter: bv32,
                               ghost s0: seq<bv8>, ghost done: seq<bv8>)
    returns (r: int, n: nat, ghost now: seq<bv8>)
    requires Appended(s0, buffer[..], 0, maxsize, done, ofs) && maxsize <= buffer.Length && Typed(e)
    modifies buffer
    ensures n == if Selected(e, filter) then 1 else 0
    ensures now == (if Selected(e, filter) then done + ElementBytes(handle, e) else done)
    ensures Appended(s0, buffer[..], 0, maxsize, now, r)
  {
    hide Appended, Le16, Le32, Value.Bytes, AskedFor, Table;
    if !AskedFor(e.code, filter) {
      return ofs, 0, done;
    }
    var i := 0;
    while i < |Table()| && Table()[i].code != e.code
      invariant 0 <= i <= |Table()|
      invariant forall k :: 0 <= k < i ==> Table()[k].code != e.code
    {
      i := i + 1;
    }
    if i == |Table()| {
      assert !Listed(e.code);
      return ofs, 0, done;
    }
    r, now := Put32(buffer, ofs, maxsize, handle, s0, done);
    r, now := Put16(buffer, r, maxsize, Table()[i].code, s0, now);
    r, now := Put16(buffer, r, maxsize, Table()[i].dataType, s0, now);
    r, now := PutValue(buffer, r, maxsize, e.value, s0, now);
    assert now == done + ElementBytes(handle, e);
    n := 1;
  }

  /** The properties of an object in the order they are offered. */
  function Candidates(handle: bv32, o: Object, st: Stat): seq<Element> {
    [Element(STORAGE_ID, U32(o.storageId)), Element(OBJECT_FORMAT, U16(Format(o))),
     Element(ASSOCIATION_TYPE, U16(if o.isDir then GENERIC_FOLDER else 0)), Element(PARENT_OBJECT, U32(o.parent)),
     Element(OBJECT_SIZE, U64(st.size)), Element(PROTECTION_STATUS, U16(0)), Element(OBJECT_FILE_NAME, Str(o.name)),
     Element(PROP_NAME, Str(o.name)), Element(DISPLAY_NAME, Str([])), Element(DATE_CREATED, Str(st.date)),
     Element(DATE_MODIFIED, Str(st.date)), Element(PERSISTENT_UID, U128(handle))]
  }

  lemma ListStep(handle: bv32, es: seq<Element>, k: nat, filter: bv32)
    requires k < |es|
    ensures ListBytes(handle, es[..k + 1], filter)
      == ListBytes(handle, es[..k], filter) + if Selected(es[k], filter) then ElementBytes(handle, es[k]) else []
    ensures ListCount(es[..k + 1], filter) == ListCount(es[..k], filter) + if Selected(es[k], filter) then 1 else 0
  {
    hide Selected, ElementBytes;
    assert es[..k + 1][..k] == es[..k] && es[..k + 1][k] == es[k];
  }

  /** One more candidate, with the bytes and the count of all candidates so far. */
  method NextElement(buffer: array<bv8>, ofs: int, maxsize: int, es: seq<Element>, k: nat, handle: bv32, filter: bv32,
                     count: nat, ghost s0: seq<bv8>)
    returns (r: int, n: nat)
    requires k < |es| && Typed(es[k]) && maxsize <= buffer.Length
    requires Appended(s0, buffer[..], 0, maxsize, Le32(0) + ListBytes(handle, es[..k], filter), ofs)
    requires count == ListCount(es[..k], filter)
    modifies buffer
    ensures Appended(s0, buffer[..], 0, maxsize, Le32(0) + ListBytes(handle, es[..k + 1], filter), r)
    ensures n == ListCount(es[..k + 1], filter)
  {
    hide Appended, Le16, Le32, Selected, ElementBytes, ListBytes, ListCount, Typed;
    ghost var done, now := Le32(0) + ListBytes(handle, es[..k], filter), [];
    r, n, now := ObjectPropListElement(buffer, ofs, maxsize, es[k], handle, filter, s0, done);
    ListStep(handle, es, k, filter);
    assert now == Le32(0) + ListBytes(handle, es[..k + 1], filter);
    n := count + n;
  }

  lemma NumbersTyped(x: bv32, y: bv16, z: bv64)
    ensures Typed(Element(STORAGE_ID, U32(x))) && Typed(Element(PARENT_OBJECT, U32(x)))
    ensures Typed(Element(OBJECT_FORMAT, U16(y))) && Typed(Element(PROTECTION_STATUS, U16(y)))
    ensures Typed(Element(OBJECT_SIZE, U64(z))) && Typed(Element(PERSISTENT_UID, U128(x)))
  {
  }

  lemma TextsTyped(s: seq<bv8>)
    ensures Typed(Element(OBJECT_FILE_NAME, Str(s))) && Typed(Element(PROP_NAME, Str(s))) && Typed(Element(DISPLAY_NAME, Str(s)))
    ensures Typed(Element(DATE_CREATED, Str(s))) && Typed(Element(DATE_MODIFIED, Str(s)))
  {
  }

  /** The table has no row for the association type, so its element is never written. */
  lemma NoAssociationType(v: Value)
    ensures !Listed(ASSOCIATION_TYPE) && Typed(Element(ASSOCIATION_TYPE, v))
  {
  }

  lemma CandidatesTyped(handle: bv32, o: Object, st: Stat)
    ensures |Candidates(handle, o, st)| == 12
    ensures forall k :: 0 <= k < 12 ==> Typed(Candidates(handle, o, st)[k])
  {
    hide Typed, Table;
    NumbersTyped(o.storageId, Format(o), st.size);
    NumbersTyped(o.parent, 0, 0);
    NumbersTyped(handle, 0, 0);
    TextsTyped(o.name);
    TextsTyped([]);
    TextsTyped(st.date);
    NoAssociationType(U16(if o.isDir then GENERIC_FOLDER else 0));
  }

  lemma ListBegins(handle: bv32, es: seq<Element>, filter: bv32)
    ensures Le32(0) + ListBytes(handle, es[..0], filter) == Le32(0) && ListCount(es[..0], filter) == 0
  {
  }

  /** The count, still 0, and the selected ones of the twelve candidates. */
  method PutCandidates(buffer: array<bv8>, maxsize: int, es: seq<Element>, handle: bv32, filter: bv32)
    returns (ofs: int, n: nat)
    requires maxsize <= buffer.Length && |es| == 12 && forall k :: 0 <= k < 12 ==> Typed(es[k])
    modifies buffer
    ensures Appended(old(buffer[..]), buffer[..], 0, maxsize, Le32(0) + ListBytes(handle, es, filter), ofs)
    ensures n == ListCount(es, filter)
  {
    hide Appended, Le16, Le32, Typed, Selected, ListBytes, ListCount;
    ListBegins(handle, es, filter);
    ghost var s0 := buffer[..];
    n := 0;
    ofs := Poke32(buffer, 0, maxsize, 0);
    ofs, n := NextElement(buffer, ofs, maxsize, es, 0, handle, filter, n, s0);
    ofs, n := NextElement(buffer, ofs, maxsize, es, 1, handle, filter, n, s0);
    ofs, n := NextElement(buffer, ofs, maxsize, es, 2, handle, filter, n, s0);
    ofs, n := NextElement(buffer, ofs, maxsize, es, 3, handle, filter, n, s0);
    ofs, n := NextElement(buffer, ofs, maxsize, es, 4, handle, filter, n, s0);
    ofs, n := NextElement(buffer, ofs, maxsize, es, 5, handle, filter, n, s0);
    ofs, n := NextElement(buffer, ofs, maxsize, es, 6, handle, filter, n, s0);
    ofs, n := NextElement(buffer, ofs, maxsize, es, 7, handle, filter, n, s0);
    ofs, n := NextElement(buffer, ofs, maxsize, es, 8, handle, filter, n, s0);
    ofs, n := NextElement(buffer, ofs, maxsize, es, 9, handle, filter, n, s0);
    ofs, n := NextElement(buffer, ofs, maxsize, es, 10, handle, filter, n, s0);
    ofs, n := NextElement(buffer, ofs, maxsize, es, 11, handle, filter, n, s0);
    assert es[..12] == es;
  }

  /** The list of an object's properties: 0 when the object cannot be found any more, negative when the list does not fit, and else
      its length. `o` is the record afterwards. */
  method BuildObjectPropListDataset(buffer: array<bv8>, maxsize: int, handle: bv32, entry: Object, stat: Option<Stat>, filter: bv32)
    returns (ofs: int, o: Object)
    requires maxsize <= buffer.Length
    modifies buffer
    ensures stat.None? ==> ofs == 0 && buffer[..] == old(buffer[..])
    ensures stat.Some? ==>
      var es := Candidates(handle, entry, stat.value);
      var body := ListBytes(handle, es, filter);
      if 4 + |body| < maxsize then
        ofs == 4 + |body| && buffer[..] == Le32(Count32(ListCount(es, filter))) + body + old(buffer[..])[ofs..]
      else
        ofs == -1 && forall k :: 0 <= k < buffer.Length && k >= maxsize ==> buffer[k] == old(buffer[k])
    ensures o == Refreshed(entry, stat)
  {
    hide Appended, Le16, Le32, Candidates, Typed, ListBytes, ListCount, Count32;
    if stat.None? {
      return 0, entry;
    }
    o := entry.(size := stat.value.size);
    var es := Candidates(handle, entry, stat.value);
    CandidatesTyped(handle, entry, stat.value);
    ghost var s0 := buffer[..];
    var n;
    ofs, n := PutCandidates(buffer, maxsize, es, handle, filter);
    ghost var s1, body := buffer[..], ListBytes(handle, es, filter);
    Outcome(s0, s1, maxsize, Le32(0) + body, ofs);
    var r := Poke32(buffer, 0, maxsize, Count32(n));
    if ofs >= 0 {
      PatchHead(s0, s1, buffer[..], maxsize, body, ofs, Count32(n), r);
      Outcome(s0, buffer[..], maxsize, Le32(Count32(n)) + body, ofs);
    } else {
      Outcome(s1, buffer[..], maxsize, Le32(Count32(n)), r);
    }
  }

  // --- Reading the list back ---

  datatype Payload =
    | P16(p16: bv16) | P32(p32: bv32) | P64(low: bv32, high: bv32)
    | P128(w0: bv32, w1: bv32, w2: bv32, w3: bv32) | PStr(units: seq<bv16>)

  datatype Record = Record(handle: bv32, code: bv16, dataType: bv16, payload: Payload)

  function Word(b: seq<bv8>, p: nat): bv32
    requires p + 4 <= |b|
  {
    FromLe(b[p..p + 4])
  }

  function Half(b: seq<bv8>, p: nat): bv16
    requires p + 2 <= |b|
  {
    UnitOf(b[p..p + 2])
  }

  /** The value at p, by its data type alone, and where it ends. */
  function ParsePayload(b: seq<bv8>, p: nat, dataType: bv16): Option<(Payload, nat)> {
    if dataType == TYPE_UINT16 then
      if p + 2 <= |b| then Some((P16(Half(b, p)), p + 2)) else None
    else if dataType == TYPE_UINT32 then
      if p + 4 <= |b| then Some((P32(Word(b, p)), p + 4)) else None
    else if dataType == TYPE_UINT64 then
      if p + 8 <= |b| then Some((P64(Word(b, p), Word(b, p + 4)), p + 8)) else None
    else if dataType == TYPE_UINT128 then
      if p + 16 <= |b| then Some((P128(Word(b, p), Word(b, p + 4), Word(b, p + 8), Word(b, p + 12)), p + 16)) else None
    else if dataType == TYPE_STR then
      if p + 1 <= |b| && p + 1 + 2 * b[p] as int <= |b|
      then Some((PStr(UnitsIn(b, p + 1, b[p] as int)), p + 1 + 2 * b[p] as int)) else None
    else None
  }

  function ParseRecord(b: seq<bv8>, p: nat): Option<(Record, nat)> {
    if p + 8 > |b| then None
    else
      match ParsePayload(b, p + 8, Half(b, p + 6))
      case None => None
      case Some((payload, q)) => Some((Record(Word(b, p), Half(b, p + 4), Half(b, p + 6), payload), q))
  }

  function ParseRecords(b: seq<bv8>, p: nat, n: nat): Option<(seq<Record>, nat)> {
    if n == 0 then Some(([], p))
    else
      match ParseRecords(b, p, n - 1)
      case None => None
      case Some((rs, q)) =>
        match ParseRecord(b, q)
        case None => None
        case Some((r, q')) => Some((rs + [r], q'))
  }

  function PayloadOf(v: Value): Payload {
    match v
    case U16(x) => P16(x)
    case U32(x) => P32(x)
    case U64(x) => P64(Low(x), High(x))
    case U128(x) => P128(x, Plus(x, 1), Plus(x, 2), Plus(x, 3))
    case Str(s) => PStr(Wire(s))
  }

  function RecordsOf(handle: bv32, es: seq<Element>, filter: bv32): (rs: seq<Record>)
    ensures |rs| == ListCount(es, filter)
    ensures forall k :: 0 <= k < |rs| ==> rs[k].handle == handle && AskedFor(rs[k].code, filter)
  {
    if es == [] then []
    else
      var last := es[|es| - 1];
      RecordsOf(handle, es[..|es| - 1], filter)
      + if Selected(last, filter) then [Record(handle, last.code, last.value.DataType(), PayloadOf(last.value))] else []
  }

  predicate Holds(b: seq<bv8>, p: nat, part: seq<bv8>) {
    p + |part| <= |b| && b[p..p + |part|] == part
  }

  lemma HoldsParts(b: seq<bv8>, p: nat, x: seq<bv8>, y: seq<bv8>)
    requires Holds(b, p, x + y)
    ensures Holds(b, p, x) && Holds(b, p + |x|, y)
  {
    assert b[p..p + |x|] == b[p..p + |x + y|][..|x|];
    assert b[p + |x|..p + |x| + |y|] == b[p..p + |x + y|][|x|..];
  }

  lemma WordReads(b: seq<bv8>, p: nat, x: bv32)
    requires Holds(b, p, Le32(x))
    ensures p + 4 <= |b| && Word(b, p) == x
  {
    hide FromLe, Le32;
    FromLeOfLe32(x);
  }

  lemma HalfReads(b: seq<bv8>, p: nat, x: bv16)
    requires Holds(b, p, Le16(x))
    ensures p + 2 <= |b| && Half(b, p) == x
  {
    hide UnitOf, Le16;
    UnitOfLe16(x);
  }

  lemma StringReads(b: seq<bv8>, p: nat, s: seq<bv8>)
    requires Holds(b, p, StringBytes(s))
    ensures ParsePayload(b, p, TYPE_STR) == Some((PStr(Wire(s)), p + |StringBytes(s)|))
  {
    StringReadBack(b, p, s);
    hide StringBytes, Wire, UnitsIn;
  }

  lemma PayloadReads(b: seq<bv8>, p: nat, v: Value)
    requires Holds(b, p, v.Bytes())
    ensures ParsePayload(b, p, v.DataType()) == Some((PayloadOf(v), p + |v.Bytes()|))
  {
    hide Le16, Le32, StringBytes, Word, Half, Holds, Low, High, Plus, Wire;
    match v {
      case U16(x) => HalfReads(b, p, x);
      case U32(x) => WordReads(b, p, x);
      case U64(x) =>
        HoldsParts(b, p, Le32(Low(x)), Le32(High(x)));
        WordReads(b, p, Low(x));
        WordReads(b, p + 4, High(x));
      case U128(x) =>
        HoldsParts(b, p, Le32(x) + Le32(Plus(x, 1)) + Le32(Plus(x, 2)), Le32(Plus(x, 3)));
        HoldsParts(b, p, Le32(x) + Le32(Plus(x, 1)), Le32(Plus(x, 2)));
        HoldsParts(b, p, Le32(x), Le32(Plus(x, 1)));
        WordReads(b, p, x);
        WordReads(b, p + 4, Plus(x, 1));
        WordReads(b, p + 8, Plus(x, 2));
        WordReads(b, p + 12, Plus(x, 3));
      case Str(s) => StringReads(b, p, s);
    }
  }

  lemma ElementReads(b: seq<bv8>, p: nat, handle: bv32, e: Element)
    requires Holds(b, p, ElementBytes(handle, e))
    ensures ParseRecord(b, p)
      == Some((Record(handle, e.code, e.value.DataType(), PayloadOf(e.value)), p + |ElementBytes(handle, e)|))
  {
    hide Le16, Le32, Word, Half, Holds, Value.Bytes, ParsePayload, PayloadOf;
    var t := e.value.DataType();
    HoldsParts(b, p, Le32(handle) + Le16(e.code) + Le16(t), e.value.Bytes());
    HoldsParts(b, p, Le32(handle) + Le16(e.code), Le16(t));
    HoldsParts(b, p, Le32(handle), Le16(e.code));
    WordReads(b, p, handle);
    HalfReads(b, p + 4, e.code);
    HalfReads(b, p + 6, t);
    PayloadReads(b, p + 8, e.value);
  }

  lemma ParseNone(b: seq<bv8>, p: nat)
    ensures ParseRecords(b, p, 0) == Some(([], p))
  {
  }

  lemma ParseOneMore(b: seq<bv8>, p: nat, n: nat)
    requires ParseRecords(b, p, n).Some? && ParseRecord(b, ParseRecords(b, p, n).value.1).Some?
    ensures var (rs, q) := ParseRecords(b, p, n).value; var (r, q') := ParseRecord(b, q).value;
      ParseRecords(b, p, n + 1) == Some((rs + [r], q'))
  {
  }

  lemma {:induction false} ListReads(b: seq<bv8>, p: nat, handle: bv32, es: seq<Element>, filter: bv32)
    requires Holds(b, p, ListBytes(handle, es, filter))
    ensures ParseRecords(b, p, ListCount(es, filter))
      == Some((RecordsOf(handle, es, filter), p + |ListBytes(handle, es, filter)|))
  {
    hide Holds, ElementBytes, ParseRecord, Selected, PayloadOf, ParseRecords;
    ParseNone(b, p);
    if es != [] {
      var init, last := es[..|es| - 1], es[|es| - 1];
      var part := if Selected(last, filter) then ElementBytes(handle, last) else [];
      HoldsParts(b, p, ListBytes(handle, init, filter), part);
      ListReads(b, p, handle, init, filter);
      if Selected(last, filter) {
        var q := p + |ListBytes(handle, init, filter)|;
        ElementReads(b, q, handle, last);
        ParseOneMore(b, p, ListCount(init, filter));
      } else {
        assert RecordsOf(handle, init, filter) + [] == RecordsOf(handle, init, filter);
      }
    }
  }

  /** A finished list reads back by its data types alone: as many records as its count says,
      ending exactly at its length, each of the right handle, value and an asked-for property. */
  lemma PropListRoundTrip(handle: bv32, o: Object, st: Stat, filter: bv32, after: seq<bv8>)
    ensures var es := Candidates(handle, o, st);
      var list := Le32(Count32(ListCount(es, filter))) + ListBytes(handle, es, filter);
      var b := list + after;
      && Word(b, 0) == Count32(ListCount(es, filter))
      && ParseRecords(b, 4, ListCount(es, filter)) == Some((RecordsOf(handle, es, filter), |list|))
  {
    hide Le32, Holds, Word, Count32, Candidates, RecordsOf, ParseRecords, ListBytes, ListCount;
    var es := Candidates(handle, o, st);
    CandidatesTyped(handle, o, st);
    var count, body := Count32(ListCount(es, filter)), ListBytes(handle, es, filter);
    var b := Le32(count) + body + after;
    HoldsHere(b, Le32(count) + body, after);
    HoldsParts(b, 0, Le32(count), body);
    WordReads(b, 0, count);
    ListReads(b, 4, handle, es, filter);
  }

  lemma HoldsHere(b: seq<bv8>, part: seq<bv8>, after: seq<bv8>)
    requires b == part + after
    ensures Holds(b, 0, part)
  {
  }

  // --- What a reader finds for each property ---

  function RecordFor(handle: bv32, e: Element): Record {
    Record(handle, e.code, e.value.DataType(), PayloadOf(e.value))
  }

  /** The records are those of the selected candidates, in order. */
  lemma {:induction false} RecordsAre(handle: bv32, es: seq<Element>, filter: bv32) returns (at: seq<nat>)
    ensures |at| == |RecordsOf(handle, es, filter)|
    ensures forall k :: 0 <= k < |at| ==>
      at[k] < |es| && Selected(es[at[k]], filter) && RecordsOf(handle, es, filter)[k] == RecordFor(handle, es[at[k]])
    ensures forall j, k :: 0 <= j < k < |at| ==> at[j] < at[k]
    ensures forall i: nat :: i < |es| && Selected(es[i], filter) ==> i in at
  {
    hide Selected, PayloadOf;
    at := [];
    if es != [] {
      at := RecordsAre(handle, es[..|es| - 1], filter);
      if Selected(es[|es| - 1], filter) {
        at := at + [|es| - 1];
      }
    }
  }

  function JoinWords(low: bv32, high: bv32): bv64 {
    low as bv64 | (high as bv64 << 32)
  }

  lemma WordsJoin(x: bv64)
    ensures JoinWords(Low(x), High(x)) == x
  {
  }

  /** Property by property, with its data type: storage, format, protection, size, names, dates, parent and identifier. */
  predicate Finds(r: Record, handle: bv32, o: Object, st: Stat) {
    if r.code == 0xDC01 then r.dataType == 0x0006 && r.payload == P32(o.storageId)
    else if r.code == 0xDC02 then r.dataType == 0x0004 && r.payload == P16(if o.isDir then 0x3001 else 0x3000)
    else if r.code == 0xDC03 then r.dataType == 0x0004 && r.payload == P16(0)
    else if r.code == 0xDC04 then r.dataType == 0x0008 && r.payload.P64? && JoinWords(r.payload.low, r.payload.high) == st.size
    else if r.code == 0xDC07 || r.code == 0xDC44 then r.dataType == 0xFFFF && r.payload == PStr(Wire(o.name))
    else if r.code == 0xDC08 || r.code == 0xDC09 then r.dataType == 0xFFFF && r.payload == PStr(Wire(st.date))
    else if r.code == 0xDC0B then r.dataType == 0x0006 && r.payload == P32(o.parent)
    else if r.code == 0xDC41 then
      r.dataType == 0x000A && r.payload == P128(handle, handle + 1, handle + 2, handle + 3)
    else r.code == 0xDCE0 && r.dataType == 0xFFFF && r.payload == PStr([])
  }

  predicate IsOffered(code: bv16) {
    code == 0xDC01 || code == 0xDC02 || code == 0xDC03 || code == 0xDC04 || code == 0xDC07 || code == 0xDC08 || code == 0xDC09
    || code == 0xDC0B || code == 0xDC41 || code == 0xDC44 || code == 0xDCE0
  }

  lemma NumbersFound(handle: bv32, o: Object, st: Stat)
    ensures Finds(RecordFor(handle, Element(STORAGE_ID, U32(o.storageId))), handle, o, st)
    ensures Finds(RecordFor(handle, Element(OBJECT_FORMAT, U16(Format(o)))), handle, o, st)
    ensures Finds(RecordFor(handle, Element(PARENT_OBJECT, U32(o.parent))), handle, o, st)
    ensures Finds(RecordFor(handle, Element(OBJECT_SIZE, U64(st.size))), handle, o, st)
    ensures Finds(RecordFor(handle, Element(PROTECTION_STATUS, U16(0))), handle, o, st)
    ensures Finds(RecordFor(handle, Element(PERSISTENT_UID, U128(handle))), handle, o, st)
  {
    WordsJoin(st.size);
    hide Low, High, JoinWords;
  }

  lemma NamesFound(handle: bv32, o: Object, st: Stat)
    ensures Finds(RecordFor(handle, Element(OBJECT_FILE_NAME, Str(o.name))), handle, o, st)
    ensures Finds(RecordFor(handle, Element(PROP_NAME, Str(o.name))), handle, o, st)
    ensures Finds(RecordFor(handle, Element(DISPLAY_NAME, Str([]))), handle, o, st)
  {
    assert At([], 0) == 0 && Wire([]) == [];
    hide Wire, JoinWords, Plus, Low, High;
  }

  lemma DatesFound(handle: bv32, o: Object, st: Stat)
    ensures Finds(RecordFor(handle, Element(DATE_CREATED, Str(st.date))), handle, o, st)
    ensures Finds(RecordFor(handle, Element(DATE_MODIFIED, Str(st.date))), handle, o, st)
  {
    hide Wire, JoinWords, Plus, Low, High;
  }

  lemma CandidateFinds(handle: bv32, o: Object, st: Stat, i: nat)
    requires i < 12 && i != 2
    ensures var e := Candidates(handle, o, st)[i]; Finds(RecordFor(handle, e), handle, o, st) && IsOffered(e.code)
  {
    NumbersFound(handle, o, st);
    NamesFound(handle, o, st);
    DatesFound(handle, o, st);
    hide Finds, RecordFor, Format;
  }

  lemma OfferedIsListed()
    ensures forall code :: Listed(code) <==> IsOffered(code) || code == 0xDC06 || code == 0xDC0D
  {
    assert Table()[11].code == 0xDC06 && Table()[12].code == 0xDC0D;
    assert Table()[0].code == 0xDC01 && Table()[1].code == 0xDC02 && Table()[2].code == 0xDC04 && Table()[3].code == 0xDC03;
    assert Table()[4].code == 0xDCE0 && Table()[5].code == 0xDC07 && Table()[6].code == 0xDC08 && Table()[7].code == 0xDC09;
    assert Table()[8].code == 0xDC0B && Table()[9].code == 0xDC41 && Table()[10].code == 0xDC44;
  }

  lemma CandidateOf(handle: bv32, o: Object, st: Stat, code: bv16) returns (i: nat)
    requires IsOffered(code)
    ensures i < 12 && Candidates(handle, o, st)[i].code == code
  {
    i := if code == 0xDC01 then 0 else if code == 0xDC02 then 1 else if code == 0xDC0B then 3 else if code == 0xDC04 then 4
         else if code == 0xDC03 then 5 else if code == 0xDC07 then 6 else if code == 0xDC44 then 7 else if code == 0xDCE0 then 8
         else if code == 0xDC08 then 9 else if code == 0xDC09 then 10 else 11;
  }

  /** The filter names this property, or all. */
  predicate IsWanted(code: bv16, filter: bv32) {
    filter == 0xFFFF_FFFF || filter == code as bv32
  }

  /** A record that a reader finds has the object's value for its property, and was asked for. */
  lemma FoundIsRight(handle: bv32, o: Object, st: Stat, filter: bv32, at: seq<nat>, k: nat)
    requires k < |at| && at[k] < 12 && Selected(Candidates(handle, o, st)[at[k]], filter)
    ensures var r := RecordFor(handle, Candidates(handle, o, st)[at[k]]);
      Finds(r, handle, o, st) && IsOffered(r.code) && IsWanted(r.code, filter)
  {
    NoAssociationType(U16(0));
    assert Candidates(handle, o, st)[2].code == 0xDC05;
    hide Candidates, Finds, IsOffered, Listed;
    CandidateFinds(handle, o, st, at[k]);
  }

  /** A property that is offered and asked for is selected. */
  lemma AskedIsSelected(handle: bv32, o: Object, st: Stat, filter: bv32, code: bv16) returns (i: nat)
    requires IsOffered(code) && IsWanted(code, filter)
    ensures i < 12 && Candidates(handle, o, st)[i].code == code && Selected(Candidates(handle, o, st)[i], filter)
  {
    i := CandidateOf(handle, o, st, code);
    OfferedIsListed();
    hide Candidates, IsOffered, Listed;
  }

  /** A reader of the list finds each offered property at most once, with the object's value, and finds exactly the properties that
      were asked for: the one named by the filter, or all. */
  lemma ReaderFinds(handle: bv32, o: Object, st: Stat, filter: bv32)
    ensures var rs := RecordsOf(handle, Candidates(handle, o, st), filter);
      && (forall k :: 0 <= k < |rs| ==> rs[k].handle == handle && Finds(rs[k], handle, o, st))
      && (forall j, k :: 0 <= j < k < |rs| ==> rs[j].code != rs[k].code)
      && (forall code :: (exists k :: 0 <= k < |rs| && rs[k].code == code) <==>
                         IsOffered(code) && IsWanted(code, filter))
  {
    var rs := RecordsOf(handle, Candidates(handle, o, st), filter);
    hide Candidates, Finds, RecordsOf, IsOffered, IsWanted;
    FoundOnce(handle, o, st, filter);
    forall code
      ensures (exists k :: 0 <= k < |rs| && rs[k].code == code) <==> IsOffered(code) && IsWanted(code, filter)
    {
      if IsOffered(code) && IsWanted(code, filter) {
        var k := FoundIfAsked(handle, o, st, filter, code);
      }
      if k :| 0 <= k < |rs| && rs[k].code == code {
        FoundIsWanted(handle, o, st, filter, k);
      }
    }
  }

  lemma FoundOnce(handle: bv32, o: Object, st: Stat, filter: bv32)
    ensures var rs := RecordsOf(handle, Candidates(handle, o, st), filter);
      && (forall k :: 0 <= k < |rs| ==>
            rs[k].handle == handle && Finds(rs[k], handle, o, st))
      && (forall j, k :: 0 <= j < k < |rs| ==> rs[j].code != rs[k].code)
  {
    var es := Candidates(handle, o, st);
    var rs := RecordsOf(handle, es, filter);
    var at := RecordsAre(handle, es, filter);
    CodesDiffer(handle, o, st);
    hide Candidates, Finds, RecordsOf, Selected, PayloadOf, AskedFor, Value.DataType, IsOffered, IsWanted;
    forall k | 0 <= k < |rs|
      ensures Finds(rs[k], handle, o, st)
    {
      FoundIsRight(handle, o, st, filter, at, k);
    }
  }

  lemma FoundIsWanted(handle: bv32, o: Object, st: Stat, filter: bv32, k: nat)
    requires k < |RecordsOf(handle, Candidates(handle, o, st), filter)|
    ensures var code := RecordsOf(handle, Candidates(handle, o, st), filter)[k].code; IsOffered(code) && IsWanted(code, filter)
  {
    var at := RecordsAre(handle, Candidates(handle, o, st), filter);
    CodesDiffer(handle, o, st);
    FoundIsRight(handle, o, st, filter, at, k);
    hide Candidates, Finds, RecordsOf, Selected, PayloadOf, IsOffered, IsWanted;
  }

  lemma FoundIfAsked(handle: bv32, o: Object, st: Stat, filter: bv32, code: bv16) returns (k: nat)
    requires IsOffered(code) && IsWanted(code, filter)
    ensures var rs := RecordsOf(handle, Candidates(handle, o, st), filter); k < |rs| && rs[k].code == code
  {
    var es := Candidates(handle, o, st);
    var at := RecordsAre(handle, es, filter);
    var i := AskedIsSelected(handle, o, st, filter, code);
    hide Candidates, RecordsOf, Selected, PayloadOf, Value.DataType, IsOffered, IsWanted;
    k :| 0 <= k < |at| && at[k] == i;
  }

  lemma CodesDiffer(handle: bv32, o: Object, st: Stat)
    ensures var es := Candidates(handle, o, st); |es| == 12 && forall i, j :: 0 <= i < j < 12 ==> es[i].code != es[j].code
  {
  }
}
