// The object-handle database as plain values: the entries in the order they were made, the
// next handle, and the operations that change them. The program's linked list runs the other
// way, from the last entry to the first. The classes in HashIndex, EntryPool and HandleDb are
// proved to implement these operations.
module EntryModel {
  import opened Wrappers

  type Name = seq<bv8>

  const NO_PARENT: u32 := 0xFFFF_FFFF
  const ROOT_NAME: Name := [0x2F]

  // Handles are handed out as 1, 2, 3, ...; the 32-bit counter comes round after this many.
  const MAX_ADDS: nat := 0xFFFF_FFFF

  datatype FileInfo = FileInfo(filename: Name, isDirectory: bool, size: int)

  /** One database record. `inName` and `inHandle` say whether the two hash tables hold the
      record: a bucket that cannot grow drops an insertion without telling its caller. */
  datatype Entry = Entry(handle: u32, parent: u32, storageId: u32, name: Name, isDir: bool,
                         size: int, deleted: bool, watch: int, inName: bool, inHandle: bool)

  /** The outcome of each heap allocation that adding one entry may ask for. */
  datatype Grants = Grants(block: bool, name: bool, handleSlot: bool, nameSlot: bool) {
    predicate All() {
      block && name && handleSlot && nameSlot
    }
  }

  function NewEntry(handle: u32, info: FileInfo, parent: u32, storageId: u32,
                    inName: bool, inHandle: bool): Entry {
    Entry(handle, parent, storageId, info.filename, info.isDirectory, info.size, false, -1, inName, inHandle)
  }

  /** The record a new object gets, whatever its handle and the tables that take it. */
  predicate IsRecordOf(e: Entry, info: FileInfo, parent: u32, storageId: u32) {
    && e.name == info.filename && e.parent == parent && e.storageId == storageId
    && e.isDir == info.isDirectory && e.size == info.size && !e.deleted && e.watch == -1
  }

  /** The record of a storage's root, whatever the tables that take it. */
  predicate IsRecordOfRoot(e: Entry, storageId: u32) {
    && e.handle == 0 && e.parent == 0 && e.storageId == storageId && e.name == [0x2F]
    && e.isDir && e.size == 1 && !e.deleted && e.watch == -1
  }

  function RootEntry(storageId: u32, inName: bool, inHandle: bool): Entry {
    Entry(0, 0, storageId, ROOT_NAME, true, 1, false, -1, inName, inHandle)
  }

  // --- Linear views of the list ---

  predicate Matches(e: Entry, name: Name, parent: u32, storageId: u32) {
    e.name == name && e.parent == parent && e.storageId == storageId && !e.deleted
  }

  predicate HasMatch(es: seq<Entry>, name: Name, parent: u32, storageId: u32) {
    exists i :: 0 <= i < |es| && Matches(es[i], name, parent, storageId)
  }

  lemma PrefixKeepsMatch(es: seq<Entry>, fs: seq<Entry>, name: Name, parent: u32, storageId: u32)
    requires es <= fs && HasMatch(es, name, parent, storageId)
    ensures HasMatch(fs, name, parent, storageId)
  {
    var i :| 0 <= i < |es| && Matches(es[i], name, parent, storageId);
    assert Matches(fs[i], name, parent, storageId);
  }

  lemma MatchAt(es: seq<Entry>, i: nat, name: Name, parent: u32, storageId: u32)
    requires i < |es| && Matches(es[i], name, parent, storageId)
    ensures HasMatch(es, name, parent, storageId)
  {
  }

  /** The name table can answer: it holds a live record of this name below this parent. */
  predicate Known(es: seq<Entry>, name: Name, parent: u32, storageId: u32) {
    exists i :: 0 <= i < |es| && es[i].inName && Matches(es[i], name, parent, storageId)
  }

  lemma PrefixKeepsKnown(es: seq<Entry>, fs: seq<Entry>, name: Name, parent: u32, storageId: u32)
    requires es <= fs && Known(es, name, parent, storageId)
    ensures Known(fs, name, parent, storageId)
  {
    var i :| 0 <= i < |es| && es[i].inName && Matches(es[i], name, parent, storageId);
    assert fs[i].inName && Matches(fs[i], name, parent, storageId);
  }

  /** Every record is in both tables, so a table lookup misses nothing. */
  predicate AllHeld(es: seq<Entry>) {
    forall i :: 0 <= i < |es| ==> es[i].inName && es[i].inHandle
  }

  /** While no record was dropped, the name table answers exactly when the list has a match. */
  lemma KnownIsMatch(es: seq<Entry>, name: Name, parent: u32, storageId: u32)
    requires AllHeld(es)
    ensures Known(es, name, parent, storageId) <==> HasMatch(es, name, parent, storageId)
  {
    if HasMatch(es, name, parent, storageId) {
      var i :| 0 <= i < |es| && Matches(es[i], name, parent, storageId);
      assert es[i].inName;
    }
  }

  predicate IsChild(e: Entry, parent: u32, storageId: u32) {
    !e.deleted && e.parent == parent && e.storageId == storageId && e.handle != e.parent
  }

  predicate IsLive(e: Entry, handle: u32, storageId: u32) {
    !e.deleted && e.handle == handle && e.storageId == storageId
  }

  /** The newest live entry with this handle on this storage, or -1: the scan of the list. */
  function FirstLive(es: seq<Entry>, handle: u32, storageId: u32): (r: int)
    ensures -1 <= r < |es|
    ensures r >= 0 ==> IsLive(es[r], handle, storageId)
    ensures forall i :: r < i < |es| ==> !IsLive(es[i], handle, storageId)
  {
    if es == [] then -1
    else if IsLive(es[|es| - 1], handle, storageId) then |es| - 1
    else FirstLive(es[..|es| - 1], handle, storageId)
  }

  predicate Resolvable(e: Entry, handle: u32, stores: set<u32>) {
    !e.deleted && e.inHandle && e.handle == handle && e.storageId in stores
  }

  /** The newest entry the handle table can answer with, or -1. */
  function Lookup(es: seq<Entry>, stores: set<u32>, handle: u32): (r: int)
    ensures -1 <= r < |es|
    ensures r >= 0 ==> Resolvable(es[r], handle, stores)
    ensures forall i :: r < i < |es| ==> !Resolvable(es[i], handle, stores)
  {
    if es == [] then -1
    else if Resolvable(es[|es| - 1], handle, stores) then |es| - 1
    else Lookup(es[..|es| - 1], stores, handle)
  }

  // --- Invariants ---

  /** Non-root handles strictly increase in the order of creation and lie in [1, next). */
  predicate HandlesOrdered(es: seq<Entry>, next: u32) {
    && (forall i :: 0 <= i < |es| ==> es[i].handle < next)
    && (forall i, j :: 0 <= i < j < |es| && es[i].handle != 0 && es[j].handle != 0 ==> es[i].handle < es[j].handle)
  }

  predicate UniqueHandles(es: seq<Entry>) {
    forall i, j :: 0 <= i < j < |es| && es[i].handle != 0 ==> es[i].handle != es[j].handle
  }

  predicate OlderParent(e: Entry) {
    if e.handle == 0 then e.parent == 0 else e.parent < e.handle || e.parent == NO_PARENT
  }

  /** Every parent is older than its children, so walking up to a root ends. */
  predicate ParentsOlder(es: seq<Entry>) {
    forall i :: 0 <= i < |es| ==> OlderParent(es[i])
  }

  // --- Operations and runs ---

  datatype Op =
    | AddRoot(storageId: u32, inName: bool, inHandle: bool)
    | Add(info: FileInfo, parent: u32, storageId: u32, inName: bool, inHandle: bool)
    | Discard(index: nat)
    | Resize(index: nat, size: int)
    | Watch(index: nat, wd: int)
    | Rename(index: nat, name: Name, inName: bool, inHandle: bool)

  datatype DbState = DbState(entries: seq<Entry>, next: u32, adds: nat)

  const EMPTY: DbState := DbState([], 1, 0)

  function Discarded(e: Entry): Entry {
    e.(deleted := true, watch := -1)
  }

  function Apply(s: DbState, op: Op): DbState {
    match op
    case AddRoot(storageId, inName, inHandle) =>
      s.(entries := s.entries + [RootEntry(storageId, inName, inHandle)])
    case Add(info, parent, storageId, inName, inHandle) =>
      DbState(s.entries + [NewEntry(s.next, info, parent, storageId, inName, inHandle)],
              (s.next + 1) % 0x1_0000_0000, s.adds + 1)
    case Discard(i) =>
      if i < |s.entries| then s.(entries := s.entries[i := Discarded(s.entries[i])]) else s
    case Resize(i, size) =>
      if i < |s.entries| then s.(entries := s.entries[i := s.entries[i].(size := size)]) else s
    case Watch(i, wd) =>
      if i < |s.entries| then s.(entries := s.entries[i := s.entries[i].(watch := wd)]) else s
    case Rename(i, name, inName, inHandle) =>
      if i < |s.entries|
      then s.(entries := s.entries[i := s.entries[i].(name := name, inName := inName, inHandle := inHandle)])
      else s
  }

  function Run(ops: seq<Op>): DbState {
    if ops == [] then EMPTY else Apply(Run(ops[..|ops| - 1]), ops[|ops| - 1])
  }

  lemma RunAppend(ops: seq<Op>, op: Op)
    ensures Run(ops + [op]) == Apply(Run(ops), op)
  {
    assert (ops + [op])[..|ops|] == ops;
  }

  /** The adds of a run, in order. */
  function AddsOf(ops: seq<Op>): seq<Op> {
    if ops == [] then []
    else AddsOf(ops[..|ops| - 1]) + if ops[|ops| - 1].Add? then [ops[|ops| - 1]] else []
  }

  /** The record is of the kind, and in the place, that the add which handed out its handle asked for. A root is a directory. */
  predicate IsAsAsked(e: Entry, adds: seq<Op>) {
    if e.handle == 0 then e.isDir && e.parent == 0
    else
      && e.handle <= |adds| && adds[e.handle - 1].Add?
      && e.isDir == adds[e.handle - 1].info.isDirectory
      && e.parent == adds[e.handle - 1].parent && e.storageId == adds[e.handle - 1].storageId
  }

  lemma StepKeepsKinds(s: DbState, op: Op, adds: seq<Op>)
    requires s.next == 1 + s.adds && Apply(s, op).adds < MAX_ADDS && |adds| == s.adds
    requires forall i :: 0 <= i < |s.entries| ==> IsAsAsked(s.entries[i], adds)
    ensures var t, more := Apply(s, op), adds + if op.Add? then [op] else [];
      |more| == t.adds && forall i :: 0 <= i < |t.entries| ==> IsAsAsked(t.entries[i], more)
  {
    var t, more := Apply(s, op), adds + if op.Add? then [op] else [];
    forall i | 0 <= i < |t.entries|
      ensures IsAsAsked(t.entries[i], more)
    {
      assert i < |s.entries| ==> IsAsAsked(s.entries[i], adds);
    }
  }

  /** In every run the record with handle h is a directory exactly if the h-th add asked for one, and lies where that add put it,
      whatever came later. */
  lemma {:induction false} RunKeepsKinds(ops: seq<Op>)
    requires Run(ops).adds < MAX_ADDS
    ensures |AddsOf(ops)| == Run(ops).adds
    ensures forall i :: 0 <= i < |Run(ops).entries| ==> IsAsAsked(Run(ops).entries[i], AddsOf(ops))
  {
    if ops == [] {
    } else {
      hide Apply, IsAsAsked, HandlesOrdered, UniqueHandles;
      var before, op := ops[..|ops| - 1], ops[|ops| - 1];
      AddsStay(Run(before), op);
      RunKeepsKinds(before);
      RunOrdersHandles(before);
      StepKeepsKinds(Run(before), op, AddsOf(before));
    }
  }

  /** Operations other than adds keep every record's handle and parent. */
  lemma UpdateKeepsHandles(s: DbState, op: Op)
    requires !op.AddRoot? && !op.Add?
    ensures var t := Apply(s, op);
      && t.next == s.next && t.adds == s.adds && |t.entries| == |s.entries|
      && forall k :: 0 <= k < |s.entries| ==>
           t.entries[k].handle == s.entries[k].handle && t.entries[k].parent == s.entries[k].parent
  {
  }

  lemma StepOrdersHandles(s: DbState, op: Op)
    requires s.next == 1 + s.adds && Apply(s, op).adds < MAX_ADDS
    requires HandlesOrdered(s.entries, s.next)
    ensures Apply(s, op).next == 1 + Apply(s, op).adds
    ensures HandlesOrdered(Apply(s, op).entries, Apply(s, op).next)
  {
    var t := Apply(s, op);
    if !op.AddRoot? && !op.Add? {
      UpdateKeepsHandles(s, op);
    }
  }

  lemma OrderedIsUnique(es: seq<Entry>, next: u32)
    requires HandlesOrdered(es, next)
    ensures UniqueHandles(es)
  {
  }

  /** Every run with fewer than 2^32 - 1 adds hands out the handles 1, 2, 3, ... in order. */
  lemma {:induction false} RunOrdersHandles(ops: seq<Op>)
    requires Run(ops).adds < 0xFFFF_FFFF
    ensures Run(ops).next == 1 + Run(ops).adds
    ensures HandlesOrdered(Run(ops).entries, Run(ops).next)
    ensures UniqueHandles(Run(ops).entries)
  {
    if ops != [] {
      RunOrdersHandles(ops[..|ops| - 1]);
      StepOrdersHandles(Run(ops[..|ops| - 1]), ops[|ops| - 1]);
    }
    OrderedIsUnique(Run(ops).entries, Run(ops).next);
  }

  /** The tables took the record wherever the operation entered it. */
  predicate TablesTake(op: Op) {
    op.AddRoot? || op.Add? || op.Rename? ==> op.inName && op.inHandle
  }

  /** Every run whose bucket insertions all succeed keeps every record in both tables. */
  lemma {:induction false} RunHoldsAll(ops: seq<Op>)
    requires forall op :: op in ops ==> TablesTake(op)
    ensures AllHeld(Run(ops).entries)
  {
    if ops != [] {
      RunHoldsAll(ops[..|ops| - 1]);
      assert TablesTake(ops[|ops| - 1]);
    }
  }

  /** The operation adds only below an entry that already exists (or at the top level). */
  predicate NamesOlderParent(s: DbState, op: Op) {
    op.Add? ==> op.parent < s.next || op.parent == NO_PARENT
  }

  predicate Grounded(ops: seq<Op>) {
    forall i :: 0 <= i < |ops| ==> NamesOlderParent(Run(ops[..i]), ops[i])
  }

  lemma StepKeepsParentsOlder(s: DbState, op: Op)
    requires s.next == 1 + s.adds && Apply(s, op).adds < MAX_ADDS
    requires ParentsOlder(s.entries) && NamesOlderParent(s, op)
    ensures ParentsOlder(Apply(s, op).entries)
  {
    var t := Apply(s, op);
    if !op.AddRoot? && !op.Add? {
      UpdateKeepsHandles(s, op);
      forall k | 0 <= k < |t.entries| ensures OlderParent(t.entries[k]) {
        assert OlderParent(s.entries[k]);
      }
    }
  }

  /** If every add names an existing parent, parents stay older than their children. */
  lemma {:induction false} RunKeepsParentsOlder(ops: seq<Op>)
    requires Run(ops).adds < MAX_ADDS
    requires Grounded(ops)
    ensures ParentsOlder(Run(ops).entries)
  {
    if ops != [] {
      var before := ops[..|ops| - 1];
      forall i | 0 <= i < |before| ensures NamesOlderParent(Run(before[..i]), before[i]) {
        assert before[..i] == ops[..i];
      }
      RunKeepsParentsOlder(before);
      RunOrdersHandles(before);
      assert NamesOlderParent(Run(ops[..|ops| - 1]), ops[|ops| - 1]);
      StepKeepsParentsOlder(Run(before), ops[|ops| - 1]);
    }
  }

  /** A storage's root is older than every live record below it: a storage is emptied before its root is made again. */
  predicate RootsOldest(es: seq<Entry>) {
    forall i, j :: 0 <= i < j < |es| && es[j].handle == 0 && es[i].handle != 0 && es[i].storageId == es[j].storageId ==>
      es[i].deleted
  }

  predicate MountsEmptied(s: DbState, op: Op) {
    op.AddRoot? ==>
      forall i :: 0 <= i < |s.entries| && s.entries[i].handle != 0 && s.entries[i].storageId == op.storageId ==> s.entries[i].deleted
  }

  /** Every root is made while its storage has no live record. */
  predicate CleanMounts(ops: seq<Op>) {
    forall i :: 0 <= i < |ops| ==> MountsEmptied(Run(ops[..i]), ops[i])
  }

  lemma StepKeepsRootsOldest(s: DbState, op: Op)
    requires s.next > 0 && RootsOldest(s.entries) && MountsEmptied(s, op)
    ensures RootsOldest(Apply(s, op).entries)
  {
  }

  lemma {:induction false} RunKeepsRootsOldest(ops: seq<Op>)
    requires Run(ops).adds < MAX_ADDS && CleanMounts(ops)
    ensures RootsOldest(Run(ops).entries)
  {
    if ops != [] {
      var before := ops[..|ops| - 1];
      forall i | 0 <= i < |before| ensures MountsEmptied(Run(before[..i]), before[i]) {
        assert before[..i] == ops[..i];
      }
      RunKeepsRootsOldest(before);
      RunOrdersHandles(before);
      assert MountsEmptied(Run(ops[..|ops| - 1]), ops[|ops| - 1]);
      StepKeepsRootsOldest(Run(before), ops[|ops| - 1]);
    }
  }

  // --- Lookups that cannot go astray ---

  /** No two live records share name, parent and storage. */
  predicate UniqueNames(es: seq<Entry>) {
    forall i, j :: 0 <= i < j < |es| && !es[i].deleted && !es[j].deleted ==>
      !(es[i].name == es[j].name && es[i].parent == es[j].parent && es[i].storageId == es[j].storageId)
  }

  /** Only the roots have handle 0, and they keep their name. */
  predicate RootsNamed(es: seq<Entry>) {
    forall i :: 0 <= i < |es| && es[i].handle == 0 ==> es[i].name == ROOT_NAME
  }

  /** Directories are older than what is in them: handles ascend, and roots are the oldest of their storage. */
  predicate Ranked(es: seq<Entry>, next: u32) {
    RootsNamed(es) && RootsOldest(es) && HandlesOrdered(es, next)
  }

  /** Every name is recorded once and held by both tables. */
  predicate Tidy(es: seq<Entry>, next: u32) {
    Ranked(es, next) && UniqueNames(es) && AllHeld(es)
  }

  /** At most one live record has this name below this parent, and the name table holds it. */
  predicate Sole(es: seq<Entry>, name: Name, parent: u32, storageId: u32) {
    && (forall i :: 0 <= i < |es| && Matches(es[i], name, parent, storageId) ==> es[i].inName)
    && (forall i, j :: 0 <= i < j < |es| && Matches(es[i], name, parent, storageId) ==> !Matches(es[j], name, parent, storageId))
  }

  lemma TidyIsSole(es: seq<Entry>, next: u32, name: Name, parent: u32, storageId: u32)
    requires Tidy(es, next)
    ensures Sole(es, name, parent, storageId)
  {
  }

  /** The record found is the only one if and only if dropping it leaves none. */
  lemma SoleIfLast(es: seq<Entry>, j: nat, name: Name, parent: u32, storageId: u32)
    requires j < |es| && es[j].inName && Matches(es[j], name, parent, storageId)
    ensures Sole(es, name, parent, storageId) <==> !HasMatch(es[j := Discarded(es[j])], name, parent, storageId)
  {
    var fs := es[j := Discarded(es[j])];
    forall i | 0 <= i < |es| && i != j
      ensures Matches(fs[i], name, parent, storageId) <==> Matches(es[i], name, parent, storageId)
    {
    }
    assert !Matches(fs[j], name, parent, storageId);
  }

  lemma SoleIfUnknown(es: seq<Entry>, name: Name, parent: u32, storageId: u32)
    requires !Known(es, name, parent, storageId)
    ensures Sole(es, name, parent, storageId) <==> !HasMatch(es, name, parent, storageId)
  {
  }

  /** Renaming a live record onto the name of another one in the same directory: dropping any one record leaves a match. */
  lemma RenameMakesTwins(es: seq<Entry>, i: nat, j: nat, inName: bool, inHandle: bool, k: nat)
    requires i < |es| && j < |es| && i != j && !es[i].deleted && k < |es|
    requires Matches(es[j], es[j].name, es[i].parent, es[i].storageId)
    ensures var fs := es[i := es[i].(name := es[j].name, inName := inName, inHandle := inHandle)];
      && !Sole(fs, es[j].name, es[i].parent, es[i].storageId)
      && HasMatch(fs[k := Discarded(fs[k])], es[j].name, es[i].parent, es[i].storageId)
  {
    var fs := es[i := es[i].(name := es[j].name, inName := inName, inHandle := inHandle)];
    var gs := fs[k := Discarded(fs[k])];
    assert Matches(fs[i], es[j].name, es[i].parent, es[i].storageId) && Matches(fs[j], es[j].name, es[i].parent, es[i].storageId);
    var other := if k == i then j else i;
    assert Matches(gs[other], es[j].name, es[i].parent, es[i].storageId);
  }

  /** The operation records no name twice, drops nothing from the tables, and makes a root only on an empty storage. */
  predicate Orderly(s: DbState, op: Op) {
    && TablesTake(op)
    && match op
       case AddRoot(storageId, _, _) =>
         forall i :: 0 <= i < |s.entries| && s.entries[i].storageId == storageId ==> s.entries[i].deleted
       case Add(info, parent, storageId, _, _) => !HasMatch(s.entries, info.filename, parent, storageId)
       case Rename(i, name, _, _) =>
         i < |s.entries| ==>
           && s.entries[i].handle != 0
           && forall j :: 0 <= j < |s.entries| && j != i ==>
                !Matches(s.entries[j], name, s.entries[i].parent, s.entries[i].storageId)
       case _ => true
  }

  /** Every operation of the run is orderly when its turn comes. */
  predicate OrderlyRun(ops: seq<Op>) {
    forall i :: 0 <= i < |ops| ==> Orderly(Run(ops[..i]), ops[i])
  }

  lemma OneMoreKeepsNames(es: seq<Entry>, e: Entry)
    requires UniqueNames(es) && !HasMatch(es, e.name, e.parent, e.storageId)
    ensures UniqueNames(es + [e])
  {
    forall i | 0 <= i < |es|
      ensures !(!es[i].deleted && es[i].name == e.name && es[i].parent == e.parent && es[i].storageId == e.storageId)
    {
      assert !Matches(es[i], e.name, e.parent, e.storageId);
    }
  }

  lemma StepKeepsNames(s: DbState, op: Op)
    requires UniqueNames(s.entries) && Orderly(s, op)
    ensures UniqueNames(Apply(s, op).entries)
  {
    match op {
      case AddRoot(storageId, inName, inHandle) => OneMoreKeepsNames(s.entries, RootEntry(storageId, inName, inHandle));
      case Add(info, parent, storageId, inName, inHandle) =>
        OneMoreKeepsNames(s.entries, NewEntry(s.next, info, parent, storageId, inName, inHandle));
      case Rename(i, name, inName, inHandle) =>
        if i < |s.entries| {
          forall j | 0 <= j < |s.entries| && j != i
            ensures !Matches(s.entries[j], name, s.entries[i].parent, s.entries[i].storageId)
          {
          }
        }
      case _ =>
    }
  }

  predicate RenamesNoRoot(s: DbState, op: Op) {
    op.Rename? && op.index < |s.entries| ==> s.entries[op.index].handle != 0
  }

  lemma StepKeepsRootNames(s: DbState, op: Op)
    requires s.next > 0 && RootsNamed(s.entries) && RenamesNoRoot(s, op)
    ensures RootsNamed(Apply(s, op).entries)
  {
  }

  lemma {:induction false} RunKeepsRootNames(ops: seq<Op>)
    requires Run(ops).adds < MAX_ADDS
    requires forall i :: 0 <= i < |ops| ==> RenamesNoRoot(Run(ops[..i]), ops[i])
    ensures RootsNamed(Run(ops).entries)
  {
    if ops == [] {
    } else {
      hide RootsNamed, RenamesNoRoot, Apply, HandlesOrdered, UniqueHandles;
      var before, op := ops[..|ops| - 1], ops[|ops| - 1];
      assert RenamesNoRoot(Run(ops[..|before|]), op);
      forall i | 0 <= i < |before| ensures RenamesNoRoot(Run(before[..i]), before[i]) {
        assert before[..i] == ops[..i];
      }
      AddsStay(Run(before), op);
      RunKeepsRootNames(before);
      RunOrdersHandles(before);
      StepKeepsRootNames(Run(before), op);
    }
  }

  /** On every run with clean mounts that renames no root, directories are older than what is in them. */
  lemma RunIsRanked(ops: seq<Op>)
    requires Run(ops).adds < MAX_ADDS && CleanMounts(ops)
    requires forall i :: 0 <= i < |ops| ==> RenamesNoRoot(Run(ops[..i]), ops[i])
    ensures Ranked(Run(ops).entries, Run(ops).next)
  {
    RunOrdersHandles(ops);
    RunKeepsRootNames(ops);
    RunKeepsRootsOldest(ops);
  }

  /** Every orderly run leads to a tidy database. */
  lemma {:induction false} RunIsTidy(ops: seq<Op>)
    requires Run(ops).adds < MAX_ADDS && OrderlyRun(ops)
    ensures Tidy(Run(ops).entries, Run(ops).next)
  {
    RunOrdersHandles(ops);
    if ops == [] {
    } else {
      hide HandlesOrdered, Tidy, Orderly, Apply, UniqueHandles;
      var before, op := ops[..|ops| - 1], ops[|ops| - 1];
      assert before + [op] == ops;
      OrderlyBefore(before, op);
      AddsStay(Run(before), op);
      RunIsTidy(before);
      RunOrdersHandles(before);
      StepKeepsTidy(Run(before), op);
    }
  }

  lemma OrderlyBefore(before: seq<Op>, op: Op)
    requires OrderlyRun(before + [op])
    ensures OrderlyRun(before) && Orderly(Run(before), op)
  {
    hide Orderly, Run;
    var ops := before + [op];
    forall i | 0 <= i < |before| ensures Orderly(Run(before[..i]), before[i]) {
      assert before[..i] == ops[..i] && before[i] == ops[i];
    }
    assert ops[..|before|] == before && ops[|before|] == op;
  }

  lemma AddsStay(s: DbState, op: Op)
    ensures Apply(s, op).adds >= s.adds
  {
  }

  lemma StepKeepsTidy(s: DbState, op: Op)
    requires s.next > 0 && Tidy(s.entries, s.next) && Orderly(s, op)
    requires HandlesOrdered(Apply(s, op).entries, Apply(s, op).next)
    ensures Tidy(Apply(s, op).entries, Apply(s, op).next)
  {
    StepKeepsNames(s, op);
    StepKeepsRootNames(s, op);
    StepKeepsRootsOldest(s, op);
    hide HandlesOrdered, UniqueNames, RootsNamed, RootsOldest;
  }

  // --- Handle lookups ---

  /** With unique handles, the handle table and the linear scan agree on every non-root handle
      whose entry was not dropped, on every present storage. */
  lemma LookupAgreesWithScan(es: seq<Entry>, stores: set<u32>, handle: u32, storageId: u32)
    requires UniqueHandles(es)
    requires handle != 0 && storageId in stores
    requires AllHeld(es)
    ensures var found := Lookup(es, stores, handle);
      FirstLive(es, handle, storageId) == if found >= 0 && es[found].storageId == storageId then found else -1
  {
    var a := FirstLive(es, handle, storageId);
    if a >= 0 {
      assert Resolvable(es[a], handle, stores);
    }
  }
}
