// The object-handle database: one set of records kept at once in a newest-first linked list,
// a by-name table, a by-handle table and a block pool.
module HandleDb {
  import opened EntryModel
  import opened HashIndex
  import opened EntryPool
  import opened Wrappers

  // --- The four structures, each against the list of records ---

  ghost function Newest(list: seq<FsEntry>): FsEntry? {
    if list == [] then null else list[|list| - 1]
  }

  ghost predicate Shows(e: FsEntry, v: Entry)
    reads e
  {
    && e.handle == v.handle && e.parent == v.parent && e.storageId == v.storageId && e.name == v.name
    && e.isDir == v.isDir && e.size == v.size && e.deleted == v.deleted && e.watchDescriptor == v.watch
  }

  /** The records, oldest first, show the values, and the linked list from `head` is these
      records from the last to the first. */
  ghost predicate Links(list: seq<FsEntry>, view: seq<Entry>, head: FsEntry?)
    reads list
  {
    && |list| == |view|
    && head == Newest(list)
    && (forall i :: 0 <= i < |list| ==> Shows(list[i], view[i]))
    && (forall i, j :: 0 <= i < j < |list| && j == i + 1 ==> list[j].next == list[i])
    && (list != [] ==> list[0].next == null)
  }

  lemma LinksLength(list: seq<FsEntry>, view: seq<Entry>, head: FsEntry?)
    requires Links(list, view, head)
    ensures |list| == |view|
  {
  }

  lemma LinksAppend(list: seq<FsEntry>, view: seq<Entry>, e: FsEntry, v: Entry)
    requires Links(list, view, e.next) && Shows(e, v)
    ensures Links(list + [e], view + [v], e)
  {
  }

  ghost function Others(list: seq<FsEntry>, i: nat): set<FsEntry> {
    set k | 0 <= k < |list| && k != i :: list[k]
  }

  /** What Links says of the records other than number i. */
  ghost predicate LinksBut(list: seq<FsEntry>, view: seq<Entry>, head: FsEntry?, i: nat)
    reads Others(list, i)
  {
    && |list| == |view|
    && head == Newest(list)
    && (forall k :: 0 <= k < |list| && k != i ==> Shows(list[k], view[k]))
    && (forall j, k :: 0 <= j < k < |list| && k == j + 1 && k != i ==> list[k].next == list[j])
    && (list != [] && i != 0 ==> list[0].next == null)
  }

  lemma LinksSplit(list: seq<FsEntry>, view: seq<Entry>, head: FsEntry?, i: nat)
    requires Links(list, view, head) && NoDuplicates(list) && i < |list|
    ensures LinksBut(list, view, head, i) && list[i] !in Others(list, i)
    ensures Shows(list[i], view[i]) && list[i].next == Newest(list[..i])
  {
    if i > 0 {
      assert list[i].next == list[i - 1];
    }
  }

  lemma LinksJoin(list: seq<FsEntry>, view: seq<Entry>, head: FsEntry?, i: nat, v: Entry)
    requires LinksBut(list, view, head, i) && i < |list|
    requires Shows(list[i], v) && list[i].next == Newest(list[..i])
    ensures Links(list, view[i := v], head)
  {
  }

  lemma TalliesDistinct(list: seq<FsEntry>, used: seq<FsEntry>, leaks: nat)
    requires Tallies(list, used, leaks)
    ensures NoDuplicates(list)
  {
  }

  /** The records occupy distinct pool slots; `leaks` further slots are in use by nobody. */
  ghost predicate Tallies(list: seq<FsEntry>, used: seq<FsEntry>, leaks: nat) {
    && (forall i :: 0 <= i < |list| ==> list[i] in used)
    && NoDuplicates(list)
    && |used| == |list| + leaks
    && (leaks == 0 ==> list == used)
  }

  lemma TalliesAppend(list: seq<FsEntry>, used: seq<FsEntry>, leaks: nat, e: FsEntry)
    requires Tallies(list, used, leaks) && e !in used
    ensures e !in list && Tallies(list + [e], used + [e], leaks)
  {
  }

  lemma TalliesLeak(list: seq<FsEntry>, used: seq<FsEntry>, leaks: nat, e: FsEntry)
    requires Tallies(list, used, leaks)
    ensures Tallies(list, used + [e], leaks + 1)
  {
  }

  function NameKey(v: Entry): int {
    if v.inName then NameBucket(v.name) else -1
  }

  function HandleKey(v: Entry): int {
    if v.inHandle then HandleBucket(v.handle) else -1
  }

  /** The bucket of each record in the two tables. */
  datatype Keys = Keys(name: seq<int>, handle: seq<int>)

  /** Both tables hold exactly the records whose values say so, in the buckets of their name
      and of their handle. */
  ghost predicate Tabled(byName: Table, byHandle: Table, list: seq<FsEntry>, view: seq<Entry>, keys: Keys) {
    && |keys.name| == |keys.handle| == |view|
    && (forall i :: 0 <= i < |view| ==> keys.name[i] == NameKey(view[i]) && keys.handle[i] == HandleKey(view[i]))
    && Indexes(byName, list, keys.name) && Indexes(byHandle, list, keys.handle)
  }

  lemma TabledAppend(byName: Table, byHandle: Table, list: seq<FsEntry>, view: seq<Entry>, keys: Keys,
                     e: FsEntry, v: Entry, g: Grants)
    returns (keys': Keys)
    requires Tabled(byName, byHandle, list, view, keys) && e !in list
    requires v.inName == byName[NameBucket(v.name)].Takes(g.nameSlot)
    requires v.inHandle == byHandle[HandleBucket(v.handle)].Takes(g.handleSlot)
    ensures var n, h := NameBucket(v.name), HandleBucket(v.handle);
      Tabled(byName[n := byName[n].Insert(e, g.nameSlot)], byHandle[h := byHandle[h].Insert(e, g.handleSlot)],
             list + [e], view + [v], keys')
  {
    hide Indexes;
    IndexAppend(byName, list, keys.name, e, NameBucket(v.name), g.nameSlot);
    IndexAppend(byHandle, list, keys.handle, e, HandleBucket(v.handle), g.handleSlot);
    keys' := Keys(keys.name + [NameKey(v)], keys.handle + [HandleKey(v)]);
  }

  /** A change that touches neither name, handle nor the membership flags. */
  lemma TabledUpdate(byName: Table, byHandle: Table, list: seq<FsEntry>, view: seq<Entry>, keys: Keys, i: nat, v: Entry)
    requires Tabled(byName, byHandle, list, view, keys) && i < |view|
    requires NameKey(v) == NameKey(view[i]) && HandleKey(v) == HandleKey(view[i])
    ensures Tabled(byName, byHandle, list, view[i := v], keys)
  {
    hide Indexes, NameKey, HandleKey;
  }

  /** Taking record i out of both tables, renaming it and putting it back. */
  lemma TabledRename(byName: Table, byHandle: Table, list: seq<FsEntry>, view: seq<Entry>, keys: Keys,
                     i: nat, name: Name, g: Grants)
    returns (keys': Keys, v: Entry)
    requires Tabled(byName, byHandle, list, view, keys) && NoDuplicates(list) && i < |list| == |view|
    ensures var n, m, h := NameBucket(view[i].name), NameBucket(name), HandleBucket(view[i].handle);
      var names, handles := byName[n := byName[n].Remove(list[i])], byHandle[h := byHandle[h].Remove(list[i])];
      && v == view[i].(name := name, inName := names[m].Takes(g.nameSlot), inHandle := handles[h].Takes(g.handleSlot))
      && Tabled(names[m := names[m].Insert(list[i], g.nameSlot)], handles[h := handles[h].Insert(list[i], g.handleSlot)],
                list, view[i := v], keys')
  {
    hide Indexes;
    var n, m, h := NameBucket(view[i].name), NameBucket(name), HandleBucket(view[i].handle);
    IndexRemove(byName, list, keys.name, i, n);
    IndexRemove(byHandle, list, keys.handle, i, h);
    var names, handles := byName[n := byName[n].Remove(list[i])], byHandle[h := byHandle[h].Remove(list[i])];
    IndexRestore(names, list, keys.name[i := -1], i, m, g.nameSlot);
    IndexRestore(handles, list, keys.handle[i := -1], i, h, g.handleSlot);
    v := view[i].(name := name, inName := names[m].Takes(g.nameSlot), inHandle := handles[h].Takes(g.handleSlot));
    keys' := Keys(keys.name[i := -1][i := NameKey(v)], keys.handle[i := -1][i := HandleKey(v)]);
  }

  /** A bucket entry is a record of the list whose value puts it there. */
  lemma BucketEntryListed(byName: Table, byHandle: Table, list: seq<FsEntry>, view: seq<Entry>, keys: Keys, b: nat, k: nat)
    returns (onName: int, onHandle: int)
    requires Tabled(byName, byHandle, list, view, keys) && b < HASH_TABLE_SIZE
    ensures k < |byName[b].entries| ==>
      && 0 <= onName < |list| == |view|
      && list[onName] == byName[b].entries[k] && view[onName].inName
    ensures k < |byHandle[b].entries| ==>
      && 0 <= onHandle < |list| == |view|
      && list[onHandle] == byHandle[b].entries[k] && view[onHandle].inHandle
  {
    onName, onHandle := -1, -1;
    if k < |byName[b].entries| {
      assert Keyed(list, keys.name, byName[b].entries[k], b);
      onName :| 0 <= onName < |list| && list[onName] == byName[b].entries[k] && keys.name[onName] == b;
    }
    if k < |byHandle[b].entries| {
      assert Keyed(list, keys.handle, byHandle[b].entries[k], b);
      onHandle :| 0 <= onHandle < |list| && list[onHandle] == byHandle[b].entries[k] && keys.handle[onHandle] == b;
    }
  }

  /** A record that a table holds is found in the bucket of its name or handle. */
  lemma ListedInBucket(byName: Table, byHandle: Table, list: seq<FsEntry>, view: seq<Entry>, keys: Keys, i: nat)
    requires Tabled(byName, byHandle, list, view, keys) && i < |list|
    ensures view[i].inName ==> list[i] in byName[NameBucket(view[i].name)].entries
    ensures view[i].inHandle ==> list[i] in byHandle[HandleBucket(view[i].handle)].entries
  {
  }

  /** While the list is short of the capacity limit, a bucket with memory takes every insertion. */
  lemma RoomyBucketTakes(byName: Table, byHandle: Table, list: seq<FsEntry>, view: seq<Entry>, keys: Keys, b: nat)
    requires Tabled(byName, byHandle, list, view, keys) && NoDuplicates(list)
    requires b < HASH_TABLE_SIZE && |list| < MAX_CAPACITY
    ensures byName[b].Takes(true) && byHandle[b].Takes(true)
  {
    forall k | 0 <= k < |byName[b].entries| ensures byName[b].entries[k] in list {
      assert Keyed(list, keys.name, byName[b].entries[k], b);
    }
    forall k | 0 <= k < |byHandle[b].entries| ensures byHandle[b].entries[k] in list {
      assert Keyed(list, keys.handle, byHandle[b].entries[k], b);
    }
    BucketNotLonger(byName[b].entries, list);
    BucketNotLonger(byHandle[b].entries, list);
  }

  // --- Walking the list ---

  /** `cur` is where the linked list has `left` records still to come. */
  ghost predicate AtRest(list: seq<FsEntry>, cur: FsEntry?, left: nat) {
    left <= |list| && cur == Newest(list[..left])
  }

  lemma StepRest(list: seq<FsEntry>, view: seq<Entry>, head: FsEntry?, cur: FsEntry?, left: nat)
    requires Links(list, view, head) && AtRest(list, cur, left)
    ensures cur == null <==> left == 0
    ensures left > 0 ==> cur == list[left - 1] && Shows(cur, view[left - 1]) && AtRest(list, cur.next, left - 1)
  {
    if left > 1 {
      assert list[left - 1].next == list[left - 2];
    }
  }

  /** A walk towards the oldest record that has visited, once each and newest first, the wanted ones from `left` on. */
  ghost predicate Walked(wanted: set<nat>, left: nat, visited: seq<nat>) {
    && (forall k :: 0 <= k < |visited| ==> visited[k] in wanted && visited[k] >= left)
    && (forall j, k :: 0 <= j < k < |visited| ==> visited[j] > visited[k])
    && (forall i: nat :: i in wanted && i >= left ==> i in visited)
  }

  lemma WalkedOn(wanted: set<nat>, left: nat, visited: seq<nat>, at: nat)
    requires Walked(wanted, left, visited) && at < left && at in wanted
    requires forall i: nat :: at < i < left ==> i !in wanted
    ensures Walked(wanted, at, visited + [at])
  {
  }

  lemma WalkedOff(wanted: set<nat>, left: nat, visited: seq<nat>)
    requires Walked(wanted, left, visited)
    requires forall i: nat :: i < left ==> i !in wanted
    ensures Walked(wanted, 0, visited)
  {
  }

  // --- Recording the operations ---

  ghost predicate Records(history: seq<Op>, view: seq<Entry>, next: u32) {
    Run(history).entries == view && Run(history).next == next
  }

  lemma RecordsStep(history: seq<Op>, view: seq<Entry>, next: u32, op: Op)
    requires Records(history, view, next)
    ensures var t := Apply(DbState(view, next, Run(history).adds), op); Records(history + [op], t.entries, t.next)
  {
    RunAppend(history, op);
  }

  lemma RecordsAdd(history: seq<Op>, view: seq<Entry>, next: u32, op: Op)
    requires Records(history, view, next) && op.Add?
    ensures Records(history + [op], view + [NewEntry(next, op.info, op.parent, op.storageId, op.inName, op.inHandle)],
                    (next + 1) % 0x1_0000_0000)
  {
    RecordsStep(history, view, next, op);
  }

  lemma RecordsAddRoot(history: seq<Op>, view: seq<Entry>, next: u32, op: Op)
    requires Records(history, view, next) && op.AddRoot?
    ensures Records(history + [op], view + [RootEntry(op.storageId, op.inName, op.inHandle)], next)
  {
    RecordsStep(history, view, next, op);
  }

  lemma RecordsRename(history: seq<Op>, view: seq<Entry>, next: u32, op: Op)
    requires Records(history, view, next) && op.Rename? && op.index < |view|
    ensures var v := view[op.index].(name := op.name, inName := op.inName, inHandle := op.inHandle);
      Records(history + [op], view[op.index := v], next)
  {
    RecordsStep(history, view, next, op);
  }

  class FsHandlesDb {
    const pool: Pool
    var byName: Table
    var byHandle: Table
    var entryList: FsEntry?
    var nextHandle: u32
    var searchEntry: FsEntry?
    var handleSearch: u32
    var storageSearch: u32

    ghost var list: seq<FsEntry>    // the records, oldest first: the linked list backwards
    ghost var view: seq<Entry>      // their values
    ghost var keys: Keys            // their buckets
    ghost var history: seq<Op>      // the operations that led here
    ghost var leaks: nat            // slots taken by roots whose name could not be copied

    ghost predicate Valid()
      reads this, pool, list
    {
      && Links(list, view, entryList)
      && pool.Valid() && Tallies(list, pool.Used(), leaks)
      && Tabled(byName, byHandle, list, view, keys)
      && Records(history, view, nextHandle)
    }

    constructor ()
      ensures Valid() && fresh(pool)
      ensures view == [] && history == [] && nextHandle == 1 && leaks == 0
      ensures forall b :: 0 <= b < 1024 ==> byName[b] == Bucket([], 0) && byHandle[b] == Bucket([], 0)
    {
      pool := new Pool();
      byName, byHandle := EMPTY_TABLE, EMPTY_TABLE;
      entryList, nextHandle, searchEntry, handleSearch, storageSearch := null, 1, null, 0, 0;
      list, view, history, leaks, keys := [], [], [], 0, Keys([], []);
    }

    /** Enters the record into both tables; says which of them took it. */
    method InsertEntry(e: FsEntry, g: Grants) returns (inName: bool, inHandle: bool)
      modifies this`byName, this`byHandle
      ensures var b := NameBucket(e.name); byName == old(byName)[b := old(byName[b]).Insert(e, g.nameSlot)]
      ensures var b := HandleBucket(e.handle); byHandle == old(byHandle)[b := old(byHandle[b]).Insert(e, g.handleSlot)]
      ensures inName == old(byName[NameBucket(e.name)]).Takes(g.nameSlot)
      ensures inHandle == old(byHandle[HandleBucket(e.handle)]).Takes(g.handleSlot)
    {
      var indexName := HashFunctionName(e.name);
      var indexHandle := HandleBucket(e.handle);
      inHandle := byHandle[indexHandle].Takes(g.handleSlot);
      inName := byName[indexName].Takes(g.nameSlot);
      byHandle := byHandle[indexHandle := byHandle[indexHandle].Insert(e, g.handleSlot)];
      byName := byName[indexName := byName[indexName].Insert(e, g.nameSlot)];
    }

    /** Enters a filled slot into the tables and links it in front of the list. */
    method LinkSlot(slot: FsEntry, ghost v: Entry, g: Grants) returns (ghost shown: Entry)
      requires Links(list, view, entryList) && Tabled(byName, byHandle, list, view, keys)
      requires slot !in list && Shows(slot, v)
      modifies this`byName, this`byHandle, this`entryList, this`list, this`view, this`keys, slot`next
      ensures shown == v.(inName := old(byName[NameBucket(v.name)]).Takes(g.nameSlot),
                          inHandle := old(byHandle[HandleBucket(v.handle)]).Takes(g.handleSlot))
      ensures list == old(list) + [slot] && view == old(view) + [shown]
      ensures Links(list, view, entryList) && Tabled(byName, byHandle, list, view, keys)
    {
      hide Links, Tabled;
      var inName, inHandle := InsertEntry(slot, g);
      slot.next, entryList := entryList, slot;
      shown := v.(inName := inName, inHandle := inHandle);
      LinksAppend(list, view, slot, shown);
      keys := TabledAppend(old(byName), old(byHandle), list, view, keys, slot, shown, g);
      list, view := list + [slot], view + [shown];
    }

    /** Takes a slot that no record occupies yet. */
    method GrabSlot(granted: bool) returns (slot: FsEntry?)
      requires Valid()
      modifies pool
      ensures pool.Valid() && Links(list, view, entryList)
      ensures forall k :: 0 <= k < |pool.slots| ==> pool.slots[k] in old(pool.slots) || fresh(pool.slots[k])
      ensures slot == null <==> old(pool.freeCount) == 0 && !granted
      ensures slot == null ==> pool.Used() == old(pool.Used())
      ensures slot != null ==>
        && slot !in list && (slot in old(pool.slots) || fresh(slot))
        && pool.Used() == old(pool.Used()) + [slot] && pool.freeCount < POOL_BLOCK_SIZE && pool.blocks != []
        && Tallies(list + [slot], pool.Used(), leaks) && Tallies(list, pool.Used(), leaks + 1)
    {
      hide Links, Tallies, Tabled, Records, Pool.Valid;
      slot := pool.Take(granted);
      if slot != null {
        TalliesAppend(list, old(pool.Used()), leaks, slot);
        TalliesLeak(list, old(pool.Used()), leaks, slot);
      }
    }

    /** Takes and fills a slot for a new record; undone when its name cannot be copied. */
    method FillSlot(info: FileInfo, parent: u32, storageId: u32, g: Grants) returns (slot: FsEntry?)
      requires Valid()
      modifies this`nextHandle, pool, pool.slots
      ensures pool.Valid() && Links(list, view, entryList)
      ensures forall k :: 0 <= k < |pool.slots| ==> pool.slots[k] in old(pool.slots) || fresh(pool.slots[k])
      ensures slot == null <==> (old(pool.freeCount) == 0 && !g.block) || !g.name
      ensures slot == null ==> pool.Used() == old(pool.Used()) && nextHandle == old(nextHandle)
      ensures slot != null ==>
        && slot !in list && (slot in old(pool.slots) || fresh(slot))
        && Tallies(list + [slot], pool.Used(), leaks)
        && Shows(slot, NewEntry(old(nextHandle), info, parent, storageId, false, false))
        && nextHandle == (old(nextHandle) + 1) % 0x1_0000_0000
    {
      hide Links, Tallies, Tabled, Records, Pool.Valid;
      slot := GrabSlot(g.block);
      if slot == null {
        return;
      }
      slot.Begin(nextHandle, parent, storageId);
      nextHandle := (nextHandle + 1) % 0x1_0000_0000;
      if !g.name {
        slot.Begin(0, 0, 0);
        pool.GiveBack();
        nextHandle := (nextHandle - 1) % 0x1_0000_0000;
        assert pool.Used() == old(pool.Used());
        return null;
      }
      slot.Finish(info.filename, info.size, info.isDirectory);
    }

    method AllocEntry(info: FileInfo, parent: u32, storageId: u32, g: Grants) returns (e: FsEntry?)
      requires Valid()
      modifies this, pool, pool.slots
      ensures Valid() && leaks == old(leaks)
      ensures searchEntry == old(searchEntry) && handleSearch == old(handleSearch) && storageSearch == old(storageSearch)
      ensures forall k :: 0 <= k < |pool.slots| ==> pool.slots[k] in old(pool.slots) || fresh(pool.slots[k])
      ensures e == null <==> (old(pool.freeCount) == 0 && !g.block) || !g.name
      ensures e == null ==>
        list == old(list) && view == old(view) && history == old(history) && nextHandle == old(nextHandle)
      ensures e == null ==> pool.Used() == old(pool.Used()) && byName == old(byName) && byHandle == old(byHandle)
      ensures e != null ==> |view| > 0 && list == old(list) + [e] && var v := view[|view| - 1];
        && v.inName == old(byName[NameBucket(info.filename)]).Takes(g.nameSlot)
        && v.inHandle == old(byHandle[HandleBucket(nextHandle)]).Takes(g.handleSlot)
        && view == old(view) + [NewEntry(old(nextHandle), info, parent, storageId, v.inName, v.inHandle)]
        && history == old(history) + [Add(info, parent, storageId, v.inName, v.inHandle)]
        && v.handle == old(nextHandle) && IsRecordOf(v, info, parent, storageId)
      ensures e != null ==>
        && e.handle == old(nextHandle) && e.parent == parent && e.storageId == storageId && e.name == info.filename
        && e.isDir == info.isDirectory && e.size == info.size && !e.deleted && e.watchDescriptor == -1
    {
      hide Links, Tallies, Tabled, Records, Pool.Valid, HashName, Run, Apply, Newest, Others;
      var slot := FillSlot(info, parent, storageId, g);
      if slot == null {
        return null;
      }
      ghost var v := LinkSlot(slot, NewEntry(old(nextHandle), info, parent, storageId, false, false), g);
      ghost var op := Add(info, parent, storageId, v.inName, v.inHandle);
      RecordsAdd(history, old(view), old(nextHandle), op);
      history := history + [op];
      return slot;
    }

    /** The entry of a storage's root. A failed name copy leaves its slot in use by nobody. */
    method AllocRootEntry(storageId: u32, g: Grants) returns (e: FsEntry?)
      requires Valid()
      modifies this, pool, pool.slots
      ensures Valid() && nextHandle == old(nextHandle)
      ensures forall k :: 0 <= k < |pool.slots| ==> pool.slots[k] in old(pool.slots) || fresh(pool.slots[k])
      ensures e == null <==> (old(pool.freeCount) == 0 && !g.block) || !g.name
      ensures e == null ==>
        && list == old(list) && view == old(view) && history == old(history)
        && byName == old(byName) && byHandle == old(byHandle)
      ensures leaks == old(leaks) + |pool.Used()| - |old(pool.Used())| - (if e == null then 0 else 1)
      ensures e != null ==> |view| > 0 && list == old(list) + [e] && var v := view[|view| - 1];
        && v.inName == old(byName[NameBucket(ROOT_NAME)]).Takes(g.nameSlot)
        && v.inHandle == old(byHandle[HandleBucket(0)]).Takes(g.handleSlot)
        && view == old(view) + [RootEntry(storageId, v.inName, v.inHandle)]
        && history == old(history) + [AddRoot(storageId, v.inName, v.inHandle)]
        && IsRecordOfRoot(v, storageId)
      ensures e != null ==>
        && e.handle == 0 && e.parent == 0 && e.storageId == storageId && e.name == [0x2F]
        && e.isDir && e.size == 1 && !e.deleted && e.watchDescriptor == -1
    {
      hide Links, Tallies, Tabled, Records, Pool.Valid, HashName, Run, Apply, Newest, Others;
      var slot := GrabSlot(g.block);
      if slot == null {
        return null;
      }
      slot.Begin(0, 0, storageId);
      if !g.name {
        leaks := leaks + 1;
        return null;
      }
      slot.Finish(ROOT_NAME, 1, true);
      ghost var v := LinkSlot(slot, RootEntry(storageId, false, false), g);
      RecordsAddRoot(history, old(view), nextHandle, AddRoot(storageId, v.inName, v.inHandle));
      history := history + [AddRoot(storageId, v.inName, v.inHandle)];
      return slot;
    }

    lemma ListShows(i: nat)
      requires Valid() && i < |list|
      ensures |list| == |view| && Shows(list[i], view[i])
    {
      hide Tabled, Tallies, Records, Pool.Valid;
    }

    lemma ListInPool()
      requires Valid()
      ensures forall i :: 0 <= i < |list| ==> list[i] in pool.slots
    {
      hide Links, Tabled, Records;
      assert forall e :: e in pool.Used() ==> e in pool.slots;
    }

    /** While no record was dropped, each one sits once in the bucket of its name, once in the bucket of its handle, and in no
        other; and the buckets hold nothing else. */
    lemma IndexedExactlyOnce(i: nat, b: nat)
      requires Valid() && AllHeld(view) && i < |list| && b < HASH_TABLE_SIZE
      ensures |list| == |view|
      ensures NoDuplicates(byName[b].entries) && NoDuplicates(byHandle[b].entries)
      ensures list[i] in byName[b].entries <==> b == NameBucket(view[i].name)
      ensures list[i] in byHandle[b].entries <==> b == HandleBucket(view[i].handle)
      ensures forall k :: 0 <= k < |byName[b].entries| ==> byName[b].entries[k] in list
      ensures forall k :: 0 <= k < |byHandle[b].entries| ==> byHandle[b].entries[k] in list
    {
      hide Records, Pool.Valid;
      TalliesDistinct(list, pool.Used(), leaks);
      LinksLength(list, view, entryList);
      hide Links, Tallies, Indexes;
      IndexMembers(byName, list, keys.name, i, b);
      IndexMembers(byHandle, list, keys.handle, i, b);
      assert view[i].inName && view[i].inHandle;
      BucketsListed(b);
    }

    lemma BucketsListed(b: nat)
      requires Valid() && b < HASH_TABLE_SIZE
      ensures NoDuplicates(byName[b].entries) && NoDuplicates(byHandle[b].entries)
      ensures forall k :: 0 <= k < |byName[b].entries| ==> byName[b].entries[k] in list
      ensures forall k :: 0 <= k < |byHandle[b].entries| ==> byHandle[b].entries[k] in list
    {
      hide Records, Pool.Valid, Links, Tallies;
      forall k | 0 <= k < |byName[b].entries| ensures byName[b].entries[k] in list {
        assert Keyed(list, keys.name, byName[b].entries[k], b);
      }
      forall k | 0 <= k < |byHandle[b].entries| ensures byHandle[b].entries[k] in list {
        assert Keyed(list, keys.handle, byHandle[b].entries[k], b);
      }
    }

    /** The records occupy distinct pool slots, and the slots in use are the records and the leaked ones. */
    lemma SlotsCounted()
      requires Valid()
      ensures NoDuplicates(list) && forall i :: 0 <= i < |list| ==> list[i] in pool.Used()
      ensures |list| + leaks == 1024 * |pool.blocks| - pool.freeCount
      ensures leaks == 0 ==> list == pool.Used()
    {
      hide Links, Tabled, Records;
    }

    // --- Lookups ---

    method FindEntry(name: Name, parent: u32, storageId: u32) returns (e: FsEntry?, ghost at: int)
      requires Valid()
      ensures e == null <==> !Known(view, name, parent, storageId)
      ensures AllHeld(view) ==> (e == null <==> !HasMatch(view, name, parent, storageId))
      ensures e != null ==>
        0 <= at < |list| && list[at] == e && view[at].inName && Matches(view[at], name, parent, storageId)
    {
      hide Indexes, Tallies, Records, Pool.Valid;
      var index := HashFunctionName(name);
      var node := byName[index];
      var i := 0;
      while i < |node.entries|
        invariant 0 <= i <= |node.entries|
        invariant forall k :: 0 <= k < i ==>
          !(node.entries[k].name == name && node.entries[k].parent == parent
            && node.entries[k].storageId == storageId && !node.entries[k].deleted)
      {
        var x := node.entries[i];
        if x.name == name && x.parent == parent && x.storageId == storageId && !x.deleted {
          ghost var onHandle;
          at, onHandle := BucketEntryListed(byName, byHandle, list, view, keys, index, i);
          return x, at;
        }
        i := i + 1;
      }
      forall k | 0 <= k < |view| ensures !(view[k].inName && Matches(view[k], name, parent, storageId)) {
        ListedInBucket(byName, byHandle, list, view, keys, k);
      }
      if AllHeld(view) {
        KnownIsMatch(view, name, parent, storageId);
      }
      return null, -1;
    }

    /** Through the table: the newest live entry with this handle whose storage is present. */
    method GetEntryByHandle(handle: u32, stores: set<u32>) returns (e: FsEntry?, ghost at: int)
      requires Valid()
      ensures e == null <==> Lookup(view, stores, handle) < 0
      ensures e != null ==> 0 <= at < |list| && list[at] == e && Resolvable(view[at], handle, stores)
      ensures e != null && handle != 0 && UniqueHandles(view) ==> at == Lookup(view, stores, handle)
    {
      hide Indexes, Tallies, Records, Pool.Valid;
      var index := HandleBucket(handle);
      var node := byHandle[index];
      var i := 0;
      while i < |node.entries|
        invariant 0 <= i <= |node.entries|
        invariant forall k :: 0 <= k < i ==>
          !(!node.entries[k].deleted && node.entries[k].handle == handle && node.entries[k].storageId in stores)
      {
        var x := node.entries[i];
        if !x.deleted && x.handle == handle && x.storageId in stores {
          ghost var onName;
          onName, at := BucketEntryListed(byName, byHandle, list, view, keys, index, i);
          return x, at;
        }
        i := i + 1;
      }
      if Lookup(view, stores, handle) >= 0 {
        ListedInBucket(byName, byHandle, list, view, keys, Lookup(view, stores, handle));
      }
      return null, -1;
    }

    /** Through the list: the newest live entry with this handle on this storage. */
    method GetEntryByHandleAndStorageId(handle: u32, storageId: u32) returns (e: FsEntry?)
      requires Valid()
      ensures var at := FirstLive(view, handle, storageId); e == if at < 0 then null else list[at]
    {
      hide Tabled, Tallies, Records, Pool.Valid;
      e := entryList;
      ghost var left: nat := |list|;
      assert list[..left] == list;
      while e != null
        invariant AtRest(list, e, left)
        invariant forall i :: left <= i < |view| ==> !IsLive(view[i], handle, storageId)
        decreases left
      {
        StepRest(list, view, entryList, e, left);
        if !e.deleted && e.handle == handle && e.storageId == storageId {
          return;
        }
        e := e.next;
        left := left - 1;
      }
      StepRest(list, view, entryList, e, left);
    }

    lemma RoomyTakes(b: nat)
      requires Valid() && |list| < MAX_CAPACITY && b < HASH_TABLE_SIZE
      ensures byName[b].Takes(true) && byHandle[b].Takes(true)
    {
      hide Links, Records, Indexes, Pool.Valid;
      RoomyBucketTakes(byName, byHandle, list, view, keys, b);
    }

    /** The record of this name below this parent, made if no table entry matches. With memory
        and room the new record is in both tables. */
    method AddEntry(info: FileInfo, parent: u32, storageId: u32, g: Grants) returns (e: FsEntry?, ghost at: int)
      requires Valid()
      modifies this, pool, pool.slots
      ensures Valid() && leaks == old(leaks) && |list| == |view|
      ensures forall k :: 0 <= k < |pool.slots| ==> pool.slots[k] in old(pool.slots) || fresh(pool.slots[k])
      ensures searchEntry == old(searchEntry) && handleSearch == old(handleSearch) && storageSearch == old(storageSearch)
      ensures var known := Known(old(view), info.filename, parent, storageId);
        && (known || e == null ==> list == old(list) && view == old(view) && history == old(history))
        && (e == null <==> !known && ((old(pool.freeCount) == 0 && !g.block) || !g.name))
        && (!known && e != null ==> |view| > 0 && list == old(list) + [e] && var v := view[|view| - 1];
            && (g.All() && |old(list)| < MAX_CAPACITY ==> v.inName && v.inHandle)
            && view == old(view) + [NewEntry(old(nextHandle), info, parent, storageId, v.inName, v.inHandle)]
            && history == old(history) + [Add(info, parent, storageId, v.inName, v.inHandle)]
            && v.handle == old(nextHandle) && v.parent == parent && v.storageId == storageId && v.name == info.filename
            && v.isDir == info.isDirectory && v.size == info.size && !v.deleted && v.watch == -1)
      ensures e != null ==> 0 <= at < |list| && list[at] == e && Matches(view[at], info.filename, parent, storageId)
    {
      hide Links, Tabled, Tallies, Records, Pool.Valid;
      e, at := FindEntry(info.filename, parent, storageId);
      if e == null {
        if |list| < MAX_CAPACITY {
          RoomyTakes(NameBucket(info.filename));
          RoomyTakes(HandleBucket(nextHandle));
        }
        e := AllocEntry(info, parent, storageId, g);
        at := |list| - 1;
      }
      LinksLength(list, view, entryList);
    }

    // --- Changes to one record ---

    lemma Detach(i: nat)
      requires Valid() && i < |list|
      ensures LinksBut(list, view, entryList, i) && list[i] !in Others(list, i) && |list| == |view|
      ensures Shows(list[i], view[i]) && list[i].next == Newest(list[..i])
    {
      hide Tabled, Records, Pool.Valid;
      LinksSplit(list, view, entryList, i);
    }

    method MarkDeleted(e: FsEntry, ghost i: nat)
      requires Valid() && i < |list| && list[i] == e
      modifies this`view, this`history, e`deleted, e`watchDescriptor
      ensures Valid() && |list| == |old(view)|
      ensures view == old(view)[i := Discarded(old(view)[i])] && history == old(history) + [Discard(i)]
      ensures e.deleted && e.watchDescriptor == -1
    {
      hide Links, LinksBut, Tallies, Tabled, Records, Pool.Valid;
      Detach(i);
      ghost var v := Discarded(view[i]);
      e.deleted, e.watchDescriptor := true, -1;
      LinksJoin(list, view, entryList, i, v);
      TabledUpdate(byName, byHandle, list, view, keys, i, v);
      RecordsStep(history, view, nextHandle, Discard(i));
      view, history := view[i := v], history + [Discard(i)];
    }

    method SetSize(e: FsEntry, size: int, ghost i: nat)
      requires Valid() && i < |list| && list[i] == e
      modifies this`view, this`history, e`size
      ensures Valid() && |list| == |old(view)|
      ensures view == old(view)[i := old(view)[i].(size := size)] && history == old(history) + [Resize(i, size)]
    {
      hide Links, LinksBut, Tallies, Tabled, Records, Pool.Valid;
      Detach(i);
      ghost var v := view[i].(size := size);
      e.size := size;
      LinksJoin(list, view, entryList, i, v);
      TabledUpdate(byName, byHandle, list, view, keys, i, v);
      RecordsStep(history, view, nextHandle, Resize(i, size));
      view, history := view[i := v], history + [Resize(i, size)];
    }

    method SetWatch(e: FsEntry, wd: int, ghost i: nat)
      requires Valid() && i < |list| && list[i] == e
      modifies this`view, this`history, e`watchDescriptor
      ensures Valid() && |list| == |old(view)|
      ensures view == old(view)[i := old(view)[i].(watch := wd)] && history == old(history) + [Op.Watch(i, wd)]
    {
      hide Links, LinksBut, Tallies, Tabled, Records, Pool.Valid;
      Detach(i);
      ghost var v := view[i].(watch := wd);
      e.watchDescriptor := wd;
      LinksJoin(list, view, entryList, i, v);
      TabledUpdate(byName, byHandle, list, view, keys, i, v);
      RecordsStep(history, view, nextHandle, Op.Watch(i, wd));
      view, history := view[i := v], history + [Op.Watch(i, wd)];
    }

    /** Takes the record out of both tables. */
    method RemoveEntry(e: FsEntry)
      modifies this`byName, this`byHandle
      ensures var b := NameBucket(e.name); byName == old(byName)[b := old(byName[b]).Remove(e)]
      ensures var b := HandleBucket(e.handle); byHandle == old(byHandle)[b := old(byHandle[b]).Remove(e)]
    {
      var indexName := HashFunctionName(e.name);
      var indexHandle := HandleBucket(e.handle);
      byName := byName[indexName := byName[indexName].Remove(e)];
      byHandle := byHandle[indexHandle := byHandle[indexHandle].Remove(e)];
    }

    /** Takes the record out of both tables, renames it and puts it back. */
    method Reindex(e: FsEntry, name: Name, g: Grants) returns (inName: bool, inHandle: bool)
      modifies this`byName, this`byHandle, e`name
      ensures e.name == name
      ensures var n, m := NameBucket(old(e.name)), NameBucket(name);
        var names := old(byName)[n := old(byName[n]).Remove(e)];
        && inName == names[m].Takes(g.nameSlot)
        && byName == names[m := names[m].Insert(e, g.nameSlot)]
      ensures var h := HandleBucket(e.handle);
        var handles := old(byHandle)[h := old(byHandle[h]).Remove(e)];
        && inHandle == handles[h].Takes(g.handleSlot)
        && byHandle == handles[h := handles[h].Insert(e, g.handleSlot)]
    {
      RemoveEntry(e);
      e.name := name;
      inName, inHandle := InsertEntry(e, g);
    }

    /** Re-indexes the record under its new name; each table may drop it. */
    method RenameEntry(e: FsEntry, name: Name, g: Grants, ghost i: nat)
      requires Valid() && i < |list| && list[i] == e
      modifies this`view, this`history, this`keys, this`byName, this`byHandle, e`name
      ensures Valid() && |list| == |old(view)|
      ensures |view| == |old(view)| && var v := view[i];
        && view == old(view)[i := old(view)[i].(name := name, inName := v.inName, inHandle := v.inHandle)]
        && history == old(history) + [Rename(i, name, v.inName, v.inHandle)]
        && (g.All() && |list| < MAX_CAPACITY ==> v.inName && v.inHandle)
    {
      hide Links, LinksBut, Tallies, Tabled, Records, Pool.Valid, HashName, Run, Apply, Without;
      if |list| < MAX_CAPACITY {
        RoomyTakes(NameBucket(name));
        RoomyTakes(HandleBucket(e.handle));
        RemoveKeepsRoom(byName[NameBucket(name)], e, true);
        RemoveKeepsRoom(byHandle[HandleBucket(e.handle)], e, true);
      }
      Detach(i);
      TalliesDistinct(list, pool.Used(), leaks);
      ghost var keys', v := TabledRename(byName, byHandle, list, view, keys, i, name, g);
      var inName, inHandle := Reindex(e, name, g);
      LinksJoin(list, view, entryList, i, v);
      RecordsRename(history, view, nextHandle, Rename(i, name, inName, inHandle));
      keys, view, history := keys', view[i := v], history + [Rename(i, name, inName, inHandle)];
    }
  }
}
