// The two hash tables over database records: growable bucket vectors with insertion at the
// end and removal by shifting, and the hash functions that choose a bucket.
module HashIndex {
  import opened EntryModel
  import opened Wrappers

  const HASH_TABLE_SIZE: nat := 1024
  const INITIAL_NODE_CAPACITY: nat := 4
  const NODE_GROWTH_FACTOR: nat := 2
  // 0x80000000 / sizeof(fs_entry *): a vector this long refuses to grow further.
  const MAX_CAPACITY: nat := 0x2000_0000

  /** A database record. Pool slots are these objects; a slot is identified by its address. */
  class FsEntry {
    var handle: u32
    var parent: u32
    var storageId: u32
    var name: Name
    var isDir: bool
    var deleted: bool
    var size: int
    var watchDescriptor: int
    var next: FsEntry?

    constructor Zeroed()
      ensures handle == 0 && parent == 0 && storageId == 0 && name == [] && !isDir && !deleted
      ensures size == 0 && watchDescriptor == 0 && next == null
    {
      handle, parent, storageId, name, isDir, deleted := 0, 0, 0, [], false, false;
      size, watchDescriptor, next := 0, 0, null;
    }

    /** Clears the record and gives it its identity. */
    method Begin(handle: u32, parent: u32, storageId: u32)
      modifies this
      ensures this.handle == handle && this.parent == parent && this.storageId == storageId
      ensures name == [] && !isDir && !deleted && size == 0 && watchDescriptor == 0 && next == null
    {
      name, isDir, deleted, size, watchDescriptor, next := [], false, false, 0, 0, null;
      this.handle, this.parent, this.storageId := handle, parent, storageId;
    }

    /** Completes a record that was begun: nothing watches it yet. */
    method Finish(name: Name, size: int, isDir: bool)
      modifies this
      ensures this.name == name && this.size == size && this.isDir == isDir && watchDescriptor == -1
      ensures handle == old(handle) && parent == old(parent) && storageId == old(storageId)
      ensures deleted == old(deleted) && next == old(next)
    {
      this.name, this.size, this.isDir, watchDescriptor := name, size, isDir, -1;
    }
  }

  predicate NoDuplicates<T(==)>(s: seq<T>) {
    forall i, j :: 0 <= i < j < |s| ==> s[i] != s[j]
  }

  /** The sequence without the first occurrence of x. */
  function Without<T(==)>(s: seq<T>, x: T): (r: seq<T>)
    ensures x !in s ==> r == s
    ensures x in s ==> |r| == |s| - 1
  {
    if s == [] then [] else if s[0] == x then s[1..] else [s[0]] + Without(s[1..], x)
  }

  lemma {:induction false} WithoutAt<T>(s: seq<T>, x: T, k: nat)
    requires k < |s| && s[k] == x && x !in s[..k]
    ensures Without(s, x) == s[..k] + s[k + 1..]
  {
    if k > 0 {
      assert s[0] in s[..k];
      assert s[1..][..k - 1] == s[..k][1..];
      WithoutAt(s[1..], x, k - 1);
      assert s[1..][..k - 1] + s[1..][k..] == s[1..k] + s[k + 1..];
    }
  }

  /** Removing from a duplicate-free sequence removes exactly that element. */
  lemma {:induction false} WithoutMember<T>(s: seq<T>, x: T, y: T)
    requires NoDuplicates(s)
    ensures y in Without(s, x) <==> y in s && y != x
  {
    if s != [] {
      assert y in s <==> y == s[0] || y in s[1..];
      if s[0] != x {
        WithoutMember(s[1..], x, y);
      }
    }
  }

  lemma {:induction false} WithoutKeepsDistinct<T>(s: seq<T>, x: T)
    requires NoDuplicates(s)
    ensures NoDuplicates(Without(s, x))
  {
    if s != [] && s[0] != x {
      WithoutKeepsDistinct(s[1..], x);
      WithoutMember(s[1..], x, s[0]);
    }
  }

  // --- Hash functions ---

  function HashName(name: Name): u32 {
    if name == [] then 5381
    else (HashName(name[..|name| - 1]) * 33 + name[|name| - 1] as int) % 0x1_0000_0000
  }

  function NameBucket(name: Name): (r: nat)
    ensures r < HASH_TABLE_SIZE
  {
    HashName(name) % HASH_TABLE_SIZE
  }

  function HandleBucket(handle: u32): (r: nat)
    ensures r < HASH_TABLE_SIZE
  {
    handle % HASH_TABLE_SIZE
  }

  /** The hash of a longer name follows from that of the shorter one, in 32-bit arithmetic, and chooses one of 1024 buckets. */
  lemma HashOnward(name: Name, c: bv8)
    ensures HashName([]) == 5381 && HashName(name + [c]) == (33 * HashName(name) + c as int) % 0x1_0000_0000
    ensures NameBucket(name) == HashName(name) % 1024
  {
    assert (name + [c])[..|name|] == name;
  }

  method HashFunctionName(name: Name) returns (index: nat)
    ensures index == NameBucket(name)
  {
    var hash: u32 := 5381;
    var i := 0;
    while i < |name|
      invariant 0 <= i <= |name|
      invariant hash == HashName(name[..i])
    {
      assert name[..i + 1][..i] == name[..i];
      hash := (hash * 32 + hash + name[i] as int) % 0x1_0000_0000;
      i := i + 1;
    }
    assert name[..i] == name;
    index := hash % HASH_TABLE_SIZE;
  }

  // --- Buckets ---

  /** A growable vector: what it holds and how much it has room for. */
  datatype Bucket = Bucket(entries: seq<FsEntry>, capacity: nat) {
    predicate Full() {
      |entries| >= capacity
    }

    /** Whether an insertion finds room: in the vector itself, or by growing it. */
    predicate Takes(granted: bool) {
      !Full() || (granted && capacity < MAX_CAPACITY)
    }

    /** Appends the record; a vector that cannot grow drops it. */
    function Insert(e: FsEntry, granted: bool): Bucket {
      var grown := if capacity == 0 then INITIAL_NODE_CAPACITY
                   else if Full() then capacity * NODE_GROWTH_FACTOR else capacity;
      if Takes(granted) then Bucket(entries + [e], grown) else this
    }

    function Remove(e: FsEntry): Bucket {
      this.(entries := Without(entries, e))
    }
  }

  lemma RemoveKeepsRoom(b: Bucket, e: FsEntry, granted: bool)
    requires b.Takes(granted)
    ensures b.Remove(e).Takes(granted)
  {
  }

  /** A bucket as the program keeps it: a heap vector that is reallocated when it grows. */
  class HashNode {
    var entries: array?<FsEntry>
    var size: nat
    var capacity: nat

    ghost predicate Valid()
      reads this, entries
    {
      && size <= capacity
      && (if entries == null then capacity == 0 else capacity > 0 && entries.Length == capacity)
    }

    ghost function Value(): Bucket
      reads this, entries
      requires Valid()
    {
      Bucket(if entries == null then [] else entries[..size], capacity)
    }

    constructor ()
      ensures Valid() && Value() == Bucket([], 0)
    {
      entries, size, capacity := null, 0, 0;
    }

    method Insert(e: FsEntry, granted: bool)
      requires Valid()
      modifies this, entries
      ensures Valid() && (entries == old(entries) || fresh(entries))
      ensures Value() == old(Value()).Insert(e, granted)
      ensures old(capacity) == 0 ==> capacity == if granted then 4 else 0
    {
      if entries == null || capacity == 0 {
        if !granted {
          return;
        }
        entries := new FsEntry[INITIAL_NODE_CAPACITY](_ => e);
        capacity, size := INITIAL_NODE_CAPACITY, 0;
      }
      if size >= capacity {
        var grown := Expand(e, granted);
        if !grown {
          return;
        }
      }
      entries[size] := e;
      size := size + 1;
    }

    /** Doubles the vector; `filler` stands for the uninitialised tail. */
    method Expand(filler: FsEntry, granted: bool) returns (grown: bool)
      requires Valid() && entries != null
      modifies this
      ensures Valid() && entries != null && (entries == old(entries) || fresh(entries))
      ensures grown == (granted && old(capacity) < 0x2000_0000)
      ensures capacity == if grown then 2 * old(capacity) else old(capacity)
      ensures size == old(size) && entries[..size] == old(entries[..size])
    {
      if capacity >= MAX_CAPACITY || !granted {
        return false;
      }
      var newCapacity := capacity * NODE_GROWTH_FACTOR;
      var newEntries := new FsEntry[newCapacity](_ => filler);
      forall i | 0 <= i < size {
        newEntries[i] := entries[i];
      }
      assert newEntries[..size] == entries[..size];
      entries, capacity := newEntries, newCapacity;
      return true;
    }

    method Remove(e: FsEntry)
      requires Valid()
      modifies this, entries
      ensures Valid() && entries == old(entries)
      ensures Value() == old(Value()).Remove(e)
    {
      hide Without;
      if entries == null {
        return;
      }
      ghost var contents := entries[..size];
      var i := IndexOf(entries, e, size);
      assert entries[..i] == contents[..i];
      if i < size {
        WithoutAt(contents, e, i);
        assert entries[i + 1..size] == contents[i + 1..];
        ShiftForward(entries, i, size);
        size := size - 1;
      }
    }
  }

  /** Position of the first occurrence of e in a[..n], or n. */
  method IndexOf(a: array<FsEntry>, e: FsEntry, n: nat) returns (i: nat)
    requires n <= a.Length
    ensures i <= n && e !in a[..i] && (i < n ==> a[i] == e)
  {
    i := 0;
    while i < n && a[i] != e
      invariant i <= n && e !in a[..i]
    {
      assert a[..i + 1] == a[..i] + [a[i]];
      i := i + 1;
    }
  }

  /** Moves a[i + 1..n] one place forward, over a[i]. */
  method ShiftForward(a: array<FsEntry>, i: nat, n: nat)
    requires i < n <= a.Length
    modifies a
    ensures a[..n - 1] == old(a[..i]) + old(a[i + 1..n])
  {
    var j := i;
    while j < n - 1
      invariant i <= j <= n - 1
      invariant forall k :: i <= k < j ==> a[k] == old(a[k + 1])
      invariant forall k :: 0 <= k < i || j <= k < n ==> a[k] == old(a[k])
    {
      a[j] := a[j + 1];
      j := j + 1;
    }
  }

  // --- When a table indexes a list ---

  type Table = t: seq<Bucket> | |t| == HASH_TABLE_SIZE witness EMPTY_TABLE

  const EMPTY_TABLE: seq<Bucket> := seq(HASH_TABLE_SIZE, _ => Bucket([], 0))

  /** The buckets hold exactly the list elements that have a key: element i once, in bucket
      keys[i]; an element with key -1 is in no bucket, and nothing else is in any. */
  ghost predicate Indexes(t: Table, list: seq<FsEntry>, keys: seq<int>) {
    && |keys| == |list|
    && (forall b :: 0 <= b < |t| ==> NoDuplicates(t[b].entries))
    && (forall b, k :: 0 <= b < |t| && 0 <= k < |t[b].entries| ==> Keyed(list, keys, t[b].entries[k], b))
    && (forall i :: 0 <= i < |list| && keys[i] != -1 ==> 0 <= keys[i] < |t| && list[i] in t[keys[i]].entries)
  }

  ghost predicate Keyed(list: seq<FsEntry>, keys: seq<int>, x: FsEntry, b: int) {
    |keys| == |list| && exists i :: 0 <= i < |list| && list[i] == x && keys[i] == b
  }

  /** Each element sits in the bucket of its key and in no other. */
  lemma IndexMembers(t: Table, list: seq<FsEntry>, keys: seq<int>, i: nat, b: nat)
    requires Indexes(t, list, keys) && NoDuplicates(list) && i < |list| && b < |t|
    ensures list[i] in t[b].entries <==> keys[i] == b
  {
  }

  /** Appending x to the list and inserting it into bucket `key`, which may drop it. */
  lemma IndexAppend(t: Table, list: seq<FsEntry>, keys: seq<int>, x: FsEntry, key: nat, granted: bool)
    requires Indexes(t, list, keys) && x !in list && key < |t|
    ensures Indexes(t[key := t[key].Insert(x, granted)], list + [x],
                    keys + [if t[key].Takes(granted) then key else -1])
  {
    var t' := t[key := t[key].Insert(x, granted)];
    var list', keys' := list + [x], keys + [if t[key].Takes(granted) then key else -1];
    forall b, k | 0 <= b < |t'| && 0 <= k < |t'[b].entries|
      ensures Keyed(list', keys', t'[b].entries[k], b)
    {
      var y := t'[b].entries[k];
      if y in t[b].entries {
        assert Keyed(list, keys, y, b);
        var i :| 0 <= i < |list| && list[i] == y && keys[i] == b;
        assert list'[i] == y && keys'[i] == b;
      } else {
        assert list'[|list|] == y && keys'[|list|] == b;
      }
    }
    forall b | 0 <= b < |t'| ensures NoDuplicates(t'[b].entries) {
      assert x !in t[b].entries;
    }
  }

  /** Removing element i from its bucket; nothing happens if the bucket never held it. */
  lemma IndexRemove(t: Table, list: seq<FsEntry>, keys: seq<int>, i: nat, key: nat)
    requires Indexes(t, list, keys) && NoDuplicates(list)
    requires i < |list| && key < |t| && (keys[i] == -1 || keys[i] == key)
    ensures Indexes(t[key := t[key].Remove(list[i])], list, keys[i := -1])
  {
    WithoutKeepsDistinct(t[key].entries, list[i]);
    var t', keys' := t[key := t[key].Remove(list[i])], keys[i := -1];
    forall b, m | 0 <= b < |t'| && 0 <= m < |t'[b].entries|
      ensures Keyed(list, keys', t'[b].entries[m], b)
    {
      var y := t'[b].entries[m];
      assert y in t'[b].entries && y in t[b].entries && y != list[i] by {
        WithoutMember(t[key].entries, list[i], y);
        IndexMembers(t, list, keys, i, b);
      }
      assert Keyed(list, keys, y, b);
      var k :| 0 <= k < |list| && list[k] == y && keys[k] == b;
      assert keys'[k] == b;
    }
    forall k | 0 <= k < |list| && keys'[k] != -1 ensures list[k] in t'[keys'[k]].entries {
      WithoutMember(t[key].entries, list[i], list[k]);
    }
  }

  /** Inserting element i, which no bucket holds, into bucket `key`. */
  lemma IndexRestore(t: Table, list: seq<FsEntry>, keys: seq<int>, i: nat, key: nat, granted: bool)
    requires Indexes(t, list, keys) && NoDuplicates(list)
    requires i < |list| && keys[i] == -1 && key < |t|
    ensures Indexes(t[key := t[key].Insert(list[i], granted)], list,
                    keys[i := if t[key].Takes(granted) then key else -1])
  {
    var t' := t[key := t[key].Insert(list[i], granted)];
    var keys' := keys[i := if t[key].Takes(granted) then key else -1];
    forall b, m | 0 <= b < |t'| && 0 <= m < |t'[b].entries|
      ensures Keyed(list, keys', t'[b].entries[m], b)
    {
      var y := t'[b].entries[m];
      if y in t[b].entries {
        assert Keyed(list, keys, y, b);
        var k :| 0 <= k < |list| && list[k] == y && keys[k] == b;
        assert keys'[k] == b;
      } else {
        assert keys'[i] == b;
      }
    }
    forall b | 0 <= b < |t'| ensures NoDuplicates(t'[b].entries) {
      IndexMembers(t, list, keys, i, b);
    }
  }

  /** No bucket is longer than the list. */
  lemma {:induction false} BucketNotLonger(bucket: seq<FsEntry>, list: seq<FsEntry>)
    requires NoDuplicates(bucket) && NoDuplicates(list)
    requires forall k :: 0 <= k < |bucket| ==> bucket[k] in list
    ensures |bucket| <= |list|
  {
    if bucket != [] {
      var rest, left := bucket[1..], Without(list, bucket[0]);
      assert bucket[0] in list;
      WithoutKeepsDistinct(list, bucket[0]);
      forall k | 0 <= k < |rest| ensures rest[k] in left {
        WithoutMember(list, bucket[0], rest[k]);
      }
      BucketNotLonger(rest, left);
    }
  }
}
