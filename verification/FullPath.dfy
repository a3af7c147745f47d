// Building an object's path by walking up its parents: once to measure, once to fill the
// buffer from the right.
module FullPath {
  import opened EntryModel
  import opened HashIndex
  import opened EntryPool
  import opened HandleDb
  import opened Wrappers

  const SLASH: bv8 := 0x2F

  /** The storages that are present, with their root paths. */
  type Roots = map<u32, Name>

  function Rank(handle: u32): nat {
    if handle == NO_PARENT then 0 else handle
  }

  /** "/" and the name for each ancestor from the top down to the directory with this handle. */
  function DirPath(es: seq<Entry>, stores: set<u32>, handle: u32): Name
    requires ParentsOlder(es)
    decreases Rank(handle)
  {
    if handle == 0 || handle == NO_PARENT then []
    else
      var j := Lookup(es, stores, handle);
      if j < 0 then [] else assert OlderParent(es[j]); DirPath(es, stores, es[j].parent) + [SLASH] + es[j].name
  }

  function EntryPath(es: seq<Entry>, stores: set<u32>, e: Entry): Name
    requires ParentsOlder(es)
  {
    DirPath(es, stores, e.parent) + [SLASH] + e.name
  }

  function RootOf(roots: Roots, storageId: u32): Name {
    if storageId in roots then roots[storageId] else []
  }

  // --- The chain of parents ---

  /** The record d is the directory that the handle table holds for e on a present storage. */
  predicate IsParentOf(e: Entry, d: Entry, stores: set<u32>) {
    && e.parent != 0 && e.parent != 0xFFFF_FFFF
    && d.handle == e.parent && !d.deleted && d.inHandle && d.storageId in stores
  }

  /** The records c[0], c[1], ... lead from an object to its outermost directory, which has no parent that can be found. */
  ghost predicate IsChain(es: seq<Entry>, stores: set<u32>, c: seq<nat>) {
    && c != [] && (forall k :: 0 <= k < |c| ==> c[k] < |es|)
    && (forall j, k :: 0 <= j < k < |c| && k == j + 1 ==> IsParentOf(es[c[j]], es[c[k]], stores))
    && forall i :: 0 <= i < |es| ==> !IsParentOf(es[c[|c| - 1]], es[i], stores)
  }

  /** A slash and the name of each record, the last of them first. */
  function NamesDown(es: seq<Entry>, c: seq<nat>): Name
    requires forall k :: 0 <= k < |c| ==> c[k] < |es|
  {
    if c == [] then [] else NamesDown(es, c[1..]) + [0x2F] + es[c[0]].name
  }

  lemma ParentIsLookup(es: seq<Entry>, stores: set<u32>, i: nat, j: nat)
    requires i < |es| && j < |es| && UniqueHandles(es) && IsParentOf(es[i], es[j], stores)
    ensures Lookup(es, stores, es[i].parent) == j
  {
    assert Resolvable(es[j], es[i].parent, stores);
  }

  lemma NoParentNoLookup(es: seq<Entry>, stores: set<u32>, i: nat)
    requires i < |es| && ParentsOlder(es) && forall j :: 0 <= j < |es| ==> !IsParentOf(es[i], es[j], stores)
    ensures DirPath(es, stores, es[i].parent) == []
  {
    var j := Lookup(es, stores, es[i].parent);
    assert j >= 0 ==> Resolvable(es[j], es[i].parent, stores);
  }

  lemma ChainAbove(es: seq<Entry>, stores: set<u32>, c: seq<nat>)
    requires IsChain(es, stores, c) && |c| > 1
    ensures IsChain(es, stores, c[1..]) && IsParentOf(es[c[0]], es[c[1]], stores)
  {
    var d := c[1..];
    forall j, k | 0 <= j < k < |d| && k == j + 1
      ensures IsParentOf(es[d[j]], es[d[k]], stores)
    {
      assert d[j] == c[j + 1] && d[k] == c[k + 1];
    }
    assert d[|d| - 1] == c[|c| - 1];
  }

  /** The path of an object is a slash and the name of each record of its chain, from the outermost directory down to it. */
  lemma {:induction false} PathFollowsChain(es: seq<Entry>, stores: set<u32>, c: seq<nat>)
    requires ParentsOlder(es) && UniqueHandles(es) && IsChain(es, stores, c)
    ensures EntryPath(es, stores, es[c[0]]) == NamesDown(es, c)
    ensures DirPath(es, stores, es[c[0]].parent) == NamesDown(es, c[1..])
    decreases |c|
  {
    if |c| == 1 {
      NoParentNoLookup(es, stores, c[0]);
    } else {
      ChainAbove(es, stores, c);
      PathFollowsChain(es, stores, c[1..]);
      ParentIsLookup(es, stores, c[0], c[1]);
    }
  }

  /** Every record has a chain, because parents are older. */
  lemma {:induction false} ChainOf(es: seq<Entry>, stores: set<u32>, i: nat) returns (c: seq<nat>)
    requires ParentsOlder(es) && i < |es|
    ensures IsChain(es, stores, c) && c[0] == i
    decreases Rank(es[i].parent)
  {
    c := [i];
    if j :| 0 <= j < |es| && IsParentOf(es[i], es[j], stores) {
      assert OlderParent(es[j]);
      var d := ChainOf(es, stores, j);
      c := [i] + d;
      ChainBelow(es, stores, i, d);
    }
  }

  lemma ChainBelow(es: seq<Entry>, stores: set<u32>, i: nat, d: seq<nat>)
    requires i < |es| && IsChain(es, stores, d) && IsParentOf(es[i], es[d[0]], stores)
    ensures IsChain(es, stores, [i] + d)
  {
    var c := [i] + d;
    forall j, k | 0 <= j < k < |c| && k == j + 1
      ensures IsParentOf(es[c[j]], es[c[k]], stores)
    {
      if j > 0 {
        assert c[j] == d[j - 1] && c[k] == d[k - 1];
      }
    }
    assert c[|c| - 1] == d[|d| - 1];
  }

  /** What stands below the root path when the object, called `name`, is reached along a chain of directories. */
  ghost predicate LeadsTo(es: seq<Entry>, stores: set<u32>, c: seq<nat>, i: nat, name: Name, below: Name) {
    IsChain(es, stores, c) && c[0] == i && below == NamesDown(es, c[1..]) + [0x2F] + name
  }

  ghost predicate RunsAlongChain(es: seq<Entry>, stores: set<u32>, i: nat, name: Name, below: Name) {
    exists c :: LeadsTo(es, stores, c, i, name, below)
  }

  lemma NamedRunsAlongChain(es: seq<Entry>, stores: set<u32>, i: nat, name: Name)
    requires ParentsOlder(es) && UniqueHandles(es) && i < |es|
    ensures RunsAlongChain(es, stores, i, name, NamedPath(es, stores, es[i], name))
  {
    var c := ChainOf(es, stores, i);
    PathFollowsChain(es, stores, c);
    hide IsChain, DirPath;
    assert LeadsTo(es, stores, c, i, name, NamedPath(es, stores, es[i], name));
  }

  /** On a present storage the whole path is the storage's root path and then the names of the chain. */
  lemma FullPathFollowsChain(es: seq<Entry>, roots: Roots, c: seq<nat>)
    requires ParentsOlder(es) && UniqueHandles(es) && IsChain(es, roots.Keys, c) && es[c[0]].storageId in roots
    ensures RootOf(roots, es[c[0]].storageId) + EntryPath(es, roots.Keys, es[c[0]]) == roots[es[c[0]].storageId] + NamesDown(es, c)
  {
    PathFollowsChain(es, roots.Keys, c);
  }

  lemma {:induction false} LookupSame(es: seq<Entry>, fs: seq<Entry>, stores: set<u32>, handle: u32)
    requires |es| == |fs|
    requires forall i :: 0 <= i < |es| ==> Resolvable(es[i], handle, stores) == Resolvable(fs[i], handle, stores)
    ensures Lookup(es, stores, handle) == Lookup(fs, stores, handle)
  {
    var j, k := Lookup(es, stores, handle), Lookup(fs, stores, handle);
    if j >= 0 {
      assert Resolvable(fs[j], handle, stores);
    }
    if k >= 0 {
      assert Resolvable(es[k], handle, stores);
    }
  }

  /** The path of a directory does not depend on the records below it. */
  lemma {:induction false} DirPathSame(es: seq<Entry>, fs: seq<Entry>, stores: set<u32>, handle: u32, bound: nat)
    requires ParentsOlder(es) && ParentsOlder(fs) && |es| == |fs| && Rank(handle) <= bound
    requires forall i :: 0 <= i < |es| && es[i].handle <= bound ==>
      es[i] == fs[i].(size := es[i].size, watch := es[i].watch)
    requires forall i :: 0 <= i < |es| ==> es[i].handle == fs[i].handle
    ensures DirPath(es, stores, handle) == DirPath(fs, stores, handle)
    decreases Rank(handle)
  {
    if handle != 0 && handle != NO_PARENT {
      LookupSame(es, fs, stores, handle);
      var j := Lookup(es, stores, handle);
      if j >= 0 {
        assert OlderParent(es[j]);
        DirPathSame(es, fs, stores, es[j].parent, bound);
      }
    }
  }

  lemma {:induction false} DirPathPrefix(es: seq<Entry>, fs: seq<Entry>, stores: set<u32>, handle: u32, bound: nat)
    requires es <= fs && ParentsOlder(es) && ParentsOlder(fs) && Rank(handle) < bound
    requires forall i :: |es| <= i < |fs| ==> fs[i].handle >= bound
    ensures DirPath(es, stores, handle) == DirPath(fs, stores, handle)
    decreases Rank(handle)
  {
    if handle != 0 && handle != NO_PARENT {
      LookupPrefix(es, fs, stores, handle);
      var j := Lookup(es, stores, handle);
      if j >= 0 {
        assert OlderParent(es[j]);
        DirPathPrefix(es, fs, stores, es[j].parent, bound);
      }
    }
  }

  lemma {:induction false} LookupPrefix(es: seq<Entry>, fs: seq<Entry>, stores: set<u32>, handle: u32)
    requires es <= fs && forall i :: |es| <= i < |fs| ==> fs[i].handle != handle
    ensures Lookup(es, stores, handle) == Lookup(fs, stores, handle)
  {
    var j, k := Lookup(es, stores, handle), Lookup(fs, stores, handle);
    if j >= 0 {
      assert Resolvable(fs[j], handle, stores);
    }
    if k >= 0 {
      assert Resolvable(es[k], handle, stores);
    }
  }

  /** The parent record to go on with, if the object has one that can be found. */
  method ParentOf(db: FsHandlesDb, e: FsEntry, stores: set<u32>, ghost i: nat) returns (up: FsEntry?, ghost j: int)
    requires db.Valid() && ParentsOlder(db.view) && UniqueHandles(db.view)
    requires i < |db.list| == |db.view| && db.list[i] == e
    ensures up == null ==> DirPath(db.view, stores, db.view[i].parent) == []
    ensures up != null ==>
      && 0 <= j < |db.list| && db.list[j] == up && Rank(db.view[j].parent) < Rank(db.view[i].parent)
      && DirPath(db.view, stores, db.view[i].parent) == EntryPath(db.view, stores, db.view[j])
  {
    hide Tallies, Tabled, Records, Pool.Valid, Indexes, UniqueHandles;
    if e.parent != 0 && e.parent != NO_PARENT {
      up, j := db.GetEntryByHandle(e.parent, stores);
      if up != null {
        assert OlderParent(db.view[j]);
      }
    } else {
      up, j := null, -1;
    }
  }

  /** What the path of this record would be if it were called `name`. */
  function NamedPath(es: seq<Entry>, stores: set<u32>, e: Entry, name: Name): Name
    requires ParentsOlder(es)
  {
    EntryPath(es, stores, e.(name := name))
  }

  lemma NamedAsIs(es: seq<Entry>, stores: set<u32>, e: Entry)
    requires ParentsOlder(es)
    ensures NamedPath(es, stores, e, e.name) == EntryPath(es, stores, e)
  {
    assert e.(name := e.name) == e;
  }

  /** First pass: how long the path of the object, called `name`, is. */
  method MeasurePath(db: FsHandlesDb, stores: set<u32>, e: FsEntry, name: Name, ghost i: nat) returns (totallen: nat)
    requires db.Valid() && ParentsOlder(db.view) && UniqueHandles(db.view)
    requires i < |db.list| == |db.view| && db.list[i] == e
    ensures totallen == |NamedPath(db.view, stores, db.view[i], name)|
  {
    hide Links, Tallies, Tabled, Records, Pool.Valid, Indexes, UniqueHandles, DirPath, Lookup;
    var cur: FsEntry? := e;
    var last := name;
    ghost var c: int := i;
    totallen := 0;
    while cur != null
      invariant cur != null ==> 0 <= c < |db.list| && db.list[c] == cur
      invariant totallen + (if cur != null then |NamedPath(db.view, stores, db.view[c], last)| else 0)
             == |NamedPath(db.view, stores, db.view[i], name)|
      decreases if cur != null then Rank(db.view[c].parent) + 1 else 0
    {
      totallen := totallen + |last| + 1;
      cur, c := ParentOf(db, cur, stores, c);
      if cur != null {
        db.ListShows(c);
        last := cur.name;
      }
    }
  }

  /** Writes "/" and the name so that they end at `end`. */
  method FillName(full: array<bv8>, end: nat, name: Name) returns (offset: nat)
    requires |name| + 1 <= end <= full.Length
    modifies full
    ensures offset == end - |name| - 1
    ensures full[offset..] == [SLASH] + name + old(full[end..])
  {
    offset := end - |name| - 1;
    forall k | 0 <= k < |name| {
      full[offset + 1 + k] := name[k];
    }
    full[offset] := SLASH;
    assert full[offset..] == [SLASH] + name + old(full[end..]);
  }

  /** Second pass: fills the buffer from the right, which ends exactly behind the root path. */
  method FillPath(db: FsHandlesDb, full: array<bv8>, stores: set<u32>, e: FsEntry, name: Name, ghost i: nat)
    returns (offset: nat)
    requires db.Valid() && ParentsOlder(db.view) && UniqueHandles(db.view)
    requires i < |db.list| == |db.view| && db.list[i] == e
    requires |NamedPath(db.view, stores, db.view[i], name)| <= full.Length
    modifies full
    ensures offset == full.Length - |NamedPath(db.view, stores, db.view[i], name)|
    ensures full[offset..] == NamedPath(db.view, stores, db.view[i], name)
  {
    hide Links, Tallies, Tabled, Records, Pool.Valid, Indexes, UniqueHandles, DirPath, Lookup;
    ghost var whole := NamedPath(db.view, stores, db.view[i], name);
    offset := full.Length;
    var cur: FsEntry? := e;
    var last := name;
    ghost var c: int := i;
    while cur != null
      invariant db.Valid()
      invariant cur != null ==> 0 <= c < |db.list| && db.list[c] == cur
      invariant offset <= full.Length
      invariant whole == (if cur != null then NamedPath(db.view, stores, db.view[c], last) else []) + full[offset..]
      decreases if cur != null then Rank(db.view[c].parent) + 1 else 0
    {
      ghost var above, tail := DirPath(db.view, stores, db.view[c].parent), full[offset..];
      assert |whole| == |above| + 1 + |last| + |tail|;
      offset := FillName(full, offset, last);
      assert whole == above + ([SLASH] + last + tail);
      cur, c := ParentOf(db, cur, stores, c);
      if cur != null {
        db.ListShows(c);
        last := cur.name;
      }
    }
  }

  /** The path of the object, called `name` for the purpose, below the storage's root path. */
  method BuildFullPath(db: FsHandlesDb, rootPath: Name, stores: set<u32>, e: FsEntry, name: Name, ghost i: nat)
    returns (path: Name)
    requires db.Valid() && ParentsOlder(db.view) && UniqueHandles(db.view)
    requires i < |db.list| == |db.view| && db.list[i] == e
    ensures path == rootPath + NamedPath(db.view, stores, db.view[i], name)
    ensures |rootPath| <= |path| && path[..|rootPath|] == rootPath
    ensures RunsAlongChain(db.view, stores, i, name, path[|rootPath|..])
  {
    hide Links, Tallies, Tabled, Records, Pool.Valid, Indexes, UniqueHandles, DirPath, Lookup, NamedPath,
         RunsAlongChain;
    var totallen := MeasurePath(db, stores, e, name, i);
    var full := new bv8[|rootPath| + totallen];
    var offset := FillPath(db, full, stores, e, name, i);
    ghost var filled := full[offset..];
    forall k | 0 <= k < |rootPath| {
      full[k] := rootPath[k];
    }
    assert full[..offset] == rootPath && full[offset..] == filled;
    path := full[..];
    assert path[|rootPath|..] == NamedPath(db.view, stores, db.view[i], name);
    NamedRunsAlongChain(db.view, stores, i, name);
  }
}
