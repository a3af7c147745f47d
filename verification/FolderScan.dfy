// Synchronising the records below one directory with what the file system holds: add what the
// listing shows, then drop what no longer exists.
module FolderScan {
  import opened EntryModel
  import opened HashIndex
  import opened EntryPool
  import opened HandleDb
  import opened FullPath
  import opened Wrappers

  const DOT: bv8 := 0x2E

  /** What asking the file system about a full path comes to: no acceptable path could be
      built, there is nothing there, or an object of some size is. */
  datatype Probe = NoPath | Gone | Present(size: int)

  predicate Visible(name: Name, showHidden: bool) {
    name != [DOT, DOT] && name != [DOT] && (showHidden || name == [] || name[0] != DOT)
  }

  // --- The scan on values ---

  function AddStep(s: DbState, info: FileInfo, parent: u32, storageId: u32): DbState {
    if HasMatch(s.entries, info.filename, parent, storageId) then s
    else Apply(s, Add(info, parent, storageId, true, true))
  }

  function ScanAdds(s: DbState, files: seq<FileInfo>, showHidden: bool, parent: u32, storageId: u32): DbState {
    if files == [] then s
    else
      var before := ScanAdds(s, files[..|files| - 1], showHidden, parent, storageId);
      var last := files[|files| - 1];
      if Visible(last.filename, showHidden) then AddStep(before, last, parent, storageId) else before
  }

  function Swept(e: Entry, parent: u32, storageId: u32, dir: Name, probe: Name -> Probe): Entry {
    if !IsChild(e, parent, storageId) then e
    else match probe(dir + [SLASH] + e.name)
      case NoPath => e
      case Gone => Discarded(e)
      case Present(size) => e.(size := size)
  }

  predicate IsSweep(es: seq<Entry>, fs: seq<Entry>, parent: u32, storageId: u32, dir: Name, probe: Name -> Probe) {
    |es| == |fs| && forall i :: 0 <= i < |es| ==> fs[i] == Swept(es[i], parent, storageId, dir, probe)
  }

  // --- What a scan is scanned against ---

  predicate HasChild(es: seq<Entry>, name: Name, parent: u32, storageId: u32) {
    exists i :: 0 <= i < |es| && IsChild(es[i], parent, storageId) && es[i].name == name
  }

  predicate Lists(files: seq<FileInfo>, name: Name, showHidden: bool) {
    Visible(name, showHidden) && exists k :: 0 <= k < |files| && files[k].filename == name
  }

  /** The handles are in order, the directory exists, no counter comes round during the scan,
      and "/" is the name of storage roots only, which no listing contains. */
  predicate Scannable(s: DbState, files: seq<FileInfo>, parent: u32) {
    && s.next == 1 + s.adds && s.adds + |files| < MAX_ADDS
    && HandlesOrdered(s.entries, s.next) && ParentsOlder(s.entries)
    && (parent < s.next || parent == NO_PARENT)
    && (forall i :: 0 <= i < |s.entries| && s.entries[i].handle == s.entries[i].parent ==> s.entries[i].name == ROOT_NAME)
    && (forall k :: 0 <= k < |files| ==> files[k].filename != ROOT_NAME)
  }

  /** Every run that adds below existing parents and renames no root leads to such a database. */
  lemma RunIsScannable(ops: seq<Op>, files: seq<FileInfo>, parent: u32)
    requires Run(ops).adds + |files| < 0xFFFF_FFFF && Grounded(ops)
    requires forall i :: 0 <= i < |ops| ==> RenamesNoRoot(Run(ops[..i]), ops[i])
    requires parent < Run(ops).next || parent == NO_PARENT
    requires forall k :: 0 <= k < |files| ==> files[k].filename != ROOT_NAME
    ensures Scannable(Run(ops), files, parent)
  {
    RunOrdersHandles(ops);
    RunKeepsParentsOlder(ops);
    RunKeepsRootNames(ops);
    var es := Run(ops).entries;
    hide Run, Grounded, RenamesNoRoot, UniqueHandles;
    forall i | 0 <= i < |es| && es[i].handle == es[i].parent ensures es[i].name == ROOT_NAME {
      assert OlderParent(es[i]);
    }
    hide HandlesOrdered, ParentsOlder;
  }

  lemma MatchIsChild(s: DbState, files: seq<FileInfo>, name: Name, parent: u32, storageId: u32)
    requires Scannable(s, files, parent) && name != ROOT_NAME
    ensures HasMatch(s.entries, name, parent, storageId) <==> HasChild(s.entries, name, parent, storageId)
  {
    if HasMatch(s.entries, name, parent, storageId) {
      var i :| 0 <= i < |s.entries| && Matches(s.entries[i], name, parent, storageId);
      assert IsChild(s.entries[i], parent, storageId);
    }
    if HasChild(s.entries, name, parent, storageId) {
      var i :| 0 <= i < |s.entries| && IsChild(s.entries[i], parent, storageId) && s.entries[i].name == name;
      assert Matches(s.entries[i], name, parent, storageId);
    }
  }

  /** One add: old records stay, the name is a child afterwards, no other child name appears. */
  lemma AddStepChildren(s: DbState, files: seq<FileInfo>, info: FileInfo, parent: u32, storageId: u32, name: Name)
    requires Scannable(s, files, parent) && |files| > 0 && info.filename != ROOT_NAME
    ensures var t := AddStep(s, info, parent, storageId);
      && s.entries <= t.entries && t.adds <= s.adds + 1 && Scannable(t, files[..|files| - 1], parent)
      && (HasChild(t.entries, name, parent, storageId) <==>
            HasChild(s.entries, name, parent, storageId) || name == info.filename)
      && (t == s <==> HasChild(s.entries, info.filename, parent, storageId))
  {
    MatchIsChild(s, files, info.filename, parent, storageId);
    var t := AddStep(s, info, parent, storageId);
    if t != s {
      var op := Add(info, parent, storageId, true, true);
      StepOrdersHandles(s, op);
      StepKeepsParentsOlder(s, op);
      var n := |s.entries|;
      assert t.entries[n].name == info.filename && IsChild(t.entries[n], parent, storageId);
      if HasChild(s.entries, name, parent, storageId) {
        var i :| 0 <= i < n && IsChild(s.entries[i], parent, storageId) && s.entries[i].name == name;
        assert t.entries[i] == s.entries[i];
      }
    }
  }

  /** The first half of a scan adds exactly the visible names that were missing. */
  lemma {:induction false} ScanAddsChildren(s: DbState, files: seq<FileInfo>, showHidden: bool, parent: u32,
                                            storageId: u32, name: Name)
    requires Scannable(s, files, parent)
    ensures var t := ScanAdds(s, files, showHidden, parent, storageId);
      && s.entries <= t.entries && t.adds <= s.adds + |files| && Scannable(t, [], parent)
      && (HasChild(t.entries, name, parent, storageId) <==>
            HasChild(s.entries, name, parent, storageId) || Lists(files, name, showHidden))
  {
    if files != [] {
      var init, last := files[..|files| - 1], files[|files| - 1];
      ScanAddsChildren(s, init, showHidden, parent, storageId, name);
      var before := ScanAdds(s, init, showHidden, parent, storageId);
      assert Lists(files, name, showHidden) <==>
        Lists(init, name, showHidden) || (Visible(name, showHidden) && name == last.filename);
      if Visible(last.filename, showHidden) {
        AddStepChildren(before, [last], last, parent, storageId, name);
      }
    }
  }

  /** The second half drops exactly the children that are gone. */
  lemma SweepChildren(es: seq<Entry>, fs: seq<Entry>, parent: u32, storageId: u32, dir: Name, probe: Name -> Probe, name: Name)
    requires IsSweep(es, fs, parent, storageId, dir, probe)
    ensures HasChild(fs, name, parent, storageId) <==>
      HasChild(es, name, parent, storageId) && probe(dir + [SLASH] + name) != Gone
  {
    if HasChild(fs, name, parent, storageId) {
      var i :| 0 <= i < |fs| && IsChild(fs[i], parent, storageId) && fs[i].name == name;
      assert IsChild(es[i], parent, storageId) && es[i].name == name;
    }
    if HasChild(es, name, parent, storageId) && probe(dir + [SLASH] + name) != Gone {
      var i :| 0 <= i < |es| && IsChild(es[i], parent, storageId) && es[i].name == name;
      assert IsChild(fs[i], parent, storageId) && fs[i].name == name;
    }
  }

  /** A scan is a synchronisation: afterwards the live children are exactly the old ones and the listed ones that do not turn out
      gone. "." and ".." do not count as listed, and hidden names, those with a leading dot, only when they are to be shown. */
  lemma ScanSynchronises(s: DbState, files: seq<FileInfo>, showHidden: bool, parent: u32, storageId: u32,
                         dir: Name, probe: Name -> Probe, after: seq<Entry>, name: Name)
    requires Scannable(s, files, parent)
    requires IsSweep(ScanAdds(s, files, showHidden, parent, storageId).entries, after, parent, storageId, dir, probe)
    ensures HasChild(after, name, parent, storageId) <==>
      && probe(dir + [0x2F] + name) != Gone
      && (|| HasChild(s.entries, name, parent, storageId)
          || (&& name != [0x2E] && name != [0x2E, 0x2E] && (showHidden || name == [] || name[0] != 0x2E)
              && exists k :: 0 <= k < |files| && files[k].filename == name))
  {
    ScanAddsChildren(s, files, showHidden, parent, storageId, name);
    SweepChildren(ScanAdds(s, files, showHidden, parent, storageId).entries, after, parent, storageId, dir, probe, name);
  }

  /** The directory itself and its parent never become children. */
  lemma DotsStayOut(s: DbState, files: seq<FileInfo>, showHidden: bool, parent: u32, storageId: u32, dir: Name,
                    probe: Name -> Probe, after: seq<Entry>, name: Name)
    requires Scannable(s, files, parent) && (name == [0x2E] || name == [0x2E, 0x2E])
    requires IsSweep(ScanAdds(s, files, showHidden, parent, storageId).entries, after, parent, storageId, dir, probe)
    ensures HasChild(after, name, parent, storageId) ==> HasChild(s.entries, name, parent, storageId)
  {
    ScanSynchronises(s, files, showHidden, parent, storageId, dir, probe, after, name);
  }

  /** Old records keep their place, handle and name; those outside the directory do not change
      at all, and a child still live shows the size the file system reports, if it has a path. */
  lemma ScanKeepsRecords(s: DbState, files: seq<FileInfo>, showHidden: bool, parent: u32, storageId: u32,
                         dir: Name, probe: Name -> Probe, after: seq<Entry>, i: nat)
    requires Scannable(s, files, parent) && i < |s.entries|
    requires IsSweep(ScanAdds(s, files, showHidden, parent, storageId).entries, after, parent, storageId, dir, probe)
    ensures i < |after| && after[i].handle == s.entries[i].handle && after[i].name == s.entries[i].name
    ensures !IsChild(s.entries[i], parent, storageId) ==> after[i] == s.entries[i]
    ensures IsChild(after[i], parent, storageId) ==>
      match probe(dir + [SLASH] + after[i].name)
      case NoPath => after[i].size == s.entries[i].size
      case Gone => false
      case Present(size) => after[i].size == size
  {
    ScanAddsChildren(s, files, showHidden, parent, storageId, []);
    var mid := ScanAdds(s, files, showHidden, parent, storageId).entries;
    assert mid[i] == s.entries[i];
    assert after[i] == Swept(mid[i], parent, storageId, dir, probe);
  }

  // --- Scanning again ---

  lemma {:induction false} ScanAddsGrows(s: DbState, files: seq<FileInfo>, showHidden: bool, parent: u32, storageId: u32)
    requires Scannable(s, files, parent)
    ensures var t := ScanAdds(s, files, showHidden, parent, storageId);
      t == s <==> forall k :: 0 <= k < |files| && Visible(files[k].filename, showHidden) ==>
                    HasChild(s.entries, files[k].filename, parent, storageId)
    ensures |s.entries| <= |ScanAdds(s, files, showHidden, parent, storageId).entries|
    ensures ScanAdds(s, files, showHidden, parent, storageId) != s ==>
      |s.entries| < |ScanAdds(s, files, showHidden, parent, storageId).entries|
  {
    hide HasChild, Visible, HasMatch, ParentsOlder, HandlesOrdered;
    if files != [] {
      var init, last := files[..|files| - 1], files[|files| - 1];
      ScanAddsGrows(s, init, showHidden, parent, storageId);
      ScanAddsChildren(s, init, showHidden, parent, storageId, last.filename);
      var before := ScanAdds(s, init, showHidden, parent, storageId);
      if Visible(last.filename, showHidden) {
        AddStepChildren(before, [last], last, parent, storageId, last.filename);
      }
      assert forall k :: 0 <= k < |init| ==> files[k] == init[k];
    }
  }

  lemma SweepStays(s: DbState, files: seq<FileInfo>, parent: u32, storageId: u32, dir: Name, probe: Name -> Probe, after: seq<Entry>)
    requires Scannable(s, files, parent) && IsSweep(s.entries, after, parent, storageId, dir, probe)
    ensures Scannable(s.(entries := after), files, parent)
    ensures IsSweep(after, after, parent, storageId, dir, probe)
  {
    forall i | 0 <= i < |after| ensures OlderParent(after[i]) {
      assert OlderParent(s.entries[i]);
    }
  }

  /** A second scan of an unchanged directory changes nothing, exactly when no visible name of
      the listing turns out gone; such a name is added and dropped afresh each time. */
  lemma RescanChangesNothing(s: DbState, files: seq<FileInfo>, showHidden: bool, parent: u32, storageId: u32,
                             dir: Name, probe: Name -> Probe, after: seq<Entry>, again: seq<Entry>)
    requires Scannable(s, files + files, parent)
    requires var mid := ScanAdds(s, files, showHidden, parent, storageId);
      && IsSweep(mid.entries, after, parent, storageId, dir, probe)
      && IsSweep(ScanAdds(mid.(entries := after), files, showHidden, parent, storageId).entries,
                 again, parent, storageId, dir, probe)
    ensures again == after <==>
      forall k :: 0 <= k < |files| && Visible(files[k].filename, showHidden) ==>
        probe(dir + [SLASH] + files[k].filename) != Gone
  {
    forall k | 0 <= k < |files| ensures files[k].filename != ROOT_NAME {
      assert files[k] == (files + files)[k];
    }
    ScanAddsChildren(s, files, showHidden, parent, storageId, []);
    var mid := ScanAdds(s, files, showHidden, parent, storageId);
    assert Scannable(mid, files, parent);
    SweepStays(mid, files, parent, storageId, dir, probe, after);
    var next := mid.(entries := after);
    ScanAddsGrows(next, files, showHidden, parent, storageId);
    forall k | 0 <= k < |files| && Visible(files[k].filename, showHidden)
      ensures HasChild(after, files[k].filename, parent, storageId) <==> probe(dir + [SLASH] + files[k].filename) != Gone
    {
      ScanSynchronises(s, files, showHidden, parent, storageId, dir, probe, after, files[k].filename);
      assert Lists(files, files[k].filename, showHidden);
    }
    if ScanAdds(next, files, showHidden, parent, storageId) == next {
      assert forall i :: 0 <= i < |after| ==> again[i] == after[i];
    }
  }

  /** The program lists only names whose path below the scanned base stats. While that base is the recorded path of the directory,
      a second scan of an unchanged directory therefore changes nothing. */
  lemma RescanOfListingIsStable(s: DbState, files: seq<FileInfo>, showHidden: bool, parent: u32, storageId: u32, base: Name,
                                dir: Name, probe: Name -> Probe, after: seq<Entry>, again: seq<Entry>)
    requires Scannable(s, files + files, parent)
    requires var mid := ScanAdds(s, files, showHidden, parent, storageId);
      && IsSweep(mid.entries, after, parent, storageId, dir, probe)
      && IsSweep(ScanAdds(mid.(entries := after), files, showHidden, parent, storageId).entries,
                 again, parent, storageId, dir, probe)
    requires base == dir && forall k :: 0 <= k < |files| ==> probe(base + [SLASH] + files[k].filename).Present?
    ensures again == after
  {
    RescanChangesNothing(s, files, showHidden, parent, storageId, dir, probe, after, again);
  }

  const GHOST_FILE: FileInfo := FileInfo([0x61], false, 0)
  const GHOST_RECORD: Entry := Discarded(NewEntry(1, GHOST_FILE, 0, 1, true, true))

  /** A listed name that is gone when the records are swept leaves one more dropped record behind at each scan. */
  lemma RescanOfGoneName()
    ensures var probe := (path: Name) => Gone;
      var s, files := EMPTY, [GHOST_FILE];
      var mid := ScanAdds(s, files, false, 0, 1);
      var after := [GHOST_RECORD];
      var again := [GHOST_RECORD, GHOST_RECORD.(handle := 2)];
      && Scannable(s, files + files, 0) && IsSweep(mid.entries, after, 0, 1, [], probe)
      && IsSweep(ScanAdds(mid.(entries := after), files, false, 0, 1).entries, again, 0, 1, [], probe)
      && again != after
  {
    var files := [GHOST_FILE];
    assert files[..|files| - 1] == [];
    assert Visible(GHOST_FILE.filename, false) && !HasMatch([], GHOST_FILE.filename, 0, 1);
    assert ScanAdds(EMPTY, [], false, 0, 1) == EMPTY;
    var mid := ScanAdds(EMPTY, files, false, 0, 1);
    assert mid.entries == [NewEntry(1, GHOST_FILE, 0, 1, true, true)];
    assert mid == DbState([NewEntry(1, GHOST_FILE, 0, 1, true, true)], 2, 1);
    var next := mid.(entries := [GHOST_RECORD]);
    assert !HasMatch(next.entries, GHOST_FILE.filename, 0, 1);
    assert ScanAdds(next, files, false, 0, 1).entries == [GHOST_RECORD, NewEntry(2, GHOST_FILE, 0, 1, true, true)];
  }

  // --- The scan on the database ---

  method InitSearchHandle(db: FsHandlesDb, parent: u32, storageId: u32)
    requires db.Valid()
    modifies db`searchEntry, db`handleSearch, db`storageSearch
    ensures db.Valid() && db.handleSearch == parent && db.storageSearch == storageId
    ensures AtRest(db.list, db.searchEntry, |db.list|)
  {
    hide Tallies, Tabled, Records, Pool.Valid;
    db.searchEntry, db.handleSearch, db.storageSearch := db.entryList, parent, storageId;
    assert db.list[..|db.list|] == db.list;
  }

  /** The next live child at or behind the cursor; the cursor moves just past it. */
  method GetNextChildHandle(db: FsHandlesDb, ghost left: nat) returns (e: FsEntry?, ghost at: nat)
    requires db.Valid() && AtRest(db.list, db.searchEntry, left)
    modifies db`searchEntry
    ensures db.Valid() && |db.list| == |db.view|
    ensures e == null ==> at == 0 && db.searchEntry == null
    ensures e != null ==>
      at < left && db.list[at] == e && IsChild(db.view[at], db.handleSearch, db.storageSearch)
    ensures forall i :: (if e == null then 0 else at + 1) <= i < left ==>
      !IsChild(db.view[i], db.handleSearch, db.storageSearch)
    ensures AtRest(db.list, db.searchEntry, at)
  {
    hide Links, Tallies, Tabled, Records, Pool.Valid;
    LinksLength(db.list, db.view, db.entryList);
    e, at := db.searchEntry, left;
    while e != null
      invariant at <= left && AtRest(db.list, e, at)
      invariant forall i :: at <= i < left ==> !IsChild(db.view[i], db.handleSearch, db.storageSearch)
      decreases at
    {
      StepRest(db.list, db.view, db.entryList, e, at);
      if !e.deleted && e.parent == db.handleSearch && e.storageId == db.storageSearch && e.handle != e.parent {
        db.searchEntry := e.next;
        at := at - 1;
        return;
      }
      e := e.next;
      at := at - 1;
    }
    StepRest(db.list, db.view, db.entryList, e, at);
    db.searchEntry := null;
  }

  /** Memory is available throughout and no bucket can reach its limit. */
  ghost predicate Plenty(grants: nat -> Grants, n: nat, records: nat) {
    (forall k: nat :: k < n ==> grants(k).All()) && records + n < MAX_CAPACITY
  }

  /** A record of a visible name of the listing. */
  predicate Listed(e: Entry, files: seq<FileInfo>, showHidden: bool, parent: u32, storageId: u32) {
    && e.name != [0x2E] && e.name != [0x2E, 0x2E] && (showHidden || e.name == [] || e.name[0] != 0x2E)
    && exists k :: 0 <= k < |files| && IsRecordOf(e, files[k], parent, storageId)
  }

  /** What holds however the allocations turn out: only records of visible names that no lookup finds are added, behind the
      others, and every name for whose record there was memory has one. */
  ghost predicate Extends(before: DbState, after: DbState, files: seq<FileInfo>, showHidden: bool, parent: u32, storageId: u32,
                          grants: nat -> Grants) {
    && before.entries <= after.entries && |after.entries| <= |before.entries| + |files|
    && before.next <= after.next && before.adds <= after.adds <= before.adds + |files|
    && ParentsOlder(after.entries)
    && (forall i :: |before.entries| <= i < |after.entries| ==>
          && after.entries[i].handle >= before.next && Listed(after.entries[i], files, showHidden, parent, storageId)
          && !Known(before.entries, after.entries[i].name, parent, storageId))
    && (forall k: nat :: k < |files| && Visible(files[k].filename, showHidden) && grants(k).block && grants(k).name ==>
          HasMatch(after.entries, files[k].filename, parent, storageId))
  }

  /** At most one record is added, that of the object. */
  ghost predicate OneMore(before: DbState, after: DbState, info: FileInfo, parent: u32, storageId: u32) {
    || after == before
    || (&& !Known(before.entries, info.filename, parent, storageId)
        && exists inName, inHandle :: after == Apply(before, Add(info, parent, storageId, inName, inHandle)))
  }

  lemma ListedOn(e: Entry, files: seq<FileInfo>, last: FileInfo, showHidden: bool, parent: u32, storageId: u32)
    ensures Listed(e, files, showHidden, parent, storageId) ==> Listed(e, files + [last], showHidden, parent, storageId)
    ensures Visible(last.filename, showHidden) && IsRecordOf(e, last, parent, storageId) ==>
      Listed(e, files + [last], showHidden, parent, storageId)
  {
    if Listed(e, files, showHidden, parent, storageId) {
      var k :| 0 <= k < |files| && IsRecordOf(e, files[k], parent, storageId);
      assert (files + [last])[k] == files[k];
    }
    assert (files + [last])[|files|] == last;
  }

  lemma ExtendsOn(start: DbState, s: DbState, t: DbState, files: seq<FileInfo>, last: FileInfo, showHidden: bool,
                  parent: u32, storageId: u32, grants: nat -> Grants)
    requires Extends(start, s, files, showHidden, parent, storageId, grants) && ParentsOlder(t.entries)
    requires if Visible(last.filename, showHidden) then OneMore(s, t, last, parent, storageId) else t == s
    requires s.next == 1 + s.adds && t.next == 1 + t.adds
    requires Visible(last.filename, showHidden) && grants(|files|).block && grants(|files|).name ==>
      HasMatch(t.entries, last.filename, parent, storageId)
    ensures Extends(start, t, files + [last], showHidden, parent, storageId, grants)
  {
    hide ParentsOlder, HasMatch, Visible, Listed, Known;
    var all := files + [last];
    forall i | |start.entries| <= i < |t.entries|
      ensures t.entries[i].handle >= start.next && Listed(t.entries[i], all, showHidden, parent, storageId)
      ensures !Known(start.entries, t.entries[i].name, parent, storageId)
    {
      if Known(start.entries, t.entries[i].name, parent, storageId) {
        PrefixKeepsKnown(start.entries, s.entries, t.entries[i].name, parent, storageId);
      }
      ListedOn(t.entries[i], files, last, showHidden, parent, storageId);
    }
    forall k: nat | k < |all| && Visible(all[k].filename, showHidden) && grants(k).block && grants(k).name
      ensures HasMatch(t.entries, all[k].filename, parent, storageId)
    {
      if k < |files| {
        assert all[k] == files[k];
        PrefixKeepsMatch(s.entries, t.entries, files[k].filename, parent, storageId);
      }
    }
  }

  /** Adding below a directory does not change the path of that directory. */
  lemma ExtendsKeepsDir(before: DbState, after: DbState, files: seq<FileInfo>, showHidden: bool, parent: u32, storageId: u32,
                        grants: nat -> Grants, stores: set<u32>)
    requires Extends(before, after, files, showHidden, parent, storageId, grants) && ParentsOlder(before.entries)
    requires parent < before.next || parent == NO_PARENT
    requires before.next > 0
    ensures DirPath(after.entries, stores, parent) == DirPath(before.entries, stores, parent)
  {
    hide Listed;
    DirPathPrefix(before.entries, after.entries, stores, parent, before.next);
  }

  /** One name of the listing. */
  method AddOne(db: FsHandlesDb, info: FileInfo, parent: u32, storageId: u32, g: Grants)
    requires db.Valid() && ParentsOlder(db.view) && Run(db.history).adds + 1 < MAX_ADDS
    requires parent < db.nextHandle || parent == NO_PARENT
    modifies db, db.pool, db.pool.slots
    ensures db.Valid() && |db.list| == |db.view| && ParentsOlder(db.view)
    ensures OneMore(old(Run(db.history)), Run(db.history), info, parent, storageId)
    ensures parent < db.nextHandle || parent == NO_PARENT
    ensures forall k :: 0 <= k < |db.pool.slots| ==> db.pool.slots[k] in old(db.pool.slots) || fresh(db.pool.slots[k])
    ensures g.block && g.name ==> HasMatch(db.view, info.filename, parent, storageId)
    ensures old(AllHeld(db.view)) && g.All() && |old(db.view)| < MAX_CAPACITY ==>
      Run(db.history) == AddStep(old(Run(db.history)), info, parent, storageId) && AllHeld(db.view)
  {
    hide Links, Tallies, Tabled, Pool.Valid, Run, Known, HasMatch;
    ghost var before, history := Run(db.history), db.history;
    LinksLength(db.list, db.view, db.entryList);
    RunOrdersHandles(history);
    if AllHeld(db.view) {
      KnownIsMatch(db.view, info.filename, parent, storageId);
    }
    var e, at := db.AddEntry(info, parent, storageId, g);
    if e != null {
      MatchAt(db.view, at, info.filename, parent, storageId);
    }
    if db.history != history {
      RunAppend(history, db.history[|history|]);
      StepKeepsParentsOlder(before, db.history[|history|]);
    }
  }

  /** First half: adds a record for every visible name the listing shows. */
  method AddListed(db: FsHandlesDb, files: seq<FileInfo>, showHidden: bool, parent: u32, storageId: u32,
                   grants: nat -> Grants)
    requires db.Valid() && Scannable(Run(db.history), files, parent)
    modifies db, db.pool, db.pool.slots
    ensures db.Valid() && Extends(old(Run(db.history)), Run(db.history), files, showHidden, parent, storageId, grants)
    ensures forall k :: 0 <= k < |db.pool.slots| ==> db.pool.slots[k] in old(db.pool.slots) || fresh(db.pool.slots[k])
    ensures old(AllHeld(db.view)) && Plenty(grants, |files|, |old(db.view)|) ==>
      Run(db.history) == ScanAdds(old(Run(db.history)), files, showHidden, parent, storageId) && AllHeld(db.view)
  {
    hide Links, Tallies, Tabled, Pool.Valid, Run, AddStep, AllHeld, HandlesOrdered, Extends, OneMore, UniqueHandles;
    ghost var start := Run(db.history);
    ghost var ample := AllHeld(db.view) && Plenty(grants, |files|, |db.view|);
    var k := 0;
    assert files[..0] == [];
    ExtendsBegins(start, showHidden, parent, storageId, grants);
    while k < |files|
      invariant 0 <= k <= |files| && db.Valid()
      invariant forall j :: 0 <= j < |db.pool.slots| ==> db.pool.slots[j] in old(db.pool.slots) || fresh(db.pool.slots[j])
      invariant Extends(start, Run(db.history), files[..k], showHidden, parent, storageId, grants)
      invariant parent < db.nextHandle || parent == NO_PARENT
      invariant ample ==> Run(db.history) == ScanAdds(start, files[..k], showHidden, parent, storageId) && AllHeld(db.view)
    {
      assert files[..k + 1][..k] == files[..k] && files[..k + 1] == files[..k] + [files[k]];
      ghost var s := Run(db.history);
      ExtendsBounds(start, s, files[..k], showHidden, parent, storageId, grants);
      RunOrdersHandles(db.history);
      if Visible(files[k].filename, showHidden) {
        AddOne(db, files[k], parent, storageId, grants(k));
        OneMoreAdds(s, Run(db.history), files[k], parent, storageId);
        RunOrdersHandles(db.history);
      }
      ExtendsOn(start, s, Run(db.history), files[..k], files[k], showHidden, parent, storageId, grants);
      k := k + 1;
    }
    assert files[..k] == files;
  }

  lemma ExtendsBegins(s: DbState, showHidden: bool, parent: u32, storageId: u32, grants: nat -> Grants)
    requires ParentsOlder(s.entries)
    ensures Extends(s, s, [], showHidden, parent, storageId, grants)
  {
  }

  lemma ExtendsBounds(before: DbState, after: DbState, files: seq<FileInfo>, showHidden: bool, parent: u32, storageId: u32,
                      grants: nat -> Grants)
    requires Extends(before, after, files, showHidden, parent, storageId, grants)
    ensures before.adds <= after.adds <= before.adds + |files| && |after.entries| <= |before.entries| + |files|
    ensures ParentsOlder(after.entries)
  {
    hide Listed;
  }

  lemma OneMoreAdds(before: DbState, after: DbState, info: FileInfo, parent: u32, storageId: u32)
    requires OneMore(before, after, info, parent, storageId)
    ensures after.adds <= before.adds + 1
  {
  }

  /** How far a sweep has come: the records from `left` on are done, the others untouched. */
  ghost predicate SweptFrom(start: seq<Entry>, view: seq<Entry>, left: nat, parent: u32, storageId: u32,
                            dir: Name, probe: Name -> Probe) {
    && left <= |start| == |view|
    && (forall i :: left <= i < |start| ==> view[i] == Swept(start[i], parent, storageId, dir, probe))
    && (forall i :: 0 <= i < left ==> view[i] == start[i])
  }

  /** A child is newer than its directory, so sweeping children leaves the way up alone. */
  lemma SweepKeepsDir(start: seq<Entry>, view: seq<Entry>, left: nat, parent: u32, storageId: u32,
                      dir: Name, probe: Name -> Probe, stores: set<u32>)
    requires SweptFrom(start, view, left, parent, storageId, dir, probe)
    requires ParentsOlder(start) && UniqueHandles(start)
    ensures ParentsOlder(view) && UniqueHandles(view)
    ensures DirPath(view, stores, parent) == DirPath(start, stores, parent)
  {
    forall i | 0 <= i < |view| ensures OlderParent(view[i]) {
      assert OlderParent(start[i]);
    }
    forall i | 0 <= i < |start| && start[i].handle <= Rank(parent)
      ensures start[i] == view[i].(size := start[i].size, watch := start[i].watch)
    {
      assert OlderParent(start[i]);
    }
    DirPathSame(start, view, stores, parent, Rank(parent));
  }

  /** Asks the file system about one child; drops it if it is gone, else takes over its size. */
  method VisitChild(db: FsHandlesDb, e: FsEntry, roots: Roots, probe: Name -> Probe, ghost start: seq<Entry>, ghost at: nat,
                    ghost parent: u32, ghost storageId: u32, ghost dir: Name)
    requires db.Valid() && ParentsOlder(start) && UniqueHandles(start)
    requires SweptFrom(start, db.view, at + 1, parent, storageId, dir, probe)
    requires dir == RootOf(roots, storageId) + DirPath(start, roots.Keys, parent)
    requires at < |db.list| && db.list[at] == e && IsChild(db.view[at], parent, storageId)
    modifies db`view, db`history, e`deleted, e`watchDescriptor, e`size
    ensures db.Valid() && SweptFrom(start, db.view, at, parent, storageId, dir, probe)
    ensures Run(db.history).adds == old(Run(db.history).adds)
  {
    hide Links, Tallies, Tabled, Pool.Valid, Run, ParentsOlder, UniqueHandles, OlderParent, DirPath,
         RunsAlongChain, RootOf;
    db.ListShows(at);
    SweepKeepsDir(start, db.view, at + 1, parent, storageId, dir, probe, roots.Keys);
    var path := BuildFullPath(db, RootOf(roots, e.storageId), roots.Keys, e, e.name, at);
    assert path == dir + [SLASH] + start[at].name;
    match probe(path) {
      case NoPath =>
      case Gone =>
        RunAppend(db.history, Discard(at));
        db.MarkDeleted(e, at);
      case Present(size) =>
        RunAppend(db.history, Resize(at, size));
        db.SetSize(e, size, at);
    }
  }

  /** The live children of a directory. */
  function ChildrenOf(es: seq<Entry>, parent: u32, storageId: u32): set<nat> {
    set i: nat | i < |es| && IsChild(es[i], parent, storageId)
  }

  lemma ChildVisited(start: seq<Entry>, view: seq<Entry>, left: nat, at: nat, parent: u32, storageId: u32,
                     dir: Name, probe: Name -> Probe, visited: seq<nat>)
    requires SweptFrom(start, view, at + 1, parent, storageId, dir, probe) && at < left <= |start|
    requires Walked(ChildrenOf(start, parent, storageId), left, visited) && IsChild(view[at], parent, storageId)
    requires forall i :: at + 1 <= i < left ==> !IsChild(start[i], parent, storageId)
    ensures Walked(ChildrenOf(start, parent, storageId), at, visited + [at])
  {
    WalkedOn(ChildrenOf(start, parent, storageId), left, visited, at);
  }

  /** Second half: asks for every live child once and drops those that are gone. `visited` are the children asked for. */
  method SweepFolder(db: FsHandlesDb, parent: u32, storageId: u32, roots: Roots, probe: Name -> Probe)
    returns (ghost visited: seq<nat>)
    requires db.Valid() && ParentsOlder(db.view) && UniqueHandles(db.view)
    modifies db, db.list
    ensures db.Valid() && db.list == old(db.list) && ParentsOlder(db.view)
    ensures db.pool.slots == old(db.pool.slots)
    ensures IsSweep(old(db.view), db.view, parent, storageId,
                    RootOf(roots, storageId) + DirPath(old(db.view), roots.Keys, parent), probe)
    ensures Walked(ChildrenOf(old(db.view), parent, storageId), 0, visited)
    ensures db.nextHandle == old(db.nextHandle) && Run(db.history).adds == old(Run(db.history).adds)
  {
    hide Links, Tallies, Tabled, Pool.Valid, Run, ParentsOlder, UniqueHandles, DirPath, Swept, Walked, ChildrenOf;
    LinksLength(db.list, db.view, db.entryList);
    ghost var start, list := db.view, db.list;
    ghost var dir := RootOf(roots, storageId) + DirPath(start, roots.Keys, parent);
    InitSearchHandle(db, parent, storageId);
    visited := [];
    ghost var left: nat := |db.list|;
    SweepBegins(start, parent, storageId);
    var e: FsEntry?;
    ghost var at: nat;
    e, at := GetNextChildHandle(db, left);
    SkipChildren(start, db.view, left, if e == null then 0 else at + 1, parent, storageId, dir, probe);
    while e != null
      invariant db.Valid() && db.list == list && |list| == |db.view| && db.nextHandle == old(db.nextHandle)
      invariant db.handleSearch == parent && db.storageSearch == storageId
      invariant AtRest(list, db.searchEntry, at)
      invariant Run(db.history).adds == old(Run(db.history).adds)
      invariant left <= |start| && (e != null ==> at < left && list[at] == e && IsChild(db.view[at], parent, storageId))
      invariant SweptFrom(start, db.view, if e == null then 0 else at + 1, parent, storageId, dir, probe)
      invariant Walked(ChildrenOf(start, parent, storageId), left, visited)
      invariant forall i :: (if e == null then 0 else at + 1) <= i < left ==> !IsChild(start[i], parent, storageId)
      decreases if e == null then 0 else at + 1
    {
      ChildVisited(start, db.view, left, at, parent, storageId, dir, probe, visited);
      VisitChild(db, e, roots, probe, start, at, parent, storageId, dir);
      visited := visited + [at];
      left := at;
      e, at := GetNextChildHandle(db, left);
      SkipChildren(start, db.view, left, if e == null then 0 else at + 1, parent, storageId, dir, probe);
    }
    SweepKeepsDir(start, db.view, 0, parent, storageId, dir, probe, roots.Keys);
    SweepEnds(start, left, parent, storageId, visited);
  }

  lemma SweepBegins(es: seq<Entry>, parent: u32, storageId: u32)
    ensures Walked(ChildrenOf(es, parent, storageId), |es|, [])
  {
  }

  lemma SweepEnds(es: seq<Entry>, left: nat, parent: u32, storageId: u32, visited: seq<nat>)
    requires Walked(ChildrenOf(es, parent, storageId), left, visited) && left <= |es|
    requires forall i :: 0 <= i < left ==> !IsChild(es[i], parent, storageId)
    ensures Walked(ChildrenOf(es, parent, storageId), 0, visited)
  {
    WalkedOff(ChildrenOf(es, parent, storageId), left, visited);
  }

  /** Records that are no children are swept by leaving them alone. */
  lemma SkipChildren(start: seq<Entry>, view: seq<Entry>, left: nat, lower: nat, parent: u32, storageId: u32,
                     dir: Name, probe: Name -> Probe)
    requires SweptFrom(start, view, left, parent, storageId, dir, probe) && lower <= left
    requires forall i :: lower <= i < left ==> !IsChild(view[i], parent, storageId)
    ensures SweptFrom(start, view, lower, parent, storageId, dir, probe)
  {
  }

  /** Adds what the listing shows, then drops what is gone. `mid` is the list in between. */
  method ScanAndAddFolder(db: FsHandlesDb, files: seq<FileInfo>, showHidden: bool, parent: u32, storageId: u32,
                          roots: Roots, probe: Name -> Probe, grants: nat -> Grants)
    returns (ret: int, ghost mid: DbState)
    requires db.Valid() && Scannable(Run(db.history), files, parent)
    modifies db, db.pool, db.pool.slots
    ensures db.Valid() && ParentsOlder(db.view)
    ensures ret == if files != [] then 0 else -1
    ensures Extends(old(Run(db.history)), mid, files, showHidden, parent, storageId, grants)
    ensures db.nextHandle == mid.next
    ensures IsSweep(mid.entries, db.view, parent, storageId,
                    RootOf(roots, storageId) + DirPath(old(db.view), roots.Keys, parent), probe)
    ensures old(AllHeld(db.view)) && Plenty(grants, |files|, |old(db.view)|) ==>
      mid == ScanAdds(old(Run(db.history)), files, showHidden, parent, storageId)
  {
    hide Links, Tallies, Tabled, Pool.Valid, Run, Swept, DirPath, Extends;
    ghost var start := Run(db.history);
    AddListed(db, files, showHidden, parent, storageId, grants);
    mid := Run(db.history);
    ExtendsBounds(start, mid, files, showHidden, parent, storageId, grants);
    RunOrdersHandles(db.history);
    ExtendsKeepsDir(start, mid, files, showHidden, parent, storageId, grants, roots.Keys);
    db.ListInPool();
    ghost var visited := SweepFolder(db, parent, storageId, roots, probe);
    ret := if files != [] then 0 else -1;
  }
}
