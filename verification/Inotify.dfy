// Following the file system: each inotify event is applied to every directory record watched
// by its descriptor, and the initiator is told of every object that appears or disappears.
module Inotify {
  import opened EntryModel
  import opened HashIndex
  import opened EntryPool
  import opened HandleDb
  import opened FullPath
  import opened Wrappers

  /** The MTP events that are pushed, with the object handle each one carries. */
  datatype MtpEvent = ObjectAdded(handle: u32) | ObjectRemoved(handle: u32) | ObjectInfoChanged(handle: u32)

  // --- What the initiator makes of the events ---

  /** The handles of the live records, each as often as it occurs. */
  function LiveHandles(es: seq<Entry>): multiset<u32> {
    if es == [] then multiset{}
    else
      var last := es[|es| - 1];
      LiveHandles(es[..|es| - 1]) + if last.deleted then multiset{} else multiset{last.handle}
  }

  function Follow(known: multiset<u32>, pushed: seq<MtpEvent>): multiset<u32> {
    if pushed == [] then known
    else
      var before := Follow(known, pushed[..|pushed| - 1]);
      match pushed[|pushed| - 1]
      case ObjectAdded(h) => before + multiset{h}
      case ObjectRemoved(h) => before - multiset{h}
      case ObjectInfoChanged(_) => before
  }

  lemma {:induction false} FollowAppend(known: multiset<u32>, a: seq<MtpEvent>, b: seq<MtpEvent>)
    ensures Follow(known, a + b) == Follow(Follow(known, a), b)
  {
    if b == [] {
      assert a + b == a;
    } else {
      var init := b[..|b| - 1];
      assert (a + b)[..|a + b| - 1] == a + init;
      FollowAppend(known, a, init);
    }
  }

  lemma LiveOfAppend(es: seq<Entry>, e: Entry)
    ensures LiveHandles(es + [e]) == LiveHandles(es) + if e.deleted then multiset{} else multiset{e.handle}
  {
    assert (es + [e])[..|es|] == es;
  }

  lemma {:induction false} LiveOfDiscard(es: seq<Entry>, i: nat)
    requires i < |es| && !es[i].deleted
    ensures LiveHandles(es) == LiveHandles(es[i := Discarded(es[i])]) + multiset{es[i].handle}
  {
    var n := |es| - 1;
    var fs := es[i := Discarded(es[i])];
    if i == n {
      assert fs[..n] == es[..n];
    } else {
      LiveOfDiscard(es[..n], i);
      assert fs[..n] == es[..n][i := Discarded(es[i])];
      assert fs[n] == es[n];
    }
  }

  predicate LiveAt(es: seq<Entry>, i: int, h: u32) {
    0 <= i < |es| && !es[i].deleted && es[i].handle == h
  }

  lemma {:induction false} LiveMember(es: seq<Entry>, h: u32) returns (i: int)
    ensures h in LiveHandles(es) ==> LiveAt(es, i, h)
  {
    i := -1;
    if es != [] {
      var n := |es| - 1;
      if LiveAt(es, n, h) {
        i := n;
      } else {
        i := LiveMember(es[..n], h);
      }
    }
  }

  /** A live non-root handle occurs exactly once. */
  lemma {:induction false} LiveOnce(es: seq<Entry>, i: nat)
    requires i < |es| && !es[i].deleted && es[i].handle != 0 && UniqueHandles(es)
    ensures LiveHandles(es)[es[i].handle] == 1
  {
    var n := |es| - 1;
    if i < n {
      LiveOnce(es[..n], i);
    } else {
      var j := LiveMember(es[..n], es[n].handle);
    }
  }

  // --- The same for an initiator that keeps a set ---

  function FollowSet(known: set<u32>, pushed: seq<MtpEvent>): set<u32> {
    if pushed == [] then known
    else
      var before := FollowSet(known, pushed[..|pushed| - 1]);
      match pushed[|pushed| - 1]
      case ObjectAdded(h) => before + {h}
      case ObjectRemoved(h) => before - {h}
      case ObjectInfoChanged(_) => before
  }

  function Support(m: multiset<u32>): set<u32> {
    set h | h in m
  }

  /** Every handle reported removed was known exactly once at that moment. */
  ghost predicate RemovesSingly(known: multiset<u32>, pushed: seq<MtpEvent>) {
    forall k :: 0 <= k < |pushed| && pushed[k].ObjectRemoved? ==> Follow(known, pushed[..k])[pushed[k].handle] == 1
  }

  lemma {:induction false} SetFollows(known: multiset<u32>, pushed: seq<MtpEvent>)
    requires RemovesSingly(known, pushed)
    ensures FollowSet(Support(known), pushed) == Support(Follow(known, pushed))
  {
    if pushed != [] {
      var n := |pushed| - 1;
      forall k | 0 <= k < n && pushed[..n][k].ObjectRemoved?
        ensures Follow(known, pushed[..n][..k])[pushed[..n][k].handle] == 1
      {
        assert pushed[..n][..k] == pushed[..k];
      }
      SetFollows(known, pushed[..n]);
      assert pushed[n].ObjectRemoved? ==> Follow(known, pushed[..n])[pushed[n].handle] == 1;
    }
  }

  lemma RemovesSinglyAppend(known: multiset<u32>, a: seq<MtpEvent>, b: seq<MtpEvent>)
    requires RemovesSingly(known, a) && RemovesSingly(Follow(known, a), b)
    ensures RemovesSingly(known, a + b)
  {
    forall k | 0 <= k < |a + b| && (a + b)[k].ObjectRemoved?
      ensures Follow(known, (a + b)[..k])[(a + b)[k].handle] == 1
    {
      if k < |a| {
        assert (a + b)[..k] == a[..k];
      } else {
        assert (a + b)[..k] == a + b[..k - |a|];
        FollowAppend(known, a, b[..k - |a|]);
      }
    }
  }

  // --- The database between two events ---

  ghost predicate Settled(db: FsHandlesDb)
    reads db, db.pool, db.list
  {
    db.Valid() && |db.list| == |db.view| && ParentsOlder(db.view) && UniqueHandles(db.view)
  }

  /** Every database whose history adds below existing parents is settled. */
  lemma GroundedIsSettled(db: FsHandlesDb)
    requires db.Valid() && Run(db.history).adds < 0xFFFF_FFFF && Grounded(db.history)
    ensures Settled(db)
  {
    hide Tallies, Tabled, Pool.Valid, Grounded, ParentsOlder, UniqueHandles;
    RunOrdersHandles(db.history);
    RunKeepsParentsOlder(db.history);
    LinksLength(db.list, db.view, db.entryList);
  }

  /** The records that watch with a descriptor. */
  function WatchersOf(es: seq<Entry>, wd: int): set<nat> {
    set i: nat | i < |es| && Watches(es[i], wd)
  }

  /** Where the directory record lies in the file system. */
  function PathOf(es: seq<Entry>, roots: Roots, e: Entry): Name
    requires ParentsOlder(es)
  {
    RootOf(roots, e.storageId) + EntryPath(es, roots.Keys, e)
  }

  /** The first live record with this watch descriptor from `from` on; null starts at the head. */
  method GetEntryByWd(db: FsHandlesDb, wd: int, from: FsEntry?, ghost left: nat) returns (e: FsEntry?, ghost at: nat)
    requires db.Valid()
    requires if from == null then left == |db.list| else AtRest(db.list, from, left)
    ensures |db.list| == |db.view|
    ensures e == null ==> at == 0
    ensures e != null ==> at < left && db.list[at] == e && Watches(db.view[at], wd)
    ensures forall i :: (if e == null then 0 else at + 1) <= i < left ==> !Watches(db.view[i], wd)
  {
    hide Links, Tallies, Tabled, Records, Pool.Valid;
    LinksLength(db.list, db.view, db.entryList);
    HeadAtRest(db);
    e, at := if from == null then db.entryList else from, left;
    while e != null
      invariant at <= left && AtRest(db.list, e, at)
      invariant forall i :: at <= i < left ==> !Watches(db.view[i], wd)
      decreases at
    {
      StepRest(db.list, db.view, db.entryList, e, at);
      if !e.deleted && e.watchDescriptor == wd {
        at := at - 1;
        return;
      }
      e := e.next;
      at := at - 1;
    }
    StepRest(db.list, db.view, db.entryList, e, at);
  }

  lemma HeadAtRest(db: FsHandlesDb)
    requires db.Valid()
    ensures AtRest(db.list, db.entryList, |db.list|)
  {
    assert db.list[..|db.list|] == db.list;
  }

  /** Goes on behind `e`. The end of the list ends the walk: asking from null would start over. */
  method NextByWd(db: FsHandlesDb, wd: int, e: FsEntry, ghost left: nat) returns (next: FsEntry?, ghost at: nat)
    requires db.Valid() && left < |db.list| && db.list[left] == e
    ensures |db.list| == |db.view|
    ensures next == null ==> at == 0
    ensures next != null ==> at < left && db.list[at] == next && Watches(db.view[at], wd)
    ensures forall i :: (if next == null then 0 else at + 1) <= i < left ==> !Watches(db.view[i], wd)
  {
    hide Links, Tallies, Tabled, Records, Pool.Valid;
    LinksLength(db.list, db.view, db.entryList);
    StepRest(db.list, db.view, db.entryList, e, left + 1);
    next, at := e.next, 0;
    if next != null {
      next, at := GetEntryByWd(db, wd, next, left);
    } else {
      StepRest(db.list, db.view, db.entryList, e.next, left);
    }
  }

  predicate Watches(e: Entry, wd: int) {
    !e.deleted && e.watch == wd
  }

  // --- Objects that appear ---

  lemma HandleBelowNext(es: seq<Entry>, next: u32, i: nat)
    requires HandlesOrdered(es, next) && i < |es|
    ensures es[i].handle < next
  {
  }

  lemma KnownMatches(es: seq<Entry>, name: Name, parent: u32, storageId: u32)
    ensures Known(es, name, parent, storageId) ==> HasMatch(es, name, parent, storageId)
  {
    if Known(es, name, parent, storageId) {
      var i :| 0 <= i < |es| && es[i].inName && Matches(es[i], name, parent, storageId);
      assert Matches(es[i], name, parent, storageId);
    }
  }

  /** What following a creation may do to the records: new unwatched ones at the end. */
  ghost predicate Grown(es: seq<Entry>, next: u32, fs: seq<Entry>, n: nat) {
    && es <= fs && |fs| <= |es| + n
    && forall k :: |es| <= k < |fs| ==> fs[k].watch == -1 && fs[k].handle >= next && fs[k].handle != 0
  }

  /** A new record under a name that was not known keeps the database tidy. */
  lemma TidyGrows(es: seq<Entry>, next: u32, v: Entry, next': u32)
    requires Tidy(es, next) && !Known(es, v.name, v.parent, v.storageId)
    requires v.handle != 0 && !v.deleted && v.inName && v.inHandle && HandlesOrdered(es + [v], next')
    ensures Tidy(es + [v], next')
  {
    KnownIsMatch(es, v.name, v.parent, v.storageId);
    forall i | 0 <= i < |es|
      ensures !(!es[i].deleted && es[i].name == v.name && es[i].parent == v.parent && es[i].storageId == v.storageId)
    {
      assert !Matches(es[i], v.name, v.parent, v.storageId);
    }
  }

  /** Nothing is added, or the one record of the object, which no lookup found, and that is announced. */
  ghost predicate AddedOnce(es: seq<Entry>, fs: seq<Entry>, info: FileInfo, parent: u32, storageId: u32, pushed: seq<MtpEvent>) {
    || (fs == es && pushed == [])
    || (&& |fs| == |es| + 1 && es <= fs && IsRecordOf(fs[|es|], info, parent, storageId)
        && !Known(es, info.filename, parent, storageId) && pushed == [ObjectAdded(fs[|es|].handle)])
  }

  /** Adds the object unless a record is already there. */
  method AddIfMissing(db: FsHandlesDb, info: FileInfo, parent: u32, storageId: u32, g: Grants)
    returns (pushed: seq<MtpEvent>)
    requires Settled(db) && Run(db.history).adds + 1 < MAX_ADDS && parent < db.nextHandle
    modifies db, db.pool, db.pool.slots
    ensures Settled(db) && old(db.list) <= db.list && Grown(old(db.view), old(db.nextHandle), db.view, 1)
    ensures forall k :: 0 <= k < |db.pool.slots| ==> db.pool.slots[k] in old(db.pool.slots) || fresh(db.pool.slots[k])
    ensures Run(db.history).adds <= old(Run(db.history).adds) + 1 && db.nextHandle >= old(db.nextHandle)
    ensures LiveHandles(db.view) == Follow(LiveHandles(old(db.view)), pushed)
    ensures AddedOnce(old(db.view), db.view, info, parent, storageId, pushed)
    ensures g.block && g.name ==> HasMatch(db.view, info.filename, parent, storageId)
    ensures old(Tidy(db.view, db.nextHandle)) && g.All() && |old(db.view)| < MAX_CAPACITY ==> Tidy(db.view, db.nextHandle)
  {
    hide Links, Tallies, Tabled, Pool.Valid, Run, UniqueHandles, ParentsOlder, HandlesOrdered, LiveHandles, Known, HasMatch,
         Tidy;
    pushed := [];
    ghost var view, history := db.view, db.history;
    RunOrdersHandles(history);
    KnownMatches(view, info.filename, parent, storageId);
    var oldEntry, _ := db.FindEntry(info.filename, parent, storageId);
    if oldEntry != null {
      return;
    }
    var newEntry, n := db.AddEntry(info, parent, storageId, g);
    if newEntry != null {
      db.ListShows(|view|);
      ghost var v := db.view[|view|];
      RunAppend(history, db.history[|history|]);
      StepKeepsParentsOlder(Run(history), db.history[|history|]);
      RunOrdersHandles(db.history);
      MatchAt(db.view, |view|, info.filename, parent, storageId);
      LiveOfAppend(view, v);
      if Tidy(view, old(db.nextHandle)) && g.All() && |view| < MAX_CAPACITY {
        TidyGrows(view, old(db.nextHandle), v, db.nextHandle);
      }
      pushed := [ObjectAdded(newEntry.handle)];
      assert pushed[..0] == [];
    }
  }

  /** One watched directory: asks for the object's status and adds it. */
  method CreateStep(db: FsHandlesDb, e: FsEntry, roots: Roots, stat: Name -> Option<FileInfo>, g: Grants, ghost at: nat)
    returns (pushed: seq<MtpEvent>)
    requires Settled(db) && Run(db.history).adds + 1 < MAX_ADDS
    requires at < |db.list| && db.list[at] == e
    modifies db, db.pool, db.pool.slots
    ensures Settled(db) && old(db.list) <= db.list && Grown(old(db.view), old(db.nextHandle), db.view, 1)
    ensures forall k :: 0 <= k < |db.pool.slots| ==> db.pool.slots[k] in old(db.pool.slots) || fresh(db.pool.slots[k])
    ensures Run(db.history).adds <= old(Run(db.history).adds) + 1 && db.nextHandle >= old(db.nextHandle)
    ensures LiveHandles(db.view) == Follow(LiveHandles(old(db.view)), pushed)
    ensures var v := old(db.view[at]); var found := stat(PathOf(old(db.view), roots, v));
      && (found.None? ==> db.view == old(db.view) && pushed == [])
      && (found.Some? ==> AddedOnce(old(db.view), db.view, found.value, v.handle, v.storageId, pushed))
      && (found.Some? && g.block && g.name ==> HasMatch(db.view, found.value.filename, v.handle, v.storageId))
    ensures old(Tidy(db.view, db.nextHandle)) && g.All() && |old(db.view)| < MAX_CAPACITY ==> Tidy(db.view, db.nextHandle)
  {
    hide Links, Tallies, Tabled, Pool.Valid, Run, DirPath, EntryPath, NamedPath, UniqueHandles, ParentsOlder,
         HandlesOrdered, LiveHandles, HasMatch, Tidy, AddedOnce;
    pushed := [];
    db.ListShows(at);
    RunOrdersHandles(db.history);
    HandleBelowNext(db.view, db.nextHandle, at);
    var path := BuildFullPath(db, RootOf(roots, e.storageId), roots.Keys, e, e.name, at);
    NamedAsIs(db.view, roots.Keys, db.view[at]);
    var found := stat(path);
    if found.Some? {
      pushed := AddIfMissing(db, found.value, e.handle, e.storageId, g);
    }
  }

  /** Adding records leaves the paths of the older ones alone. */
  lemma GrownKeepsPath(es: seq<Entry>, next: u32, fs: seq<Entry>, n: nat, roots: Roots, i: nat)
    requires Grown(es, next, fs, n) && HandlesOrdered(es, next) && ParentsOlder(es) && ParentsOlder(fs) && i < |es|
    requires next > 0
    ensures PathOf(fs, roots, fs[i]) == PathOf(es, roots, es[i])
  {
    assert OlderParent(es[i]);
    DirPathPrefix(es, fs, roots.Keys, es[i].parent, next);
  }

  /** The object the event names is recorded below this directory, as far as it can be. */
  predicate Recorded(es: seq<Entry>, roots: Roots, stat: Name -> Option<FileInfo>, dir: Entry, path: Name) {
    stat(path).Some? ==> HasMatch(es, stat(path).value.filename, dir.handle, dir.storageId)
  }

  /** Every directory behind the cursor that watches has the object recorded. */
  ghost predicate AllRecorded(start: seq<Entry>, view: seq<Entry>, left: nat, wd: int, roots: Roots,
                              stat: Name -> Option<FileInfo>)
    requires ParentsOlder(start)
  {
    forall i :: left <= i < |start| && Watches(start[i], wd) ==>
      Recorded(view, roots, stat, start[i], PathOf(start, roots, start[i]))
  }

  lemma GrownKeepsRecorded(start: seq<Entry>, es: seq<Entry>, fs: seq<Entry>, left: nat, wd: int, roots: Roots,
                           stat: Name -> Option<FileInfo>)
    requires ParentsOlder(start) && es <= fs && AllRecorded(start, es, left, wd, roots, stat)
    ensures AllRecorded(start, fs, left, wd, roots, stat)
  {
    forall i | left <= i < |start| && Watches(start[i], wd)
      ensures Recorded(fs, roots, stat, start[i], PathOf(start, roots, start[i]))
    {
      var found := stat(PathOf(start, roots, start[i]));
      assert Recorded(es, roots, stat, start[i], PathOf(start, roots, start[i]));
      if found.Some? {
        PrefixKeepsMatch(es, fs, found.value.filename, start[i].handle, start[i].storageId);
      }
    }
  }

  lemma RecordedDown(start: seq<Entry>, view: seq<Entry>, lower: nat, left: nat, wd: int, roots: Roots,
                     stat: Name -> Option<FileInfo>)
    requires ParentsOlder(start) && lower <= left <= |start|
    requires left < |start| ==> AllRecorded(start, view, left, wd, roots, stat)
    requires forall i :: lower <= i < left && Watches(start[i], wd) ==>
      Recorded(view, roots, stat, start[i], PathOf(start, roots, start[i]))
    ensures AllRecorded(start, view, lower, wd, roots, stat)
  {
  }

  /** The new record is that of the created file below this watcher, which no lookup found before. */
  predicate Sprouts(es: seq<Entry>, d: nat, wd: int, roots: Roots, stat: Name -> Option<FileInfo>, e: Entry)
    requires ParentsOlder(es) && d < |es|
  {
    && Watches(es[d], wd)
    && var found := stat(PathOf(es, roots, es[d]));
       && found.Some? && IsRecordOf(e, found.value, es[d].handle, es[d].storageId)
       && !Known(es, found.value.filename, es[d].handle, es[d].storageId)
  }

  /** The new records are, one for one and newest directory first, those of the created file below `sources`, and each is
      announced. */
  ghost predicate Sown(es: seq<Entry>, fs: seq<Entry>, left: nat, wd: int, roots: Roots, stat: Name -> Option<FileInfo>,
                       sources: seq<nat>, pushed: seq<MtpEvent>)
    requires ParentsOlder(es)
  {
    && es <= fs && |fs| == |es| + |sources| && |pushed| == |sources|
    && (forall k :: 0 <= k < |sources| ==>
          && left <= sources[k] < |es| && Sprouts(es, sources[k], wd, roots, stat, fs[|es| + k])
          && pushed[k] == ObjectAdded(fs[|es| + k].handle))
    && (forall j, k :: 0 <= j < k < |sources| ==> sources[j] > sources[k])
  }

  lemma SownNothing(es: seq<Entry>, wd: int, roots: Roots, stat: Name -> Option<FileInfo>)
    requires ParentsOlder(es)
    ensures Sown(es, es, |es|, wd, roots, stat, [], [])
  {
  }

  lemma SownDown(es: seq<Entry>, fs: seq<Entry>, left: nat, lower: nat, wd: int, roots: Roots, stat: Name -> Option<FileInfo>,
                 sources: seq<nat>, pushed: seq<MtpEvent>)
    requires ParentsOlder(es) && lower <= left && Sown(es, fs, left, wd, roots, stat, sources, pushed)
    ensures Sown(es, fs, lower, wd, roots, stat, sources, pushed)
  {
    hide Sprouts;
  }

  lemma SownOne(es: seq<Entry>, fs: seq<Entry>, gs: seq<Entry>, left: nat, at: nat, wd: int, roots: Roots,
                stat: Name -> Option<FileInfo>, sources: seq<nat>, pushed: seq<MtpEvent>, ev: MtpEvent)
    requires ParentsOlder(es) && at < left <= |es| && Sown(es, fs, left, wd, roots, stat, sources, pushed)
    requires fs <= gs && |gs| == |fs| + 1 && Sprouts(es, at, wd, roots, stat, gs[|fs|]) && ev == ObjectAdded(gs[|fs|].handle)
    ensures Sown(es, gs, at, wd, roots, stat, sources + [at], pushed + [ev])
  {
    hide Sprouts;
  }

  /** One step of the walk as the new records show it. */
  lemma SownStep(es: seq<Entry>, fs: seq<Entry>, gs: seq<Entry>, left: nat, at: nat, wd: int, roots: Roots,
                 stat: Name -> Option<FileInfo>, sources: seq<nat>, pushed: seq<MtpEvent>, more: seq<MtpEvent>)
    requires ParentsOlder(es) && ParentsOlder(fs) && at < left <= |es| <= |fs| && Sown(es, fs, left, wd, roots, stat, sources, pushed)
    requires Watches(es[at], wd) && PathOf(fs, roots, fs[at]) == PathOf(es, roots, es[at])
    requires var found := stat(PathOf(fs, roots, fs[at]));
      && (found.None? ==> gs == fs && more == [])
      && (found.Some? ==> AddedOnce(fs, gs, found.value, fs[at].handle, fs[at].storageId, more))
    ensures Sown(es, gs, at, wd, roots, stat, sources + if gs == fs then [] else [at], pushed + more)
  {
    hide PathOf, Known, Sown, Watches, IsRecordOf;
    if gs == fs {
      assert sources + [] == sources && pushed + [] == pushed;
      SownDown(es, fs, left, at, wd, roots, stat, sources, pushed);
    } else {
      SownPrefix(es, fs, left, wd, roots, stat, sources, pushed);
      var found := stat(PathOf(fs, roots, fs[at])).value;
      if Known(es, found.filename, es[at].handle, es[at].storageId) {
        PrefixKeepsKnown(es, fs, found.filename, es[at].handle, es[at].storageId);
      }
      SownOne(es, fs, gs, left, at, wd, roots, stat, sources, pushed, more[0]);
    }
  }

  lemma SownPrefix(es: seq<Entry>, fs: seq<Entry>, left: nat, wd: int, roots: Roots, stat: Name -> Option<FileInfo>,
                   sources: seq<nat>, pushed: seq<MtpEvent>)
    requires ParentsOlder(es) && Sown(es, fs, left, wd, roots, stat, sources, pushed)
    ensures es <= fs
  {
  }

  lemma FollowNothing(known: multiset<u32>)
    ensures Follow(known, []) == known
  {
  }

  lemma GrownAgain(es: seq<Entry>, next: u32, fs: seq<Entry>, n: nat, next': u32, gs: seq<Entry>)
    requires Grown(es, next, fs, n) && Grown(fs, next', gs, 1) && next <= next'
    ensures Grown(es, next, gs, n + 1) && es <= fs <= gs
  {
  }

  /** One step of the creation loop, with all that is known about the steps so far. */
  method CreateVisit(db: FsHandlesDb, e: FsEntry, roots: Roots, stat: Name -> Option<FileInfo>, g: Grants,
                     ghost at: nat, ghost start: seq<Entry>, ghost next: u32, ghost k: nat, ghost left: nat, ghost wd: int,
                     ghost sources: seq<nat>, ghost told: seq<MtpEvent>)
    returns (pushed: seq<MtpEvent>, ghost new': seq<nat>)
    requires Settled(db) && Run(db.history).adds + 1 < MAX_ADDS
    requires at < left <= |start| <= |db.list| && db.list[at] == e
    requires Grown(start, next, db.view, k) && 0 < next <= db.nextHandle && HandlesOrdered(start, next) && ParentsOlder(start)
    requires Watches(start[at], wd) && forall i :: at + 1 <= i < left ==> !Watches(start[i], wd)
    requires Sown(start, db.view, left, wd, roots, stat, sources, told)
    modifies db, db.pool, db.pool.slots
    ensures Settled(db) && old(db.list) <= db.list && Grown(start, next, db.view, k + 1) && next <= db.nextHandle
    ensures forall j :: 0 <= j < |db.pool.slots| ==> db.pool.slots[j] in old(db.pool.slots) || fresh(db.pool.slots[j])
    ensures Run(db.history).adds <= old(Run(db.history).adds) + 1
    ensures LiveHandles(db.view) == Follow(LiveHandles(old(db.view)), pushed)
    ensures Sown(start, db.view, at, wd, roots, stat, sources + new', told + pushed)
    ensures g.All() && (left < |start| ==> old(AllRecorded(start, db.view, left, wd, roots, stat))) ==>
      AllRecorded(start, db.view, at, wd, roots, stat)
    ensures old(Tidy(db.view, db.nextHandle)) && g.All() && |old(db.view)| < MAX_CAPACITY ==> Tidy(db.view, db.nextHandle)
  {
    hide Links, Tallies, Tabled, Pool.Valid, Run, DirPath, EntryPath, UniqueHandles, ParentsOlder, PathOf,
         HandlesOrdered, LiveHandles, HasMatch, AllRecorded, Follow, Grown, Tidy, Sown, AddedOnce, Watches;
    ghost var view, next' := db.view, db.nextHandle;
    pushed := CreateStep(db, e, roots, stat, g, at);
    GrownAgain(start, next, view, k, next', db.view);
    GrownKeepsPath(start, next, view, k, roots, at);
    SownStep(start, view, db.view, left, at, wd, roots, stat, sources, told, pushed);
    new' := if db.view == view then [] else [at];
    if left < |start| && AllRecorded(start, view, left, wd, roots, stat) {
      GrownKeepsRecorded(start, view, db.view, left, wd, roots, stat);
    }
    if g.All() && (left < |start| ==> AllRecorded(start, view, left, wd, roots, stat)) {
      assert Recorded(db.view, roots, stat, start[at], PathOf(start, roots, start[at]));
      RecordedDown(start, db.view, at, left, wd, roots, stat);
    }
  }

  /** No allocation fails. */
  ghost predicate Ample(grants: nat -> Grants) {
    forall k: nat :: grants(k).All()
  }

  lemma WatchBegins(es: seq<Entry>, wd: int)
    ensures Walked(WatchersOf(es, wd), |es|, [])
  {
  }

  /** The walk over the watchers goes on to the next one that still watches. */
  lemma WatcherVisited(start: seq<Entry>, view: seq<Entry>, wd: int, left: nat, visited: seq<nat>, at: nat)
    requires Walked(WatchersOf(start, wd), left, visited)
    requires at < left <= |start| <= |view| && Watches(view[at], wd)
    requires forall i :: at <= i < left ==> view[i] == start[i]
    requires forall i :: at + 1 <= i < left ==> !Watches(view[i], wd)
    ensures Walked(WatchersOf(start, wd), at, visited + [at])
  {
    WalkedOn(WatchersOf(start, wd), left, visited, at);
  }

  lemma WatchEnds(start: seq<Entry>, view: seq<Entry>, wd: int, left: nat, visited: seq<nat>)
    requires Walked(WatchersOf(start, wd), left, visited) && left <= |start| <= |view|
    requires forall i :: 0 <= i < left ==> view[i] == start[i] && !Watches(view[i], wd)
    ensures Walked(WatchersOf(start, wd), 0, visited)
  {
    WalkedOff(WatchersOf(start, wd), left, visited);
  }

  /** A creation, applied to every directory that watches with this descriptor, newest first. */
  method CreateLoop(db: FsHandlesDb, wd: int, roots: Roots, stat: Name -> Option<FileInfo>, grants: nat -> Grants,
                    ghost n: nat)
    returns (pushed: seq<MtpEvent>, ghost visited: seq<nat>, ghost sources: seq<nat>)
    requires Settled(db) && wd != -1 && Run(db.history).adds + n < MAX_ADDS
    requires forall i :: n <= i < |db.view| ==> db.view[i].watch == -1
    modifies db, db.pool, db.pool.slots
    ensures Settled(db) && old(db.list) <= db.list && Grown(old(db.view), old(db.nextHandle), db.view, n)
    ensures forall k :: 0 <= k < |db.pool.slots| ==> db.pool.slots[k] in old(db.pool.slots) || fresh(db.pool.slots[k])
    ensures Run(db.history).adds <= old(Run(db.history).adds) + n
    ensures LiveHandles(db.view) == Follow(LiveHandles(old(db.view)), pushed)
    ensures Sown(old(db.view), db.view, 0, wd, roots, stat, sources, pushed)
    ensures Ample(grants) ==> AllRecorded(old(db.view), db.view, 0, wd, roots, stat)
    ensures old(Tidy(db.view, db.nextHandle)) && Ample(grants) && |old(db.view)| + n < MAX_CAPACITY ==>
      Tidy(db.view, db.nextHandle)
    ensures Walked(WatchersOf(old(db.view), wd), 0, visited)
  {
    hide Links, Tallies, Tabled, Pool.Valid, Run, DirPath, EntryPath, UniqueHandles, ParentsOlder, PathOf,
         HandlesOrdered, LiveHandles, HasMatch, AllRecorded, Follow, Recorded, Tidy, Walked, WatchersOf,
         Sown;
    ghost var start, list, next := db.view, db.list, db.nextHandle;
    ghost var ample := Ample(grants);
    ghost var tidy := Tidy(start, next) && ample && |start| + n < MAX_CAPACITY;
    visited, sources := [], [];
    SownNothing(start, wd, roots, stat);
    WatchBegins(start, wd);
    RunOrdersHandles(db.history);
    FollowNothing(LiveHandles(start));
    pushed := [];
    var k := 0;
    ghost var left: nat := |list|;
    var e: FsEntry?;
    ghost var at: nat;
    e, at := GetEntryByWd(db, wd, null, left);
    while e != null
      invariant Settled(db) && list <= db.list && |list| == |start|
      invariant forall j :: 0 <= j < |db.pool.slots| ==> db.pool.slots[j] in old(db.pool.slots) || fresh(db.pool.slots[j])
      invariant left <= |list| && (e != null ==> at < left && list[at] == e && Watches(db.view[at], wd))
      invariant forall i :: (if e == null then 0 else at + 1) <= i < left ==> !Watches(db.view[i], wd)
      invariant Grown(start, next, db.view, k) && db.nextHandle >= next
      invariant k + (if e == null then 0 else at + 1) <= n
      invariant Run(db.history).adds <= old(Run(db.history).adds) + k
      invariant LiveHandles(db.view) == Follow(LiveHandles(start), pushed)
      invariant Sown(start, db.view, left, wd, roots, stat, sources, pushed)
      invariant ample && left < |start| ==> AllRecorded(start, db.view, left, wd, roots, stat)
      invariant tidy ==> Tidy(db.view, db.nextHandle)
      invariant Walked(WatchersOf(start, wd), left, visited)
      decreases if e == null then 0 else at + 1
    {
      WatcherVisited(start, db.view, wd, left, visited, at);
      visited := visited + [at];
      var more;
      ghost var new';
      more, new' := CreateVisit(db, e, roots, stat, grants(k), at, start, next, k, left, wd, sources, pushed);
      FollowAppend(LiveHandles(start), pushed, more);
      pushed, sources := pushed + more, sources + new';
      k := k + 1;
      left := at;
      e, at := NextByWd(db, wd, e, left);
    }
    WatchEnds(start, db.view, wd, left, visited);
    SownDown(start, db.view, left, 0, wd, roots, stat, sources, pushed);
    if ample {
      RecordedDown(start, db.view, 0, left, wd, roots, stat);
    }
  }

  // --- Objects that disappear ---

  /** What following a deletion may do to the records: drop some of them. */
  ghost predicate Thinned(es: seq<Entry>, fs: seq<Entry>) {
    |es| == |fs| && forall i :: 0 <= i < |es| ==> fs[i] == es[i] || fs[i] == Discarded(es[i])
  }

  lemma ThinnedKeeps(es: seq<Entry>, fs: seq<Entry>)
    requires Thinned(es, fs)
    ensures ParentsOlder(es) ==> ParentsOlder(fs)
    ensures UniqueHandles(es) ==> UniqueHandles(fs)
    ensures UniqueNames(es) ==> UniqueNames(fs)
    ensures RootsNamed(es) ==> RootsNamed(fs)
    ensures forall next :: Ranked(es, next) ==> Ranked(fs, next)
    ensures forall next :: Tidy(es, next) ==> Tidy(fs, next)
  {
    if ParentsOlder(es) {
      forall i | 0 <= i < |fs| ensures OlderParent(fs[i]) {
        assert OlderParent(es[i]);
      }
    }
  }

  lemma ThinnedKeepsNoMatch(es: seq<Entry>, fs: seq<Entry>, name: Name, parent: u32, storageId: u32)
    requires Thinned(es, fs) && !HasMatch(es, name, parent, storageId)
    ensures !HasMatch(fs, name, parent, storageId)
  {
    forall i | 0 <= i < |fs| ensures !Matches(fs[i], name, parent, storageId) {
      assert !Matches(es[i], name, parent, storageId);
    }
  }

  lemma ThinnedKeepsSole(es: seq<Entry>, fs: seq<Entry>, name: Name, parent: u32, storageId: u32)
    requires Thinned(es, fs) && Sole(es, name, parent, storageId)
    ensures Sole(fs, name, parent, storageId)
  {
    forall i | 0 <= i < |fs| && Matches(fs[i], name, parent, storageId)
      ensures Matches(es[i], name, parent, storageId) && fs[i] == es[i]
    {
    }
  }

  /** Records that are left alone, and whose paths do not change. */
  ghost predicate Undisturbed(es: seq<Entry>, fs: seq<Entry>, roots: Roots, n: nat)
    requires ParentsOlder(es) && ParentsOlder(fs)
  {
    |es| == |fs| && forall i :: 0 <= i < n && i < |es| ==> fs[i] == es[i] && PathOf(fs, roots, fs[i]) == PathOf(es, roots, es[i])
  }

  /** A live child is newer than its directory: directories by handle, roots because they are the oldest of their storage. */
  lemma ChildIsNewer(es: seq<Entry>, next: u32, at: nat, j: nat)
    requires HandlesOrdered(es, next) && RootsOldest(es) && ParentsOlder(es) && at < |es| && j < |es|
    requires !es[j].deleted && es[j].handle != 0 && es[j].parent == es[at].handle && es[j].storageId == es[at].storageId
    ensures at < j
  {
    assert OlderParent(es[j]);
    assert es[at].handle < next;
  }

  /** Dropping a child leaves the paths of its directory and of all older records alone. */
  lemma DropUndisturbs(es: seq<Entry>, next: u32, at: nat, j: nat, roots: Roots)
    requires HandlesOrdered(es, next) && RootsOldest(es) && ParentsOlder(es) && at < |es| && j < |es|
    requires !es[j].deleted && es[j].handle != 0 && es[j].parent == es[at].handle && es[j].storageId == es[at].storageId
    requires ParentsOlder(es[j := Discarded(es[j])])
    ensures Undisturbed(es, es[j := Discarded(es[j])], roots, at + 1)
  {
    ChildIsNewer(es, next, at, j);
    var fs := es[j := Discarded(es[j])];
    forall i | 0 <= i <= at
      ensures PathOf(fs, roots, fs[i]) == PathOf(es, roots, es[i])
    {
      assert OlderParent(es[i]);
      DirPathSame(es, fs, roots.Keys, es[i].parent, es[j].handle - 1);
    }
  }

  lemma UndisturbedOn(es: seq<Entry>, fs: seq<Entry>, gs: seq<Entry>, roots: Roots, n: nat, m: nat)
    requires ParentsOlder(es) && ParentsOlder(fs) && ParentsOlder(gs) && m < n
    requires Undisturbed(es, fs, roots, n) && Undisturbed(fs, gs, roots, m + 1)
    ensures Undisturbed(es, gs, roots, m)
  {
    hide PathOf;
  }

  /** Every dropped record is a child of that name of some record. */
  ghost predicate DropsOnly(es: seq<Entry>, fs: seq<Entry>, name: Name, dir: Entry) {
    |es| == |fs| && forall i :: 0 <= i < |es| && fs[i] != es[i] ==> Matches(es[i], name, dir.handle, dir.storageId)
  }

  /** One watched directory: drops the record of the object if there is one. */
  method DeleteStep(db: FsHandlesDb, e: FsEntry, roots: Roots, resolves: Name -> bool, name: Name, ghost at: nat)
    returns (pushed: seq<MtpEvent>)
    requires Settled(db) && at < |db.list| && db.list[at] == e
    modifies db, db.list
    ensures Settled(db) && db.list == old(db.list) && Thinned(old(db.view), db.view) && db.nextHandle == old(db.nextHandle)
    ensures Run(db.history).adds == old(Run(db.history).adds) && db.pool.slots == old(db.pool.slots)
    ensures LiveHandles(db.view) == Follow(LiveHandles(old(db.view)), pushed)
    ensures name != ROOT_NAME && RootsNamed(old(db.view)) ==> RemovesSingly(LiveHandles(old(db.view)), pushed)
    ensures DropsOnly(old(db.view), db.view, name, old(db.view[at]))
    ensures forall k :: 0 <= k < |pushed| ==> pushed[k].ObjectRemoved?
    ensures !resolves(PathOf(old(db.view), roots, old(db.view[at]))) ==> db.view == old(db.view) && pushed == []
    ensures old(Ranked(db.view, db.nextHandle)) && name != ROOT_NAME ==> Undisturbed(old(db.view), db.view, roots, at + 1)
    ensures var dir := old(db.view[at]); resolves(PathOf(old(db.view), roots, dir)) ==>
      (Sole(old(db.view), name, dir.handle, dir.storageId) <==> !HasMatch(db.view, name, dir.handle, dir.storageId))
  {
    hide Links, Tallies, Tabled, Pool.Valid, Run, DirPath, EntryPath, NamedPath, UniqueHandles, ParentsOlder, PathOf, Sole,
         LiveHandles, HasMatch, Known, RootsNamed, Undisturbed, Ranked, Thinned, DropsOnly, Follow, RemovesSingly;
    pushed := [];
    ghost var view := db.view;
    db.ListShows(at);
    var path := BuildFullPath(db, RootOf(roots, e.storageId), roots.Keys, e, e.name, at);
    PathIs(view, roots, view[at]);
    NothingDropped(view, roots, at, name);
    if !resolves(path) {
      return;
    }
    var found, j := db.FindEntry(name, e.handle, e.storageId);
    if found != null {
      db.ListShows(j);
      RunAppend(db.history, Discard(j));
      db.MarkDeleted(found, j);
      pushed := [ObjectRemoved(found.handle)];
      OneDropped(view, db.nextHandle, at, j, name, roots, pushed);
    } else {
      SoleIfUnknown(view, name, e.handle, e.storageId);
    }
  }

  lemma PathIs(es: seq<Entry>, roots: Roots, e: Entry)
    requires ParentsOlder(es)
    ensures RootOf(roots, e.storageId) + NamedPath(es, roots.Keys, e, e.name) == PathOf(es, roots, e)
  {
    NamedAsIs(es, roots.Keys, e);
  }

  lemma NothingDropped(es: seq<Entry>, roots: Roots, at: nat, name: Name)
    requires ParentsOlder(es) && at < |es|
    ensures Undisturbed(es, es, roots, at + 1) && Thinned(es, es) && DropsOnly(es, es, name, es[at])
    ensures Follow(LiveHandles(es), []) == LiveHandles(es) && RemovesSingly(LiveHandles(es), [])
  {
  }

  /** Dropping one child of the directory, as the records show it. */
  lemma OneDropped(es: seq<Entry>, next: u32, at: nat, j: nat, name: Name, roots: Roots, pushed: seq<MtpEvent>)
    requires ParentsOlder(es) && UniqueHandles(es) && at < |es| && j < |es|
    requires es[j].inName && Matches(es[j], name, es[at].handle, es[at].storageId) && pushed == [ObjectRemoved(es[j].handle)]
    ensures var fs := es[j := Discarded(es[j])];
      && ParentsOlder(fs) && UniqueHandles(fs) && Thinned(es, fs) && DropsOnly(es, fs, name, es[at])
      && LiveHandles(fs) == Follow(LiveHandles(es), pushed)
      && (name != ROOT_NAME && RootsNamed(es) ==> RemovesSingly(LiveHandles(es), pushed))
      && (Sole(es, name, es[at].handle, es[at].storageId) <==> !HasMatch(fs, name, es[at].handle, es[at].storageId))
      && (Ranked(es, next) && name != ROOT_NAME ==> Undisturbed(es, fs, roots, at + 1))
  {
    var fs := es[j := Discarded(es[j])];
    ThinnedKeeps(es, fs);
    LiveOfDiscard(es, j);
    RemovedOnce(es, j, name, pushed);
    SoleIfLast(es, j, name, es[at].handle, es[at].storageId);
    hide LiveHandles, Follow, RemovesSingly, Undisturbed, HasMatch, ParentsOlder, UniqueHandles, Sole;
    if Ranked(es, next) && name != ROOT_NAME {
      NotRoot(es, j, name);
      DropUndisturbs(es, next, at, j, roots);
    }
  }

  lemma NotRoot(es: seq<Entry>, j: nat, name: Name)
    requires RootsNamed(es) && j < |es| && es[j].name == name && name != ROOT_NAME
    ensures es[j].handle != 0
  {
  }

  lemma RemovedOnce(es: seq<Entry>, j: nat, name: Name, pushed: seq<MtpEvent>)
    requires j < |es| && !es[j].deleted && es[j].name == name && pushed == [ObjectRemoved(es[j].handle)]
    requires UniqueHandles(es)
    ensures Follow(LiveHandles(es), pushed) == LiveHandles(es) - multiset{es[j].handle}
    ensures name != ROOT_NAME && RootsNamed(es) ==> RemovesSingly(LiveHandles(es), pushed)
  {
    assert pushed[..0] == [];
    if name != ROOT_NAME && RootsNamed(es) {
      LiveOnce(es, j);
    }
  }

  /** No other watcher stands for the same directory, as a second root of one storage would. */
  predicate Alone(es: seq<Entry>, d: nat, wd: int)
    requires d < |es|
  {
    forall i :: 0 <= i < |es| && i != d && Watches(es[i], wd) ==> !SameDir(es[i], es[d])
  }

  predicate SameDir(a: Entry, b: Entry) {
    a.handle == b.handle && a.storageId == b.storageId
  }

  /** A directory with a handle of its own is alone. */
  lemma HandleIsAlone(es: seq<Entry>, d: nat, wd: int)
    requires UniqueHandles(es) && d < |es| && es[d].handle != 0
    ensures Alone(es, d, wd)
  {
  }

  /** The deletion can clear this directory: its path resolves, and the name table leads to the one record of the name. */
  predicate Clearable(es: seq<Entry>, d: nat, roots: Roots, resolves: Name -> bool, name: Name)
    requires ParentsOlder(es) && d < |es|
  {
    resolves(PathOf(es, roots, es[d])) && Sole(es, name, es[d].handle, es[d].storageId)
  }

  /** A clearable directory has no record of the name left. One that is not, and is alone, has one left if it had one. */
  predicate ClearedAt(start: seq<Entry>, view: seq<Entry>, d: nat, wd: int, roots: Roots, resolves: Name -> bool, name: Name)
    requires ParentsOlder(start) && d < |start|
  {
    var dir := start[d];
    && (Clearable(start, d, roots, resolves, name) ==> !HasMatch(view, name, dir.handle, dir.storageId))
    && (Alone(start, d, wd) && !Clearable(start, d, roots, resolves, name) ==>
          (HasMatch(view, name, dir.handle, dir.storageId) <==> HasMatch(start, name, dir.handle, dir.storageId)))
  }

  /** Every watcher from `left` on has been cleared as far as it can be. */
  ghost predicate Cleared(start: seq<Entry>, view: seq<Entry>, left: nat, wd: int, roots: Roots, resolves: Name -> bool, name: Name)
    requires ParentsOlder(start)
  {
    forall d :: left <= d < |start| && Watches(start[d], wd) ==> ClearedAt(start, view, d, wd, roots, resolves, name)
  }

  /** The matches below a directory are as they were. */
  predicate MatchesKept(start: seq<Entry>, view: seq<Entry>, name: Name, dir: Entry) {
    |view| == |start| && forall i :: 0 <= i < |start| && Matches(start[i], name, dir.handle, dir.storageId) ==> view[i] == start[i]
  }

  /** Watchers that stand alone and have not had their turn still have all their records of the name. */
  ghost predicate Untouched(start: seq<Entry>, view: seq<Entry>, left: nat, wd: int, name: Name) {
    forall d :: 0 <= d < left && d < |start| && Watches(start[d], wd) && Alone(start, d, wd) ==> MatchesKept(start, view, name, start[d])
  }

  lemma KeptMatches(start: seq<Entry>, view: seq<Entry>, name: Name, dir: Entry)
    requires Thinned(start, view) && MatchesKept(start, view, name, dir)
    ensures forall i :: 0 <= i < |start| ==>
      (Matches(view[i], name, dir.handle, dir.storageId) <==> Matches(start[i], name, dir.handle, dir.storageId))
      && (Matches(start[i], name, dir.handle, dir.storageId) ==> view[i] == start[i])
  {
  }

  lemma KeptIsSame(start: seq<Entry>, view: seq<Entry>, name: Name, dir: Entry)
    requires Thinned(start, view) && MatchesKept(start, view, name, dir)
    ensures Sole(view, name, dir.handle, dir.storageId) <==> Sole(start, name, dir.handle, dir.storageId)
    ensures HasMatch(view, name, dir.handle, dir.storageId) <==> HasMatch(start, name, dir.handle, dir.storageId)
  {
    KeptMatches(start, view, name, dir);
    hide Thinned, Matches, MatchesKept;
  }

  /** The directory whose turn it is. */
  lemma ClearsHere(start: seq<Entry>, view: seq<Entry>, after: seq<Entry>, at: nat, wd: int, roots: Roots,
                   resolves: Name -> bool, name: Name)
    requires ParentsOlder(start) && at < |start| && Thinned(start, view)
    requires Alone(start, at, wd) ==> MatchesKept(start, view, name, start[at])
    requires !resolves(PathOf(start, roots, start[at])) ==> after == view
    requires resolves(PathOf(start, roots, start[at])) ==>
      (Sole(view, name, start[at].handle, start[at].storageId) <==> !HasMatch(after, name, start[at].handle, start[at].storageId))
    ensures ClearedAt(start, after, at, wd, roots, resolves, name)
  {
    hide PathOf, Thinned, MatchesKept, Alone;
    var dir := start[at];
    if Sole(start, name, dir.handle, dir.storageId) {
      ThinnedKeepsSole(start, view, name, dir.handle, dir.storageId);
    }
    if Alone(start, at, wd) {
      KeptIsSame(start, view, name, dir);
      if !Sole(start, name, dir.handle, dir.storageId) {
        NotSoleHasMatch(start, name, dir.handle, dir.storageId);
      }
    }
  }

  lemma NotSoleHasMatch(es: seq<Entry>, name: Name, parent: u32, storageId: u32)
    requires !Sole(es, name, parent, storageId)
    ensures HasMatch(es, name, parent, storageId)
  {
  }

  /** A drop below one directory does not touch the matches of another. */
  lemma DropElsewhere(view: seq<Entry>, after: seq<Entry>, name: Name, dir: Entry, other: Entry)
    requires DropsOnly(view, after, name, dir) && !SameDir(dir, other)
    ensures MatchesKept(view, after, name, other)
  {
  }

  /** A directory that has had its turn. */
  lemma StaysCleared(start: seq<Entry>, view: seq<Entry>, after: seq<Entry>, at: nat, d: nat, wd: int, roots: Roots,
                     resolves: Name -> bool, name: Name)
    requires ParentsOlder(start) && d < |start| && at < |start| && d != at && Watches(start[at], wd)
    requires Thinned(view, after) && DropsOnly(view, after, name, start[at])
    requires ClearedAt(start, view, d, wd, roots, resolves, name)
    ensures ClearedAt(start, after, d, wd, roots, resolves, name)
  {
    hide Thinned, DropsOnly, HasMatch, Clearable, SameDir;
    var dir := start[d];
    if Clearable(start, d, roots, resolves, name) {
      ThinnedKeepsNoMatch(view, after, name, dir.handle, dir.storageId);
    } else if Alone(start, d, wd) {
      DropElsewhere(view, after, name, start[at], dir);
      KeptIsSame(view, after, name, dir);
    }
  }

  lemma UntouchedOn(start: seq<Entry>, view: seq<Entry>, after: seq<Entry>, at: nat, left: nat, wd: int, name: Name)
    requires Untouched(start, view, left, wd, name) && at < left <= |start| && Watches(start[at], wd)
    requires DropsOnly(view, after, name, start[at])
    ensures Untouched(start, after, at, wd, name)
  {
    hide Matches, SameDir;
    forall d | 0 <= d < at && Watches(start[d], wd) && Alone(start, d, wd)
      ensures MatchesKept(start, after, name, start[d])
    {
      DropElsewhere(view, after, name, start[at], start[d]);
    }
  }

  lemma ClearedDown(start: seq<Entry>, view: seq<Entry>, after: seq<Entry>, at: nat, left: nat, wd: int, roots: Roots,
                    resolves: Name -> bool, name: Name)
    requires ParentsOlder(start) && ParentsOlder(view) && Thinned(start, view) && Thinned(view, after) && at < left <= |start|
    requires Undisturbed(start, view, roots, left) && Cleared(start, view, left, wd, roots, resolves, name)
    requires Untouched(start, view, left, wd, name) && DropsOnly(view, after, name, view[at])
    requires Watches(view[at], wd) && forall i :: at + 1 <= i < left ==> !Watches(view[i], wd)
    requires !resolves(PathOf(view, roots, view[at])) ==> after == view
    requires resolves(PathOf(view, roots, view[at])) ==>
      (Sole(view, name, view[at].handle, view[at].storageId) <==> !HasMatch(after, name, view[at].handle, view[at].storageId))
    ensures Cleared(start, after, at, wd, roots, resolves, name) && Untouched(start, after, at, wd, name)
  {
    hide PathOf, Thinned, DropsOnly, ClearedAt, HasMatch, Sole, Watches, Alone, MatchesKept;
    assert view[at] == start[at] && PathOf(view, roots, view[at]) == PathOf(start, roots, start[at]);
    assert forall d :: at < d < left ==> view[d] == start[d] && !Watches(start[d], wd);
    UntouchedOn(start, view, after, at, left, wd, name);
    ClearsHere(start, view, after, at, wd, roots, resolves, name);
    forall d | at <= d < |start| && Watches(start[d], wd)
      ensures ClearedAt(start, after, d, wd, roots, resolves, name)
    {
      if d >= left {
        StaysCleared(start, view, after, at, d, wd, roots, resolves, name);
      }
    }
  }

  lemma ClearedRest(start: seq<Entry>, view: seq<Entry>, left: nat, wd: int, roots: Roots, resolves: Name -> bool, name: Name)
    requires ParentsOlder(start) && ParentsOlder(view) && left <= |start|
    requires Undisturbed(start, view, roots, left) && Cleared(start, view, left, wd, roots, resolves, name)
    requires forall i :: 0 <= i < left ==> !Watches(view[i], wd)
    ensures Cleared(start, view, 0, wd, roots, resolves, name)
  {
    hide PathOf, ClearedAt;
  }

  lemma ThinnedAgain(es: seq<Entry>, fs: seq<Entry>, gs: seq<Entry>)
    requires Thinned(es, fs) && Thinned(fs, gs)
    ensures Thinned(es, gs)
  {
  }

  /** A record that watches and has a name dropped below it. */
  predicate DropsBelow(dir: Entry, wd: int, e: Entry, name: Name) {
    Watches(dir, wd) && Matches(e, name, dir.handle, dir.storageId)
  }

  /** Only children of that name, of a directory that watches, are dropped. */
  ghost predicate Pruned(es: seq<Entry>, fs: seq<Entry>, wd: int, name: Name) {
    Thinned(es, fs) && forall i :: 0 <= i < |es| && fs[i] != es[i] ==> exists d :: 0 <= d < |es| && DropsBelow(es[d], wd, es[i], name)
  }

  lemma PrunedOn(start: seq<Entry>, es: seq<Entry>, fs: seq<Entry>, wd: int, name: Name, at: nat)
    requires Pruned(start, es, wd, name) && Thinned(es, fs) && at < |es| && Watches(es[at], wd)
    requires DropsOnly(es, fs, name, es[at])
    ensures Pruned(start, fs, wd, name)
  {
    forall i | 0 <= i < |start| && fs[i] != start[i]
      ensures exists d :: 0 <= d < |start| && DropsBelow(start[d], wd, start[i], name)
    {
      if es[i] == start[i] {
        assert DropsBelow(start[at], wd, start[i], name);
      }
    }
  }

  /** Each watcher has been visited, or dropped before its turn. */
  ghost predicate DeleteWalk(start: seq<Entry>, view: seq<Entry>, wd: int, left: nat, visited: seq<nat>) {
    && |view| == |start|
    && (forall k :: 0 <= k < |visited| ==> left <= visited[k] < |start| && Watches(start[visited[k]], wd))
    && (forall j, k :: 0 <= j < k < |visited| ==> visited[j] > visited[k])
    && (forall i: nat :: left <= i < |start| && Watches(start[i], wd) ==> i in visited || view[i] != start[i])
  }

  lemma DeleteVisits(start: seq<Entry>, view: seq<Entry>, after: seq<Entry>, wd: int, left: nat, visited: seq<nat>, at: nat)
    requires DeleteWalk(start, view, wd, left, visited) && Thinned(start, view) && Thinned(view, after)
    requires at < left <= |start| && Watches(view[at], wd)
    requires forall i :: at + 1 <= i < left ==> !Watches(view[i], wd)
    ensures DeleteWalk(start, after, wd, at, visited + [at])
  {
  }

  lemma DeleteWalkEnds(start: seq<Entry>, view: seq<Entry>, wd: int, left: nat, visited: seq<nat>)
    requires DeleteWalk(start, view, wd, left, visited) && left <= |start|
    requires forall i :: 0 <= i < left ==> !Watches(view[i], wd)
    ensures DeleteWalk(start, view, wd, 0, visited)
  {
  }

  lemma DeleteBegins(es: seq<Entry>, wd: int, roots: Roots, resolves: Name -> bool, name: Name)
    requires ParentsOlder(es)
    ensures Pruned(es, es, wd, name) && Cleared(es, es, |es|, wd, roots, resolves, name) && Untouched(es, es, |es|, wd, name)
    ensures Undisturbed(es, es, roots, |es|) && DeleteWalk(es, es, wd, |es|, [])
    ensures Follow(LiveHandles(es), []) == LiveHandles(es) && RemovesSingly(LiveHandles(es), [])
  {
  }

  /** What the deletion loop knows when the watchers from `left` on have had their turn. */
  ghost predicate DeleteDone(start: seq<Entry>, view: seq<Entry>, next: u32, left: nat, wd: int, roots: Roots,
                             resolves: Name -> bool, name: Name, visited: seq<nat>)
    requires ParentsOlder(start) && ParentsOlder(view)
  {
    && Pruned(start, view, wd, name) && DeleteWalk(start, view, wd, left, visited)
    && (Ranked(start, next) && name != ROOT_NAME ==>
          && Undisturbed(start, view, roots, left) && Cleared(start, view, left, wd, roots, resolves, name)
          && Untouched(start, view, left, wd, name))
  }

  /** One step of the deletion loop, with all that is known about the steps so far. */
  method DeleteVisit(db: FsHandlesDb, e: FsEntry, roots: Roots, resolves: Name -> bool, name: Name, ghost at: nat,
                     ghost start: seq<Entry>, ghost left: nat, ghost wd: int, ghost visited: seq<nat>)
    returns (pushed: seq<MtpEvent>)
    requires Settled(db) && ParentsOlder(start) && at < left <= |start| && at < |db.list| && db.list[at] == e
    requires DeleteDone(start, db.view, db.nextHandle, left, wd, roots, resolves, name, visited)
    requires Watches(db.view[at], wd) && forall i :: at + 1 <= i < left ==> !Watches(db.view[i], wd)
    modifies db, db.list
    ensures Settled(db) && db.list == old(db.list) && db.nextHandle == old(db.nextHandle)
    ensures Run(db.history).adds == old(Run(db.history).adds) && db.pool.slots == old(db.pool.slots)
    ensures LiveHandles(db.view) == Follow(LiveHandles(old(db.view)), pushed)
    ensures name != ROOT_NAME && RootsNamed(start) ==> RemovesSingly(LiveHandles(old(db.view)), pushed)
    ensures forall k :: 0 <= k < |pushed| ==> pushed[k].ObjectRemoved?
    ensures DeleteDone(start, db.view, db.nextHandle, at, wd, roots, resolves, name, visited + [at])
  {
    hide Links, Tallies, Tabled, Pool.Valid, Run, DirPath, EntryPath, UniqueHandles, ParentsOlder, PathOf, DeleteDone,
         LiveHandles, HasMatch, Ranked, Sole, RootsNamed, Follow, RemovesSingly, Undisturbed, DropsOnly, Thinned, Watches;
    ghost var view := db.view;
    DeleteKeepsRanks(start, view, db.nextHandle, left, wd, roots, resolves, name, visited);
    pushed := DeleteStep(db, e, roots, resolves, name, at);
    DeleteDoneOn(start, view, db.view, db.nextHandle, at, left, wd, roots, resolves, name, visited);
  }

  lemma DeleteKeepsRanks(start: seq<Entry>, view: seq<Entry>, next: u32, left: nat, wd: int, roots: Roots,
                         resolves: Name -> bool, name: Name, visited: seq<nat>)
    requires ParentsOlder(start) && ParentsOlder(view)
    requires DeleteDone(start, view, next, left, wd, roots, resolves, name, visited)
    ensures |view| == |start| && (Ranked(start, next) ==> Ranked(view, next)) && (RootsNamed(start) ==> RootsNamed(view))
  {
    hide Ranked, RootsNamed, ParentsOlder, Cleared, Untouched, Undisturbed, DeleteWalk;
    ThinnedKeeps(start, view);
  }

  lemma DeleteDoneOn(start: seq<Entry>, view: seq<Entry>, after: seq<Entry>, next: u32, at: nat, left: nat, wd: int,
                     roots: Roots, resolves: Name -> bool, name: Name, visited: seq<nat>)
    requires ParentsOlder(start) && ParentsOlder(view) && ParentsOlder(after) && at < left <= |start| == |view|
    requires DeleteDone(start, view, next, left, wd, roots, resolves, name, visited)
    requires Watches(view[at], wd) && forall i :: at + 1 <= i < left ==> !Watches(view[i], wd)
    requires Thinned(view, after) && DropsOnly(view, after, name, view[at])
    requires Ranked(view, next) && name != ROOT_NAME ==> Undisturbed(view, after, roots, at + 1)
    requires !resolves(PathOf(view, roots, view[at])) ==> after == view
    requires resolves(PathOf(view, roots, view[at])) ==>
      (Sole(view, name, view[at].handle, view[at].storageId) <==> !HasMatch(after, name, view[at].handle, view[at].storageId))
    ensures DeleteDone(start, after, next, at, wd, roots, resolves, name, visited + [at])
  {
    hide ParentsOlder, PathOf, HasMatch, Ranked, Sole, Cleared, Untouched, Undisturbed, DeleteWalk, DropsOnly, Thinned, Watches;
    ThinnedKeeps(start, view);
    ThinnedAgain(start, view, after);
    PrunedOn(start, view, after, wd, name, at);
    DeleteVisits(start, view, after, wd, left, visited, at);
    if Ranked(start, next) && name != ROOT_NAME {
      ClearedDown(start, view, after, at, left, wd, roots, resolves, name);
      UndisturbedOn(start, view, after, roots, left, at);
    }
  }

  /** A deletion, applied to every directory that watches with this descriptor, newest first. */
  method DeleteLoop(db: FsHandlesDb, wd: int, roots: Roots, resolves: Name -> bool, name: Name)
    returns (pushed: seq<MtpEvent>, ghost visited: seq<nat>)
    requires Settled(db)
    modifies db, db.list
    ensures Settled(db) && db.list == old(db.list) && Pruned(old(db.view), db.view, wd, name)
    ensures db.nextHandle == old(db.nextHandle)
    ensures Run(db.history).adds == old(Run(db.history).adds) && db.pool.slots == old(db.pool.slots)
    ensures LiveHandles(db.view) == Follow(LiveHandles(old(db.view)), pushed)
    ensures name != ROOT_NAME && RootsNamed(old(db.view)) ==> RemovesSingly(LiveHandles(old(db.view)), pushed)
    ensures forall k :: 0 <= k < |pushed| ==> pushed[k].ObjectRemoved?
    ensures old(Ranked(db.view, db.nextHandle)) && name != ROOT_NAME ==>
      Cleared(old(db.view), db.view, 0, wd, roots, resolves, name)
    ensures DeleteWalk(old(db.view), db.view, wd, 0, visited)
  {
    hide Links, Tallies, Tabled, Pool.Valid, Run, DirPath, EntryPath, UniqueHandles, ParentsOlder, PathOf, Pruned,
         LiveHandles, HasMatch, Ranked, RootsNamed, Cleared, Untouched, Follow, RemovesSingly, Undisturbed, DeleteWalk;
    ghost var start, list := db.view, db.list;
    pushed, visited := [], [];
    DeleteBegins(start, wd, roots, resolves, name);
    ghost var left: nat := |list|;
    var e: FsEntry?;
    ghost var at: nat;
    e, at := GetEntryByWd(db, wd, null, left);
    while e != null
      invariant Settled(db) && db.list == list && |list| == |start| && left <= |list|
      invariant db.nextHandle == old(db.nextHandle) && db.pool.slots == old(db.pool.slots)
      invariant e != null ==> at < left && list[at] == e && Watches(db.view[at], wd)
      invariant forall i :: (if e == null then 0 else at + 1) <= i < left ==> !Watches(db.view[i], wd)
      invariant Run(db.history).adds == old(Run(db.history).adds)
      invariant LiveHandles(db.view) == Follow(LiveHandles(start), pushed)
      invariant name != ROOT_NAME && RootsNamed(start) ==> RemovesSingly(LiveHandles(start), pushed)
      invariant forall k :: 0 <= k < |pushed| ==> pushed[k].ObjectRemoved?
      invariant DeleteDone(start, db.view, db.nextHandle, left, wd, roots, resolves, name, visited)
      decreases if e == null then 0 else at + 1
    {
      var more := DeleteVisit(db, e, roots, resolves, name, at, start, left, wd, visited);
      FollowAppend(LiveHandles(start), pushed, more);
      if name != ROOT_NAME && RootsNamed(start) {
        RemovesSinglyAppend(LiveHandles(start), pushed, more);
      }
      pushed := pushed + more;
      visited := visited + [at];
      left := at;
      e, at := NextByWd(db, wd, e, left);
    }
    DeleteWalkEnds(start, db.view, wd, left, visited);
    if Ranked(start, db.nextHandle) && name != ROOT_NAME {
      ClearedRest(start, db.view, left, wd, roots, resolves, name);
    }
  }

  /** A watcher with a handle of its own keeps a record of the deleted name if and only if it had one and could not be cleared. */
  lemma ClearedExactly(start: seq<Entry>, view: seq<Entry>, d: nat, wd: int, roots: Roots, resolves: Name -> bool, name: Name)
    requires ParentsOlder(start) && UniqueHandles(start) && Cleared(start, view, 0, wd, roots, resolves, name)
    requires d < |start| && Watches(start[d], wd) && start[d].handle != 0
    ensures var dir := start[d];
      HasMatch(view, name, dir.handle, dir.storageId) <==>
      HasMatch(start, name, dir.handle, dir.storageId) && !Clearable(start, d, roots, resolves, name)
  {
    HandleIsAlone(start, d, wd);
    hide Alone, Clearable, HasMatch;
  }

  /** In a tidy database every watcher whose path resolves is cleared. */
  lemma TidyIsCleared(start: seq<Entry>, next: u32, view: seq<Entry>, d: nat, wd: int, roots: Roots, resolves: Name -> bool, name: Name)
    requires ParentsOlder(start) && Tidy(start, next) && Cleared(start, view, 0, wd, roots, resolves, name)
    requires d < |start| && Watches(start[d], wd) && resolves(PathOf(start, roots, start[d]))
    ensures !HasMatch(view, name, start[d].handle, start[d].storageId)
  {
    TidyIsSole(start, next, name, start[d].handle, start[d].storageId);
    hide Sole, HasMatch, Tidy;
  }

  const FILE_A: Name := [0x61]
  const FILE_B: Name := [0x62]

  /** Two files in the watched root of a storage; the second is renamed over the first. */
  const TWINS: seq<Op> := [
    AddRoot(1, true, true), Watch(0, 7), Add(FileInfo(FILE_A, false, 0), 0, 1, true, true),
    Add(FileInfo(FILE_B, false, 0), 0, 1, true, true), Rename(2, FILE_A, true, true)]

  lemma TwinRecords()
    ensures Run(TWINS).entries == [RootEntry(1, true, true).(watch := 7), NewEntry(1, FileInfo(FILE_A, false, 0), 0, 1, true, true),
                                   NewEntry(2, FileInfo(FILE_A, false, 0), 0, 1, true, true)]
    ensures ParentsOlder(Run(TWINS).entries)
  {
    assert TWINS[..4][..3] == TWINS[..3] && TWINS[..3][..2] == TWINS[..2] && TWINS[..2][..1] == TWINS[..1] && TWINS[..1][..0] == [];
    assert Run(TWINS[..1]).entries == [RootEntry(1, true, true)];
    assert Run(TWINS[..2]).entries == [RootEntry(1, true, true).(watch := 7)];
    assert Run(TWINS[..3]) == Apply(Run(TWINS[..2]), TWINS[2]);
    assert Run(TWINS[..4]) == Apply(Run(TWINS[..3]), TWINS[3]);
  }

  /** After that rename the deletion of the file leaves a record of it, whatever resolves. */
  lemma RenamedTwinStays(view: seq<Entry>, roots: Roots, resolves: Name -> bool)
    requires ParentsOlder(Run(TWINS).entries) && Cleared(Run(TWINS).entries, view, 0, 7, roots, resolves, FILE_A)
    ensures HasMatch(view, FILE_A, 0, 1)
  {
    TwinRecords();
    var start := Run(TWINS).entries;
    hide Run, PathOf;
    assert Watches(start[0], 7) && Alone(start, 0, 7);
    assert Matches(start[1], FILE_A, 0, 1) && Matches(start[2], FILE_A, 0, 1);
    assert ClearedAt(start, view, 0, 7, roots, resolves, FILE_A);
  }

  // --- Objects that change ---

  /** A directory that watches and whose path resolves. */
  predicate Asks(es: seq<Entry>, i: nat, wd: int, roots: Roots, resolves: Name -> bool)
    requires ParentsOlder(es) && i < |es|
  {
    Watches(es[i], wd) && resolves(PathOf(es, roots, es[i]))
  }

  /** The event tells of a record of this name below the directory. */
  predicate TellsOf(es: seq<Entry>, dir: Entry, name: Name, ev: MtpEvent) {
    ev.ObjectInfoChanged? && exists j :: 0 <= j < |es| && Matches(es[j], name, dir.handle, dir.storageId) && es[j].handle == ev.handle
  }

  /** The events answer, one for one and newest first, the directories that ask and have a record of the object; `sources` are
      these directories. */
  ghost predicate Reported(es: seq<Entry>, left: nat, wd: int, roots: Roots, resolves: Name -> bool, name: Name,
                           sources: seq<nat>, pushed: seq<MtpEvent>)
    requires ParentsOlder(es)
  {
    && |sources| == |pushed|
    && (forall k :: 0 <= k < |sources| ==>
          left <= sources[k] < |es| && Asks(es, sources[k], wd, roots, resolves) && TellsOf(es, es[sources[k]], name, pushed[k]))
    && (forall j, k :: 0 <= j < k < |sources| ==> sources[j] > sources[k])
    && (forall i: nat :: left <= i < |es| && Asks(es, i, wd, roots, resolves) && Known(es, name, es[i].handle, es[i].storageId) ==>
          i in sources)
  }

  lemma ReportsOne(es: seq<Entry>, left: nat, wd: int, roots: Roots, resolves: Name -> bool, name: Name,
                   sources: seq<nat>, pushed: seq<MtpEvent>, at: nat, ev: MtpEvent)
    requires ParentsOlder(es) && Reported(es, left, wd, roots, resolves, name, sources, pushed)
    requires at < left <= |es| && forall i :: at + 1 <= i < left ==> !Watches(es[i], wd)
    requires Asks(es, at, wd, roots, resolves) && TellsOf(es, es[at], name, ev)
    ensures Reported(es, at, wd, roots, resolves, name, sources + [at], pushed + [ev])
  {
    hide PathOf, TellsOf, Known;
  }

  lemma ReportsNone(es: seq<Entry>, left: nat, wd: int, roots: Roots, resolves: Name -> bool, name: Name,
                    sources: seq<nat>, pushed: seq<MtpEvent>, at: nat)
    requires ParentsOlder(es) && Reported(es, left, wd, roots, resolves, name, sources, pushed)
    requires at <= left <= |es| && forall i :: at + 1 <= i < left ==> !Watches(es[i], wd)
    requires at < left && Asks(es, at, wd, roots, resolves) ==> !Known(es, name, es[at].handle, es[at].storageId)
    ensures Reported(es, at, wd, roots, resolves, name, sources, pushed)
  {
    hide PathOf, TellsOf, Known;
  }

  lemma ReportsBegin(es: seq<Entry>, wd: int, roots: Roots, resolves: Name -> bool, name: Name)
    requires ParentsOlder(es)
    ensures Reported(es, |es|, wd, roots, resolves, name, [], [])
  {
  }

  lemma TellsAt(es: seq<Entry>, dir: Entry, name: Name, j: nat)
    requires j < |es| && Matches(es[j], name, dir.handle, dir.storageId)
    ensures TellsOf(es, dir, name, ObjectInfoChanged(es[j].handle))
  {
  }

  lemma ReportsEnd(es: seq<Entry>, left: nat, wd: int, roots: Roots, resolves: Name -> bool, name: Name,
                   sources: seq<nat>, pushed: seq<MtpEvent>)
    requires ParentsOlder(es) && Reported(es, left, wd, roots, resolves, name, sources, pushed)
    requires left <= |es| && forall i :: 0 <= i < left ==> !Watches(es[i], wd)
    ensures Reported(es, 0, wd, roots, resolves, name, sources, pushed)
  {
    hide PathOf, TellsOf, Known;
  }

  /** One watched directory of the modification loop. */
  method ModifyVisit(db: FsHandlesDb, e: FsEntry, wd: int, roots: Roots, resolves: Name -> bool, name: Name,
                     ghost at: nat, ghost left: nat, ghost sources: seq<nat>, ghost pushed: seq<MtpEvent>)
    returns (more: seq<MtpEvent>, ghost new': seq<nat>)
    requires Settled(db) && at < left <= |db.list| && db.list[at] == e && Watches(db.view[at], wd)
    requires forall i :: at + 1 <= i < left ==> !Watches(db.view[i], wd)
    requires Reported(db.view, left, wd, roots, resolves, name, sources, pushed)
    ensures Reported(db.view, at, wd, roots, resolves, name, sources + new', pushed + more)
  {
    hide Links, Tallies, Tabled, Records, Pool.Valid, DirPath, EntryPath, UniqueHandles, ParentsOlder, NamedPath, Known,
         Reported, TellsOf;
    more, new' := [], [];
    assert sources + [] == sources && pushed + [] == pushed;
    db.ListShows(at);
    var path := BuildFullPath(db, RootOf(roots, e.storageId), roots.Keys, e, e.name, at);
    NamedAsIs(db.view, roots.Keys, db.view[at]);
    if resolves(path) {
      var found, j := db.FindEntry(name, e.handle, e.storageId);
      if found != null {
        db.ListShows(j);
        TellsAt(db.view, db.view[at], name, j);
        more, new' := [ObjectInfoChanged(found.handle)], [at];
        ReportsOne(db.view, left, wd, roots, resolves, name, sources, pushed, at, more[0]);
        return;
      }
    }
    ReportsNone(db.view, left, wd, roots, resolves, name, sources, pushed, at);
  }

  /** A modification is reported for the object's record below every watching directory. */
  method ModifyLoop(db: FsHandlesDb, wd: int, roots: Roots, resolves: Name -> bool, name: Name)
    returns (pushed: seq<MtpEvent>, ghost sources: seq<nat>)
    requires Settled(db)
    ensures Reported(db.view, 0, wd, roots, resolves, name, sources, pushed)
  {
    hide Links, Tallies, Tabled, Records, Pool.Valid, UniqueHandles, ParentsOlder, Reported;
    pushed, sources := [], [];
    ReportsBegin(db.view, wd, roots, resolves, name);
    ghost var left: nat := |db.list|;
    var e: FsEntry?;
    ghost var at: nat;
    e, at := GetEntryByWd(db, wd, null, left);
    while e != null
      invariant left <= |db.list| && (e != null ==> at < left && db.list[at] == e && Watches(db.view[at], wd))
      invariant forall i :: (if e == null then 0 else at + 1) <= i < left ==> !Watches(db.view[i], wd)
      invariant Reported(db.view, left, wd, roots, resolves, name, sources, pushed)
      decreases if e == null then 0 else at + 1
    {
      var more;
      ghost var new';
      more, new' := ModifyVisit(db, e, wd, roots, resolves, name, at, left, sources, pushed);
      pushed, sources := pushed + more, sources + new';
      left := at;
      e, at := NextByWd(db, wd, e, left);
    }
    ReportsEnd(db.view, left, wd, roots, resolves, name, sources, pushed);
  }

  lemma ReportsChange(es: seq<Entry>, wd: int, roots: Roots, resolves: Name -> bool, name: Name,
                      sources: seq<nat>, pushed: seq<MtpEvent>)
    requires ParentsOlder(es) && Reported(es, 0, wd, roots, resolves, name, sources, pushed)
    ensures forall k :: 0 <= k < |pushed| ==> pushed[k].ObjectInfoChanged?
    ensures AllReported(es, wd, roots, resolves, name, pushed)
  {
  }

  ghost predicate AllReported(es: seq<Entry>, wd: int, roots: Roots, resolves: Name -> bool, name: Name, pushed: seq<MtpEvent>)
    requires ParentsOlder(es)
  {
    exists sources :: Reported(es, 0, wd, roots, resolves, name, sources, pushed)
  }

  lemma {:induction false} ChangesAreNeutral(known: multiset<u32>, pushed: seq<MtpEvent>)
    requires forall k :: 0 <= k < |pushed| ==> pushed[k].ObjectInfoChanged?
    ensures Follow(known, pushed) == known && RemovesSingly(known, pushed)
  {
    if pushed != [] {
      ChangesAreNeutral(known, pushed[..|pushed| - 1]);
    }
  }

  // --- A buffer of events ---

  const EVENT_HEADER: nat := 16
  const READ_BUFFER: nat := 32 * 1024

  /** One event of the buffer, and what the file system and the allocator answer meanwhile. */
  datatype FsEvent = FsEvent(wd: int, created: bool, modified: bool, deleted: bool, name: Name, len: nat,
                             stat: Name -> Option<FileInfo>, resolves: Name -> bool, grants: nat -> Grants)

  ghost predicate AllSown(es: seq<Entry>, fs: seq<Entry>, wd: int, roots: Roots, stat: Name -> Option<FileInfo>, pushed: seq<MtpEvent>)
    requires ParentsOlder(es)
  {
    exists sources :: Sown(es, fs, 0, wd, roots, stat, sources, pushed)
  }

  lemma SownIs(es: seq<Entry>, fs: seq<Entry>, wd: int, roots: Roots, stat: Name -> Option<FileInfo>, sources: seq<nat>,
               pushed: seq<MtpEvent>)
    requires ParentsOlder(es) && Sown(es, fs, 0, wd, roots, stat, sources, pushed)
    ensures AllSown(es, fs, wd, roots, stat, pushed) && |fs| == |es| + |pushed|
    ensures forall k :: 0 <= k < |pushed| ==> pushed[k].ObjectAdded?
  {
    hide Sprouts;
  }

  /** An event that deletes nothing: its announcements of new records come first, those of changed ones after them. */
  ghost predicate Extended(es: seq<Entry>, fs: seq<Entry>, pushed: seq<MtpEvent>, ev: FsEvent, roots: Roots)
    requires ParentsOlder(es)
  {
    var grown := |fs| - |es|;
    && es <= fs && grown <= |pushed| && ParentsOlder(fs)
    && (if ev.created then
          && AllSown(es, fs, ev.wd, roots, ev.stat, pushed[..grown])
          && (Ample(ev.grants) ==> AllRecorded(es, fs, 0, ev.wd, roots, ev.stat))
        else fs == es)
    && (if ev.modified then AllReported(fs, ev.wd, roots, ev.resolves, ev.name, pushed[grown..]) else |pushed| == grown)
  }

  /** An event that creates nothing and drops records. */
  ghost predicate Shrunk(es: seq<Entry>, next: u32, fs: seq<Entry>, pushed: seq<MtpEvent>, ev: FsEvent, roots: Roots)
    requires ParentsOlder(es)
  {
    && Pruned(es, fs, ev.wd, ev.name)
    && (Ranked(es, next) && ev.name != ROOT_NAME ==> Cleared(es, fs, 0, ev.wd, roots, ev.resolves, ev.name))
    && (!ev.modified ==> forall k :: 0 <= k < |pushed| ==> pushed[k].ObjectRemoved?)
  }

  /** What one event does to the records, and what it tells. An event that creates and deletes at once is followed only by
      LiveHandles. */
  ghost predicate Reacted(es: seq<Entry>, next: u32, fs: seq<Entry>, pushed: seq<MtpEvent>, ev: FsEvent, roots: Roots)
    requires ParentsOlder(es)
  {
    if !ev.deleted then Extended(es, fs, pushed, ev, roots)
    else !ev.created ==> Shrunk(es, next, fs, pushed, ev, roots)
  }

  /** The three reactions to one event, in the order of the event's flags. */
  method HandleEvent(db: FsHandlesDb, ev: FsEvent, roots: Roots, ghost n: nat) returns (pushed: seq<MtpEvent>)
    requires Settled(db) && ev.wd != -1 && Run(db.history).adds + n < MAX_ADDS
    requires forall i :: n <= i < |db.view| ==> db.view[i].watch == -1
    modifies db, db.pool, db.pool.slots
    ensures Settled(db) && Run(db.history).adds <= old(Run(db.history).adds) + n
    ensures forall k :: 0 <= k < |db.pool.slots| ==> db.pool.slots[k] in old(db.pool.slots) || fresh(db.pool.slots[k])
    ensures forall i :: n <= i < |db.view| ==> db.view[i].watch == -1
    ensures LiveHandles(db.view) == Follow(LiveHandles(old(db.view)), pushed)
    ensures ev.name != ROOT_NAME && RootsNamed(old(db.view)) ==> RemovesSingly(LiveHandles(old(db.view)), pushed)
    ensures Reacted(old(db.view), old(db.nextHandle), db.view, pushed, ev, roots)
    ensures RootsNamed(old(db.view)) ==> RootsNamed(db.view)
    ensures old(Ranked(db.view, db.nextHandle)) ==> Ranked(db.view, db.nextHandle)
    ensures old(Tidy(db.view, db.nextHandle)) && Ample(ev.grants) && |old(db.view)| + n < MAX_CAPACITY ==>
      Tidy(db.view, db.nextHandle) && |db.view| <= |old(db.view)| + n
  {
    hide Links, Tallies, Tabled, Pool.Valid, Run, UniqueHandles, ParentsOlder, LiveHandles, RootsNamed, Follow, HandlesOrdered,
         RemovesSingly, Grown, Pruned, AllRecorded, Cleared, Untouched, Ranked, Tidy, Reported, AllReported, Sown, AllSown,
         Ample, Undisturbed, Extended, Shrunk;
    ghost var start, next := db.view, db.nextHandle;
    DeleteBegins(start, ev.wd, roots, ev.resolves, ev.name);
    pushed := [];
    if ev.created {
      ghost var visited, sources;
      pushed, visited, sources := CreateLoop(db, ev.wd, roots, ev.stat, ev.grants, n);
      SownIs(start, db.view, ev.wd, roots, ev.stat, sources, pushed);
      RunOrdersHandles(db.history);
      GrownSettles(start, next, db.view, db.nextHandle, n, LiveHandles(start), pushed);
    }
    ghost var grown, told := db.view, pushed;
    if ev.modified {
      var more;
      ghost var sources;
      more, sources := ModifyLoop(db, ev.wd, roots, ev.resolves, ev.name);
      ReportsChange(db.view, ev.wd, roots, ev.resolves, ev.name, sources, more);
      ChangesAreNeutral(LiveHandles(db.view), more);
      FollowAppend(LiveHandles(start), pushed, more);
      if ev.name != ROOT_NAME && RootsNamed(start) {
        RemovesSinglyAppend(LiveHandles(start), pushed, more);
      }
      assert [] + more == more;
      pushed := pushed + more;
    }
    ExtendedIs(start, grown, told, pushed, ev, roots);
    if ev.deleted {
      ghost var view := db.view;
      db.ListInPool();
      var more;
      ghost var visited;
      more, visited := DeleteLoop(db, ev.wd, roots, ev.resolves, ev.name);
      PrunedKeeps(view, db.view, ev.wd, ev.name, n);
      FollowAppend(LiveHandles(start), pushed, more);
      if ev.name != ROOT_NAME && RootsNamed(start) {
        RemovesSinglyAppend(LiveHandles(start), pushed, more);
      }
      if !ev.created {
        ShrunkIs(start, next, db.view, more, pushed + more, ev, roots);
      }
      pushed := pushed + more;
    }
  }

  lemma ExtendedIs(es: seq<Entry>, fs: seq<Entry>, told: seq<MtpEvent>, pushed: seq<MtpEvent>, ev: FsEvent, roots: Roots)
    requires ParentsOlder(es) && ParentsOlder(fs) && es <= fs && |fs| == |es| + |told| && told <= pushed
    requires if ev.created
             then AllSown(es, fs, ev.wd, roots, ev.stat, told) && (Ample(ev.grants) ==> AllRecorded(es, fs, 0, ev.wd, roots, ev.stat))
             else fs == es
    requires if ev.modified then AllReported(fs, ev.wd, roots, ev.resolves, ev.name, pushed[|told|..]) else pushed == told
    ensures Extended(es, fs, pushed, ev, roots)
  {
    assert pushed[..|told|] == told;
    hide AllSown, AllReported, AllRecorded, Ample;
  }

  lemma ShrunkIs(es: seq<Entry>, next: u32, fs: seq<Entry>, more: seq<MtpEvent>, pushed: seq<MtpEvent>, ev: FsEvent,
                 roots: Roots)
    requires ParentsOlder(es) && Pruned(es, fs, ev.wd, ev.name)
    requires Ranked(es, next) && ev.name != ROOT_NAME ==> Cleared(es, fs, 0, ev.wd, roots, ev.resolves, ev.name)
    requires !ev.modified ==> pushed == more
    requires forall k :: 0 <= k < |more| ==> more[k].ObjectRemoved?
    ensures Shrunk(es, next, fs, pushed, ev, roots)
  {
    hide Cleared, Pruned, Ranked;
  }

  lemma PrunedKeeps(es: seq<Entry>, fs: seq<Entry>, wd: int, name: Name, n: nat)
    requires Pruned(es, fs, wd, name) && forall i :: n <= i < |es| ==> es[i].watch == -1
    ensures forall i :: n <= i < |fs| ==> fs[i].watch == -1
    ensures RootsNamed(es) ==> RootsNamed(fs)
    ensures forall next :: Ranked(es, next) ==> Ranked(fs, next)
    ensures forall next :: Tidy(es, next) ==> Tidy(fs, next)
    ensures |fs| == |es|
  {
    ThinnedKeeps(es, fs);
  }

  lemma GrownSettles(es: seq<Entry>, next: u32, fs: seq<Entry>, next': u32, n: nat, known: multiset<u32>, pushed: seq<MtpEvent>)
    requires Grown(es, next, fs, n) && HandlesOrdered(fs, next')
    requires forall k :: 0 <= k < |pushed| ==> pushed[k].ObjectAdded?
    ensures es <= fs && |fs| <= |es| + n
    ensures RootsNamed(es) ==> RootsNamed(fs)
    ensures Ranked(es, next) ==> Ranked(fs, next')
    ensures (forall i :: n <= i < |es| ==> es[i].watch == -1) ==> forall i :: n <= i < |fs| ==> fs[i].watch == -1
    ensures RemovesSingly(known, pushed)
  {
  }

  // --- The course of a buffer ---

  /** The database before and after an event, and what was pushed for it. */
  datatype Turn = Turn(before: seq<Entry>, next: u32, after: seq<Entry>, pushed: seq<MtpEvent>)

  /** Where an event starts in the buffer. */
  function Offset(events: seq<FsEvent>, k: nat): nat
    requires k <= |events|
  {
    if k == 0 then 0 else Offset(events, k - 1) + EVENT_HEADER + events[k - 1].len
  }

  /** An event that carries no name, or whose end would touch the end of the buffer, is passed over. */
  predicate Taken(events: seq<FsEvent>, k: nat)
    requires k < |events|
  {
    events[k].len != 0 && Offset(events, k) + EVENT_HEADER + events[k].len < READ_BUFFER
  }

  /** How many bytes events take: a header of 16 each, and their names with padding. */
  function Bytes(events: seq<FsEvent>): nat {
    if events == [] then 0 else Bytes(events[..|events| - 1]) + 16 + events[|events| - 1].len
  }

  lemma {:induction false} OffsetIsBytes(events: seq<FsEvent>, k: nat)
    requires k <= |events|
    ensures Offset(events, k) == Bytes(events[..k])
  {
    if k > 0 {
      OffsetIsBytes(events, k - 1);
      assert events[..k][..k - 1] == events[..k - 1];
    }
  }

  lemma {:induction false} BytesGrow(events: seq<FsEvent>, k: nat)
    requires k <= |events|
    ensures Bytes(events[..k]) + 16 * (|events| - k) <= Bytes(events)
    decreases |events| - k
  {
    if k < |events| {
      BytesGrow(events, k + 1);
      assert events[..k + 1][..k] == events[..k];
    } else {
      assert events[..k] == events;
    }
  }

  /** In a read of at most 32768 bytes every event that carries a name is handled, except the last one of a full read. */
  predicate InReach(events: seq<FsEvent>, k: nat)
    requires k < |events|
  {
    events[k].len != 0 && (k < |events| - 1 || Bytes(events) < 32768)
  }

  lemma TakenIsInReach(events: seq<FsEvent>, k: nat)
    requires k < |events| && Bytes(events) <= 32768
    ensures Taken(events, k) <==> InReach(events, k)
  {
    OffsetIsBytes(events, k);
    OffsetIsBytes(events, k + 1);
    BytesGrow(events, k + 1);
    assert events[..|events|] == events;
  }

  /** What a whole read does: each event in reach has its effect, any other one none. */
  ghost predicate Handled(course: seq<Turn>, events: seq<FsEvent>, roots: Roots) {
    && |course| == |events|
    && forall k :: 0 <= k < |events| ==>
         && ParentsOlder(course[k].before)
         && if InReach(events, k) then Reacted(course[k].before, course[k].next, course[k].after, course[k].pushed, events[k], roots)
            else course[k].after == course[k].before && course[k].pushed == []
  }

  lemma CourseIsHandled(course: seq<Turn>, events: seq<FsEvent>, roots: Roots, start: seq<Entry>, now: seq<Entry>)
    requires |course| == |events| && Course(course, events, roots, start, now) && Bytes(events) <= 32768
    ensures Handled(course, events, roots)
  {
    hide Reacted, ParentsOlder, Chained, Taken, InReach, Bytes;
    forall k | 0 <= k < |events|
      ensures TurnOk(course[k], events, k, roots) && (Taken(events, k) <==> InReach(events, k))
    {
      TakenIsInReach(events, k);
    }
  }

  /** What a turn is to its event. */
  ghost predicate TurnOk(t: Turn, events: seq<FsEvent>, k: nat, roots: Roots)
    requires k < |events|
  {
    && ParentsOlder(t.before)
    && if Taken(events, k) then Reacted(t.before, t.next, t.after, t.pushed, events[k], roots)
       else t.after == t.before && t.pushed == []
  }

  function PushedBy(course: seq<Turn>): seq<MtpEvent> {
    if course == [] then [] else PushedBy(course[..|course| - 1]) + course[|course| - 1].pushed
  }

  ghost predicate TurnsOk(course: seq<Turn>, events: seq<FsEvent>, roots: Roots) {
    |course| <= |events| && forall k :: 0 <= k < |course| ==> TurnOk(course[k], events, k, roots)
  }

  /** The turns lead from one event to the next. */
  ghost predicate Chained(course: seq<Turn>, start: seq<Entry>, now: seq<Entry>) {
    && (forall j, k :: 0 <= j < k < |course| && k == j + 1 ==> course[j].after == course[k].before)
    && if course == [] then now == start else course[0].before == start && course[|course| - 1].after == now
  }

  ghost predicate Course(course: seq<Turn>, events: seq<FsEvent>, roots: Roots, start: seq<Entry>, now: seq<Entry>) {
    TurnsOk(course, events, roots) && Chained(course, start, now)
  }

  lemma TurnsOkOn(course: seq<Turn>, events: seq<FsEvent>, roots: Roots, t: Turn)
    requires |course| < |events| && TurnsOk(course, events, roots) && TurnOk(t, events, |course|, roots)
    ensures TurnsOk(course + [t], events, roots)
  {
    hide TurnOk;
  }

  lemma ChainedOn(course: seq<Turn>, start: seq<Entry>, t: Turn)
    requires Chained(course, start, t.before)
    ensures Chained(course + [t], start, t.after)
  {
  }

  lemma CourseOn(course: seq<Turn>, events: seq<FsEvent>, roots: Roots, start: seq<Entry>, t: Turn)
    requires |course| < |events| && Course(course, events, roots, start, t.before) && TurnOk(t, events, |course|, roots)
    ensures Course(course + [t], events, roots, start, t.after)
    ensures PushedBy(course + [t]) == PushedBy(course) + t.pushed
  {
    TurnsOkOn(course, events, roots, t);
    ChainedOn(course, start, t);
    hide TurnOk, TurnsOk, Chained;
    assert (course + [t])[..|course|] == course;
  }

  /** The database and all turns so far are ranked, or tidy. */
  ghost predicate Upright(course: seq<Turn>, now: seq<Entry>, next: u32, ranked: bool, tidy: bool) {
    && (ranked ==> Ranked(now, next) && forall k :: 0 <= k < |course| ==> Ranked(course[k].before, course[k].next))
    && (tidy ==> Tidy(now, next) && forall k :: 0 <= k < |course| ==> Tidy(course[k].before, course[k].next))
  }

  lemma UprightOn(course: seq<Turn>, t: Turn, next: u32, ranked: bool, tidy: bool)
    requires Upright(course, t.before, t.next, ranked, tidy)
    requires (ranked ==> Ranked(t.after, next)) && (tidy ==> Tidy(t.after, next))
    ensures Upright(course + [t], t.after, next, ranked, tidy)
  {
    hide Ranked, Tidy;
  }

  /** The database is tidy and no allocation for the events fails. */
  ghost predicate Roomy(es: seq<Entry>, next: u32, events: seq<FsEvent>) {
    && Tidy(es, next) && |es| + |events| * |es| < MAX_CAPACITY
    && forall k :: 0 <= k < |events| ==> Ample(events[k].grants)
  }

  /** One event of the buffer. */
  method NextTurn(db: FsHandlesDb, events: seq<FsEvent>, k: nat, i: nat, roots: Roots, ghost n: nat)
    returns (pushed: seq<MtpEvent>, ghost turn: Turn)
    requires Settled(db) && k < |events| && i == Offset(events, k)
    requires (Taken(events, k) ==> events[k].wd != -1) && Run(db.history).adds + n < MAX_ADDS
    requires forall j :: n <= j < |db.view| ==> db.view[j].watch == -1
    modifies db, db.pool, db.pool.slots
    ensures Settled(db) && Run(db.history).adds <= old(Run(db.history).adds) + n
    ensures forall j :: 0 <= j < |db.pool.slots| ==> db.pool.slots[j] in old(db.pool.slots) || fresh(db.pool.slots[j])
    ensures forall j :: n <= j < |db.view| ==> db.view[j].watch == -1
    ensures LiveHandles(db.view) == Follow(LiveHandles(old(db.view)), pushed)
    ensures events[k].name != ROOT_NAME && RootsNamed(old(db.view)) ==> RemovesSingly(LiveHandles(old(db.view)), pushed)
    ensures RootsNamed(old(db.view)) ==> RootsNamed(db.view)
    ensures old(Ranked(db.view, db.nextHandle)) ==> Ranked(db.view, db.nextHandle)
    ensures turn == Turn(old(db.view), old(db.nextHandle), db.view, pushed) && TurnOk(turn, events, k, roots)
    ensures old(Tidy(db.view, db.nextHandle)) && Ample(events[k].grants) && |old(db.view)| + n < MAX_CAPACITY ==>
      Tidy(db.view, db.nextHandle) && |db.view| <= |old(db.view)| + n
  {
    hide Links, Tallies, Tabled, Pool.Valid, Run, UniqueHandles, ParentsOlder, LiveHandles, RootsNamed, Follow,
         RemovesSingly, Ranked, Tidy, Reacted, Ample, TurnOk;
    ghost var view, next := db.view, db.nextHandle;
    pushed := [];
    BufferBegins(view, events, roots);
    if events[k].len != 0 && i + EVENT_HEADER + events[k].len < READ_BUFFER {
      pushed := HandleEvent(db, events[k], roots, n);
    }
    turn := Turn(view, next, db.view, pushed);
    TurnIs(turn, events, k, roots);
  }

  /** The events a filled buffer yields, one after the other. */
  method HandleBuffer(db: FsHandlesDb, events: seq<FsEvent>, roots: Roots) returns (pushed: seq<MtpEvent>, ghost course: seq<Turn>)
    requires Settled(db)
    requires Run(db.history).adds + |events| * |db.view| < MAX_ADDS
    requires forall k :: 0 <= k < |events| && Taken(events, k) ==> events[k].wd != -1
    modifies db, db.pool, db.pool.slots
    ensures Settled(db)
    ensures LiveHandles(db.view) == Follow(LiveHandles(old(db.view)), pushed)
    ensures RootsNamed(old(db.view)) && (forall k :: 0 <= k < |events| ==> events[k].name != ROOT_NAME) ==>
      Support(LiveHandles(db.view)) == FollowSet(Support(LiveHandles(old(db.view))), pushed)
    ensures |course| == |events| && Course(course, events, roots, old(db.view), db.view) && pushed == PushedBy(course)
    ensures Bytes(events) <= 32768 ==> Handled(course, events, roots)
    ensures old(Ranked(db.view, db.nextHandle)) ==>
      Ranked(db.view, db.nextHandle) && forall k :: 0 <= k < |course| ==> Ranked(course[k].before, course[k].next)
    ensures old(Roomy(db.view, db.nextHandle, events)) ==>
      Tidy(db.view, db.nextHandle) && forall k :: 0 <= k < |course| ==> Tidy(course[k].before, course[k].next)
  {
    hide Links, Tallies, Tabled, Pool.Valid, Run, UniqueHandles, ParentsOlder, LiveHandles, RootsNamed, Follow,
         RemovesSingly, Support, FollowSet, Ranked, Tidy, Reacted, Ample, Course, TurnOk, PushedBy, Taken,
         Handled;
    ghost var start, n := db.view, |db.view|;
    ghost var plain := RootsNamed(start) && forall k :: 0 <= k < |events| ==> events[k].name != ROOT_NAME;
    ghost var ranked, tidy := Ranked(start, db.nextHandle), Roomy(start, db.nextHandle, events);
    pushed, course := [], [];
    BufferBegins(start, events, roots);
    var i, k := 0, 0;
    while k < |events|
      invariant 0 <= k <= |events| && Settled(db) && i == Offset(events, k)
      invariant forall j :: 0 <= j < |db.pool.slots| ==> db.pool.slots[j] in old(db.pool.slots) || fresh(db.pool.slots[j])
      invariant Run(db.history).adds + (|events| - k) * n < MAX_ADDS
      invariant forall j :: n <= j < |db.view| ==> db.view[j].watch == -1
      invariant LiveHandles(db.view) == Follow(LiveHandles(start), pushed)
      invariant plain ==> RemovesSingly(LiveHandles(start), pushed) && RootsNamed(db.view)
      invariant |course| == k && Course(course, events, roots, start, db.view) && pushed == PushedBy(course)
      invariant Upright(course, db.view, db.nextHandle, ranked, tidy)
      invariant tidy ==> |db.view| + (|events| - k) * n < MAX_CAPACITY
    {
      OneEventLess(|events| - k, n);
      var more;
      ghost var turn;
      more, turn := NextTurn(db, events, k, i, roots, n);
      FollowAppend(LiveHandles(start), pushed, more);
      if plain {
        RemovesSinglyAppend(LiveHandles(start), pushed, more);
      }
      CourseOn(course, events, roots, start, turn);
      UprightOn(course, turn, db.nextHandle, ranked, tidy);
      pushed, course := pushed + more, course + [turn];
      i := i + EVENT_HEADER + events[k].len;
      k := k + 1;
    }
    if plain {
      SetFollows(LiveHandles(start), pushed);
    }
    if Bytes(events) <= 32768 {
      CourseIsHandled(course, events, roots, start, db.view);
    }
  }

  lemma TurnIs(t: Turn, events: seq<FsEvent>, k: nat, roots: Roots)
    requires k < |events| && ParentsOlder(t.before)
    requires if Taken(events, k) then Reacted(t.before, t.next, t.after, t.pushed, events[k], roots)
             else t.after == t.before && t.pushed == []
    ensures TurnOk(t, events, k, roots)
  {
  }

  lemma BufferBegins(es: seq<Entry>, events: seq<FsEvent>, roots: Roots)
    ensures Course([], events, roots, es, es) && PushedBy([]) == []
    ensures Follow(LiveHandles(es), []) == LiveHandles(es) && RemovesSingly(LiveHandles(es), [])
  {
  }

  lemma OneEventLess(k: int, n: nat)
    requires k > 0
    ensures k * n == (k - 1) * n + n && (k - 1) * n >= 0
  {
  }
}
