// Renaming an object on the initiator's request: the file first, then the record, which moves
// to its new bucket.
module ObjectRename {
  import opened EntryModel
  import opened HashIndex
  import opened EntryPool
  import opened HandleDb
  import opened FullPath
  import opened Wrappers

  const RESPONSE_OK: nat := 0x2001
  const RESPONSE_GENERAL_ERROR: nat := 0x2002
  const RESPONSE_INVALID_OBJECT_HANDLE: nat := 0x2009
  const RESPONSE_INVALID_OBJECT_PROP_CODE: nat := 0xA801
  const RESPONSE_INVALID_STORAGE_ID: nat := 0x2008
  const RESPONSE_STORE_READ_ONLY: nat := 0x200E
  const RESPONSE_STORE_NOT_AVAILABLE: nat := 0x2013
  const OBJECT_FILE_NAME: nat := 0xDC07
  const ALL_OBJECTS: u32 := 0xFFFF_FFFF

  /** The storages that refuse access, and those that refuse changes. */
  datatype Access = Access(locked: set<u32>, readOnly: set<u32>)

  /** The response if the storage refuses a change. */
  function Denied(roots: Roots, access: Access, storageId: u32): Option<nat> {
    if storageId !in roots then Some(RESPONSE_INVALID_STORAGE_ID)
    else if storageId in access.locked then Some(RESPONSE_STORE_NOT_AVAILABLE)
    else if storageId in access.readOnly then Some(RESPONSE_STORE_READ_ONLY)
    else None
  }

  /** The file system carries the renaming of the record out: both its paths have a real path inside the storage, and the file
      can be renamed. */
  predicate Renamable(es: seq<Entry>, e: Entry, name: Name, roots: Roots, resolves: Name -> bool, renames: (Name, Name) -> bool)
    requires ParentsOlder(es)
  {
    var oldPath := RootOf(roots, e.storageId) + EntryPath(es, roots.Keys, e);
    var newPath := RootOf(roots, e.storageId) + NamedPath(es, roots.Keys, e, name);
    resolves(oldPath) && resolves(newPath) && renames(oldPath, newPath)
  }

  /** The response to a request whose object is record number `at`. */
  function NameResponse(es: seq<Entry>, at: int, newName: Option<Name>, roots: Roots, access: Access,
                        resolves: Name -> bool, renames: (Name, Name) -> bool): nat
    requires ParentsOlder(es) && at < |es|
  {
    if at < 0 then RESPONSE_GENERAL_ERROR
    else if Denied(roots, access, es[at].storageId).Some? then Denied(roots, access, es[at].storageId).value
    else if newName.Some? && Renamable(es, es[at], newName.value, roots, resolves, renames) then RESPONSE_OK
    else RESPONSE_GENERAL_ERROR
  }

  /** The response, case by case, with the two paths read off the chain of directories above the object. */
  lemma ResponseCases(es: seq<Entry>, c: seq<nat>, newName: Option<Name>, roots: Roots, access: Access,
                      resolves: Name -> bool, renames: (Name, Name) -> bool)
    requires ParentsOlder(es) && UniqueHandles(es) && IsChain(es, roots.Keys, c)
    ensures var storage := es[c[0]].storageId;
      var response := NameResponse(es, c[0], newName, roots, access, resolves, renames);
      if storage !in roots then response == 0x2008
      else if storage in access.locked then response == 0x2013
      else if storage in access.readOnly then response == 0x200E
      else
        var oldPath := roots[storage] + NamesDown(es, c);
        var newPath := roots[storage] + NamesDown(es, c[1..]) + [0x2F] + if newName.Some? then newName.value else [];
        response == if newName.Some? && resolves(oldPath) && resolves(newPath) && renames(oldPath, newPath) then 0x2001 else 0x2002
  {
    PathFollowsChain(es, roots.Keys, c);
    if newName.Some? && es[c[0]].storageId in roots {
      NewPathFollowsChain(es, roots, c, newName.value);
    }
    hide IsChain, NamesDown, DirPath, EntryPath, NamedPath;
  }

  lemma NewPathFollowsChain(es: seq<Entry>, roots: Roots, c: seq<nat>, name: Name)
    requires ParentsOlder(es) && UniqueHandles(es) && IsChain(es, roots.Keys, c) && es[c[0]].storageId in roots
    ensures RootOf(roots, es[c[0]].storageId) + NamedPath(es, roots.Keys, es[c[0]], name) ==
            roots[es[c[0]].storageId] + NamesDown(es, c[1..]) + [0x2F] + name
  {
    PathFollowsChain(es, roots.Keys, c);
    hide NamesDown, DirPath;
    var a, b := roots[es[c[0]].storageId], NamesDown(es, c[1..]);
    assert a + (b + [0x2F] + name) == a + b + [0x2F] + name;
  }

  /** `newName` is the sanitised name of the request, if it is acceptable, and `at` the record the handle stands for, or -1. The
      record is renamed exactly when the response is OK. */
  method SetObjectFileName(db: FsHandlesDb, handle: u32, newName: Option<Name>, roots: Roots, access: Access,
                           resolves: Name -> bool, renames: (Name, Name) -> bool, g: Grants)
    returns (response: nat, ghost at: int)
    requires db.Valid() && ParentsOlder(db.view) && UniqueHandles(db.view)
    modifies db, db.list
    ensures db.Valid() && db.list == old(db.list) && ParentsOlder(db.view) && UniqueHandles(db.view)
    ensures -1 <= at < |old(db.view)| && (at < 0 <==> Lookup(old(db.view), roots.Keys, handle) < 0)
    ensures at >= 0 ==> Resolvable(old(db.view)[at], handle, roots.Keys)
    ensures response == NameResponse(old(db.view), at, newName, roots, access, resolves, renames)
    ensures response == RESPONSE_OK ==>
      var es := old(db.view);
      && at >= 0 && newName.Some? && |db.view| == |es|
      && db.view == es[at := es[at].(name := newName.value, inName := db.view[at].inName, inHandle := db.view[at].inHandle)]
      && (g.All() && |es| < MAX_CAPACITY ==> Known(db.view, newName.value, es[at].parent, es[at].storageId))
    ensures response != RESPONSE_OK ==>
      db.view == old(db.view) && db.history == old(db.history) && db.byName == old(db.byName) && db.byHandle == old(db.byHandle)
  {
    hide Links, Tallies, Tabled, Records, Pool.Valid, DirPath, Lookup, NamedPath, EntryPath, ParentsOlder, UniqueHandles;
    LinksLength(db.list, db.view, db.entryList);
    var e;
    e, at := db.GetEntryByHandle(handle, roots.Keys);
    if e == null {
      return RESPONSE_GENERAL_ERROR, -1;
    }
    db.ListShows(at);
    var denied := Denied(roots, access, e.storageId);
    if denied.Some? {
      return denied.value, at;
    }
    var path := BuildFullPath(db, RootOf(roots, e.storageId), roots.Keys, e, e.name, at);
    NamedAsIs(db.view, roots.Keys, db.view[at]);
    if !resolves(path) || newName.None? {
      return RESPONSE_GENERAL_ERROR, at;
    }
    var path2 := BuildFullPath(db, RootOf(roots, e.storageId), roots.Keys, e, newName.value, at);
    if !resolves(path2) || !renames(path, path2) {
      return RESPONSE_GENERAL_ERROR, at;
    }
    ghost var es := db.view;
    db.RenameEntry(e, newName.value, g, at);
    RenameKeepsHandles(es, db.view);
    assert Matches(db.view[at], newName.value, es[at].parent, es[at].storageId);
    return RESPONSE_OK, at;
  }

  /** Setting a property of an object. Only its file name can be set, and only of one object. */
  method SetObjectPropValue(db: FsHandlesDb, handle: u32, propCode: nat, newName: Option<Name>, roots: Roots, access: Access,
                            resolves: Name -> bool, renames: (Name, Name) -> bool, g: Grants)
    returns (response: nat, ghost at: int)
    requires db.Valid() && ParentsOlder(db.view) && UniqueHandles(db.view)
    modifies db, db.list
    ensures db.Valid() && db.list == old(db.list) && ParentsOlder(db.view) && UniqueHandles(db.view)
    ensures handle == 0xFFFF_FFFF ==> response == 0x2009
    ensures handle != 0xFFFF_FFFF && propCode != 0xDC07 ==> response == 0xA801
    ensures handle != 0xFFFF_FFFF && propCode == 0xDC07 ==>
      && -1 <= at < |old(db.view)| && (at < 0 <==> Lookup(old(db.view), roots.Keys, handle) < 0)
      && (at >= 0 ==> Resolvable(old(db.view)[at], handle, roots.Keys))
      && response == NameResponse(old(db.view), at, newName, roots, access, resolves, renames)
    ensures response == RESPONSE_OK ==>
      var es := old(db.view);
      && 0 <= at < |es| && newName.Some? && |db.view| == |es|
      && db.view == es[at := es[at].(name := newName.value, inName := db.view[at].inName, inHandle := db.view[at].inHandle)]
    ensures response != RESPONSE_OK ==> db.view == old(db.view) && db.history == old(db.history)
  {
    at := -1;
    if handle != ALL_OBJECTS {
      if propCode == OBJECT_FILE_NAME {
        hide FsHandlesDb.Valid, ParentsOlder, UniqueHandles, NameResponse, Lookup;
        response, at := SetObjectFileName(db, handle, newName, roots, access, resolves, renames, g);
      } else {
        response := RESPONSE_INVALID_OBJECT_PROP_CODE;
      }
    } else {
      response := RESPONSE_INVALID_OBJECT_HANDLE;
    }
  }

  lemma RenameKeepsHandles(es: seq<Entry>, fs: seq<Entry>)
    requires |es| == |fs|
    requires forall i :: 0 <= i < |es| ==> es[i].handle == fs[i].handle && es[i].parent == fs[i].parent
    requires ParentsOlder(es) && UniqueHandles(es)
    ensures ParentsOlder(fs) && UniqueHandles(fs)
  {
    forall i | 0 <= i < |fs| ensures OlderParent(fs[i]) {
      assert OlderParent(es[i]);
    }
  }
}
