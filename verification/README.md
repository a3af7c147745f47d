# Nook system components in Dafny

A model of the parts of this repository whose correctness is hardest to see, with proofs of what they promise.

- **The MTP object database** (EntryModel, HashIndex, EntryPool, HandleDb, FullPath, FolderScan, ObjectRename, Inotify). One set of
  records is kept at once in a linked list, a table by name, a table by handle and a block pool. EntryModel gives the database as a
  value with its operations and runs; FsHandlesDb is a class over linked records whose validity ties all four structures to the run
  of operations so far. On top stand the two passes that build a path, the directory scan, the rename and the three event loops.
- **The MTP wire format** (Utf, Usbstring, MtpHelpers, MtpDatasets, PropList). Bounded writes with an offset that stays negative
  after an overflow, strings between UTF-8 and counted UTF-16, the ObjectInfo dataset against its reader, the event dataset and the
  self-describing property list. Layouts follow sections 3.2.3 and 5.3.1 of the MTP 1.1 specification as the program implements them.
- **The touch shim** (PlatoShim). Raw multitouch batches become frames in an overwrite-oldest ring, read in pieces of any size. The
  ring is proved to refine a transducer of event streams.
- **The button supervisor** (Overlays, Gestures, ButtonHistory, Supervisor). Overlays are drawn with save-under on a framebuffer
  array; gestures are a timed state machine with properties of whole runs; its outputs are read off the history of the buttons alone;
  the event loop is proved to be that machine and to keep the screen restorable.
- **Smaller pieces**: the configuration tokenizer (MtpCfg), the cancel handshake of the two USB threads as an interleaving state
  machine (CancelHandshake), and the clipping of screen updates in C's unsigned arithmetic (RefreshRegion).

Lists of records and views of them run from the oldest to the newest record, the reverse of the program's linked list. Methods take
ghost positions where the program has only pointers.

What the proofs found out about the code:

- A power press read after the deadline of a waiting one, before the timer, loses the waiting click (`LatePressLosesClick`); every
  press is accounted for with exactly these losses (`PressesAccounted`, `GreedyIffTimely`). The constant of
  250 ms for a single Home tap in `btn-watcher.c` is not used: a tap is confirmed after 400 ms.
- A side button pressed after a reported Home hold is the only way to a virtual Home key that does not alternate or stays down
  (`HomeKeyAlternates`).
- Scanning an unchanged directory twice is stable exactly when every visible name still stats (`RescanChangesNothing`), which the
  program's own listings guarantee (`RescanOfListingIsStable`).
- A deletion clears a watched directory exactly if at most one record has the name and the name table holds it
  (`ClearedExactly`); renaming a file over a recorded one is a way to lose that (`RenamedTwinStays`).
- A parameter past the end of a line reads as an empty word, not as missing, whenever the line ends in a line break
  (`ParamReadsPrinted`), and a flag test is an element test exactly for non-empty flags without commas (`FlagMeansElement`).
- A cancelled transfer can be answered OK, and because the data thread does not take the mutex an answered cancel can become pending
  again; both are characterised exactly (`GrantedTransferAnswers`, `AnsweredRequestComesBack`). Two status replies clear a request
  unless the first of them has already missed it (`TwoStatusRepliesClear`).
- A rectangle wholly left of the panel refreshes the full width, one above it the full height, and one whose end wraps around is
  mostly not refreshed (`RegionIsTight`, `RegionCovers`).
- The association type is never part of a property list (`NoAssociationType`).

Check everything with `dafny verify dfyconfig.toml`.

## Model

| member | source | states |
|---|---|---|
| EntryModel.RunOrdersHandles | components/system/src/umtprd/src/fs_handles_db.c:298-345 | on every run of adds, root allocations, deletions, renames, resizes and watches with fewer than 2^32 - 1 adds, handles are handed out as 1, 2, 3, ...: non-root handles strictly increase with age, lie below the next handle and are unique |
| EntryModel.RunKeepsParentsOlder | components/system/src/umtprd/src/fs_handles_db.c:549-599 | on such a run whose adds all name an existing parent, every parent handle is smaller than its child handle, which is why walking up the tree ends |
| EntryModel.RunKeepsKinds | components/system/src/umtprd/src/fs_handles_db.c:298-387 | in every run the record with handle h is a directory exactly if the h-th add asked for one, and has the parent and storage that add named, whatever came later; a root is a directory |
| EntryModel.RunHoldsAll | components/system/src/umtprd/src/hash_utils.c:107-140 | on every run whose bucket insertions all succeed, every record is in both tables |
| EntryModel.RunKeepsRootsOldest | components/system/src/umtprd/src/mtp_operations/mtp_op_opensession.c:59-77 | if every root is made while its storage has no live record, as opening a session on an empty database does, and mounting a storage after it was unmounted, a root is older than every live record of its storage |
| EntryModel.RunIsRanked | components/system/src/umtprd/src/fs_handles_db.c:298-387 | on every run with clean mounts that renames no root, directories are older than what is in them: handles ascend, only roots have handle 0, and roots are the oldest of their storage |
| EntryModel.RunIsTidy | components/system/src/umtprd/src/fs_handles_db.c:298-408 | every run whose operations record no name twice, drop nothing from the tables, rename no root and make roots only on empty storages leads to a tidy database: ranked, with distinct names and every record in both tables |
| EntryModel.KnownIsMatch | components/system/src/umtprd/src/hash_utils.c:142-159 | while no record was dropped, the name table has an answer if and only if a linear scan of the list finds a live record with that name, parent and storage |
| EntryModel.SoleIfLast | components/system/src/umtprd/src/inotify.c:280-293 | dropping the record that the name table leads to leaves no record of that name below that parent if and only if it was the only one and no other was missing from the table |
| EntryModel.RenameMakesTwins | components/system/src/umtprd/src/mtp_properties.c:518-553 | renaming a live record onto the name of another one in its directory leaves two matches: whichever one is dropped, one stays |
| EntryModel.LookupAgreesWithScan | components/system/src/umtprd/src/fs_handles_db.c:512-547 | with unique handles and no dropped record, the table lookup and the linear lookup agree on every non-root handle of a present storage |
| HashIndex.FsEntry.Begin | components/system/src/umtprd/src/fs_handles_db.c:311-317 | a slot is zeroed and given its handle, parent and storage |
| HashIndex.FsEntry.Finish | components/system/src/umtprd/src/fs_handles_db.c:319-336 | name, size, kind and no watch are filled in, and nothing else changes |
| HashIndex.HashFunctionName | components/system/src/umtprd/src/hash_utils.c:72-81 | the loop computes the 32-bit wrapping hash (times 33, plus the byte) of the whole name, reduced to a bucket number |
| HashIndex.HashOnward | components/system/src/umtprd/src/hash_utils.c:72-81 | the hash starts at 5381 and takes in each byte as 33 times the hash plus the byte, in 32 bits; one of 1024 buckets is chosen |
| HashIndex.HashNode.Insert | components/system/src/umtprd/src/hash_utils.c:107-128 | the vector grows as needed and the record is appended; without memory or at the size limit the record is silently dropped and the contents stay |
| HashIndex.HashNode.Expand | components/system/src/umtprd/src/hash_utils.c:51-70 | doubling happens exactly below the size limit and with memory, and keeps the contents |
| HashIndex.HashNode.Remove | components/system/src/umtprd/src/hash_utils.c:161-173 | the scanning and shifting loops remove the first occurrence and keep the order of the rest |
| HashIndex.WithoutAt | components/system/src/umtprd/src/hash_utils.c:161-173 | removal cuts out exactly the first occurrence |
| HashIndex.WithoutMember | components/system/src/umtprd/src/hash_utils.c:161-173 | from a vector without duplicates removal takes out the one element and no other |
| HashIndex.IndexMembers | components/system/src/umtprd/src/hash_utils.c:107-187 | in a consistent table an element sits in the bucket of its key and in no other |
| HashIndex.IndexAppend | components/system/src/umtprd/src/hash_utils.c:107-140 | inserting a new record keeps a table consistent, with the record marked absent if its bucket drops it |
| HashIndex.IndexRemove | components/system/src/umtprd/src/hash_utils.c:161-187 | removing a record keeps a table consistent, with the record in no bucket |
| HashIndex.IndexRestore | components/system/src/umtprd/src/mtp_properties.c:550-552 | putting a removed record back, under any key, keeps a table consistent |
| EntryPool.Pool.AllocateBlock | components/system/src/umtprd/src/hash_utils.c:90-105 | a new block adds 1024 fresh slots behind those in use; without memory nothing changes |
| EntryPool.Pool.Take | components/system/src/umtprd/src/fs_handles_db.c:302-311 | the next free slot, distinct from all slots in use, is handed out; it fails exactly when no slot is free and no block can be allocated, and then changes nothing |
| EntryPool.Pool.GiveBack | components/system/src/umtprd/src/fs_handles_db.c:320-327 | the last slot handed out is free again |
| HandleDb.FsHandlesDb.AllocEntry | components/system/src/umtprd/src/fs_handles_db.c:298-345 | a record with the next handle goes to the front of the list and into both tables, live and unwatched, with the name, kind, size, parent and storage asked for; a failed allocation leaves list, tables, next handle and the slots in use unchanged |
| HandleDb.FsHandlesDb.AllocRootEntry | components/system/src/umtprd/src/fs_handles_db.c:347-387 | a root record is added likewise: handle 0, parent 0, the name of a single slash, a directory of size 1; a failed name copy leaves everything unchanged but leaks one slot |
| HandleDb.FsHandlesDb.FindEntry | components/system/src/umtprd/src/hash_utils.c:142-159 | the result is a live record with that name, parent and storage, and is null exactly when the table holds none; while no record was dropped, exactly when a scan of the list finds none |
| HandleDb.FsHandlesDb.GetEntryByHandle | components/system/src/umtprd/src/fs_handles_db.c:512-529 | the bucket scan finds a live record with that handle on a present storage whenever the table holds one; with unique handles it is the one record |
| HandleDb.FsHandlesDb.GetEntryByHandleAndStorageId | components/system/src/umtprd/src/fs_handles_db.c:531-547 | the list scan returns the newest live record with that handle on that storage |
| HandleDb.FsHandlesDb.AddEntry | components/system/src/umtprd/src/fs_handles_db.c:389-408 | a known entry is returned unchanged, an unknown one is added with every field as asked; with memory and room the new record is in both tables |
| HandleDb.FsHandlesDb.MarkDeleted | components/system/src/umtprd/src/fs_handles_db.c:452-461 | flagging a record deleted and unwatched changes that record only and keeps all four structures consistent |
| HandleDb.FsHandlesDb.SetWatch | components/system/src/umtprd/src/inotify.c:371-382 | giving a record the watch descriptor obtained when its directory is listed changes that record only and keeps all four structures consistent |
| HandleDb.FsHandlesDb.RemoveEntry | components/system/src/umtprd/src/hash_utils.c:175-187 | the record leaves the bucket of its name and the bucket of its handle |
| HandleDb.FsHandlesDb.RenameEntry | components/system/src/umtprd/src/mtp_properties.c:550-553 | taking the record out, renaming it and putting it back keeps all four structures consistent and every other record as it was; with memory the record is in both tables |
| HandleDb.FsHandlesDb.InsertEntry | components/system/src/umtprd/src/hash_utils.c:130-140 | the record goes into the bucket of its name and the bucket of its handle, and nowhere else |
| HandleDb.FsHandlesDb.IndexedExactlyOnce | components/system/src/umtprd/src/hash_utils.c:107-187 | in every valid state without dropped records each list record is once in the bucket of its name, once in the bucket of its handle and in no other bucket, and nothing else is in any bucket |
| HandleDb.FsHandlesDb.SlotsCounted | components/system/src/umtprd/src/fs_handles_db.c:298-387 | records occupy distinct pool slots, and 1024 times the blocks minus the free count is the list length plus the leaked slots |
| HandleDb.TabledRename | components/system/src/umtprd/src/mtp_properties.c:550-553 | the rename as a change of the two tables |
| HandleDb.StepRest | components/system/src/umtprd/src/fs_handles_db.c:531-547 | following the next pointer visits the records from newest to oldest and ends after the oldest |
| FullPath.MeasurePath | components/system/src/umtprd/src/fs_handles_db.c:566-590 | the first pass computes the length of the path below the root path and ends because parents are older |
| FullPath.FillName | components/system/src/umtprd/src/fs_handles_db.c:613-624 | one step of the second pass writes a slash and the name in front of what is filled |
| FullPath.FillPath | components/system/src/umtprd/src/fs_handles_db.c:608-635 | the right to left fill ends exactly where the measured length says and writes a slash and the name of each ancestor in order |
| FullPath.BuildFullPath | components/system/src/umtprd/src/fs_handles_db.c:549-639 | the buffer holds the root path and then, along the chain of parents that the handle table yields on present storages, a slash and the name of each directory from the outermost one down to the object |
| FullPath.PathFollowsChain | components/system/src/umtprd/src/fs_handles_db.c:566-635 | for every chain of records from an object to a directory with no parent to be found, each the live one that the handle table holds for the parent handle before it, the path is a slash and the name of each record from the top down |
| FullPath.ChainOf | components/system/src/umtprd/src/fs_handles_db.c:573-590 | every record has such a chain, because parents are older |
| FullPath.FullPathFollowsChain | components/system/src/umtprd/src/fs_handles_db.c:592-639 | the whole path on a present storage is its root path and then the names of the chain |
| FullPath.DirPathSame | components/system/src/umtprd/src/fs_handles_db.c:549-639 | a path depends only on the records it goes through |
| FullPath.DirPathPrefix | components/system/src/umtprd/src/fs_handles_db.c:549-639 | adding newer records leaves every path as it was |
| FolderScan.InitSearchHandle | components/system/src/umtprd/src/fs_handles_db.c:480-487 | the cursor starts before the newest record |
| FolderScan.GetNextChildHandle | components/system/src/umtprd/src/fs_handles_db.c:489-510 | the cursor returns the next child and skips no child; it ends when none is left |
| FolderScan.VisitChild | components/system/src/umtprd/src/fs_handles_db.c:446-470 | a child whose path does not stat is marked deleted, any other one takes the size found |
| FolderScan.SweepFolder | components/system/src/umtprd/src/fs_handles_db.c:442-472 | the sweep visits the children once each, newest first, even while it marks children deleted: the visited positions descend and are exactly the old children; each is dropped, resized or kept as its path stats, and nothing else changes |
| FolderScan.AddListed | components/system/src/umtprd/src/fs_handles_db.c:420-439 | only visible names that no lookup finds are added, behind the other records; every visible name for whose record there was memory is recorded; with memory throughout the result is the addition on values |
| FolderScan.ScanAndAddFolder | components/system/src/umtprd/src/fs_handles_db.c:410-478 | however the allocations turn out, the scan is an addition of visible names followed by the sweep of the whole list in between; with memory throughout that addition is exact; it reports whether the directory could be read |
| FolderScan.RunIsScannable | components/system/src/umtprd/src/fs_handles_db.c:298-408 | every run that adds below existing parents and renames no storage root leads to a database on which the laws of a scan hold |
| FolderScan.ScanSynchronises | components/system/src/umtprd/src/fs_handles_db.c:410-478 | after a scan a name is a live child if and only if its path does not turn out gone, and either it was a child before or it is listed, is neither one dot nor two, and has no leading dot unless hidden names are shown |
| FolderScan.DotsStayOut | components/system/src/umtprd/src/fs_handles_db.c:432-433 | a scan never makes the directory itself or its parent a child |
| FolderScan.ScanKeepsRecords | components/system/src/umtprd/src/fs_handles_db.c:442-472 | a scan keeps handles and names; records that are not children are untouched, surviving children take the new size |
| FolderScan.RescanChangesNothing | components/system/src/umtprd/src/fs_handles_db.c:410-478 | a second scan of an unchanged directory changes nothing if and only if no visible name of the listing fails to stat |
| FolderScan.RescanOfListingIsStable | components/system/src/umtprd/src/fs_handles_db.c:152-220 | the program lists only names whose path stats, so while the scanned path is the recorded one a second scan changes nothing |
| FolderScan.RescanOfGoneName | components/system/src/umtprd/src/fs_handles_db.c:410-478 | a listed name that is gone when the records are swept leaves one more dropped record behind at each scan |
| FolderScan.ScanAddsChildren | components/system/src/umtprd/src/fs_handles_db.c:420-439 | the children after the additions are the old ones and the visible names |
| ObjectRename.SetObjectFileName | components/system/src/umtprd/src/mtp_properties.c:494-555 | the response for every handle, storage access and name; the one record is renamed exactly when the response is OK, that is when the handle is found, its storage allows changes, the name is acceptable, both paths resolve and the file system renames |
| ObjectRename.ResponseCases | components/system/src/umtprd/src/mtp_properties.c:494-555 | the response code for every storage, access and name, with the old and the new path read off the chain of directories |
| ObjectRename.SetObjectPropValue | components/system/src/umtprd/src/mtp_properties.c:481-569 | the handle of all objects and every other property are refused with their own responses |
| ObjectRename.RenameKeepsHandles | components/system/src/umtprd/src/mtp_properties.c:550-553 | a rename keeps parents older and handles unique |
| Inotify.GroundedIsSettled | components/system/src/umtprd/src/fs_handles_db.c:298-408 | every database whose history adds below existing parents meets what the watcher events start from |
| Inotify.GetEntryByWd | components/system/src/umtprd/src/fs_handles_db.c:776-792 | the next live record with that watch descriptor from a list position on, skipping none |
| Inotify.CreateLoop | components/system/src/umtprd/src/inotify.c:148-209 | the loop ends and visits the live watchers once each, newest first; the new records are, one for one and in order, those of the created file below watchers whose status shows one that no lookup found, and each is announced; with memory every created file that stats is recorded below every watcher |
| Inotify.ChildIsNewer | components/system/src/umtprd/src/fs_handles_db.c:298-387 | a live child is newer than its directory |
| Inotify.DropUndisturbs | components/system/src/umtprd/src/inotify.c:282-288 | dropping a child leaves the paths of its directory and of all older records as they were |
| Inotify.DeleteLoop | components/system/src/umtprd/src/inotify.c:262-317 | the loop ends and visits, newest first and once each, every watcher it has not dropped before; only children of that name of a watcher are dropped; a watcher whose path resolves keeps no live child of that name if at most one was there and the table held it; otherwise, if no other watcher stands for the same directory, it keeps one if it had one; the pushed events, all removals, turn the old live handles into the new ones |
| Inotify.ClearedExactly | components/system/src/umtprd/src/inotify.c:262-317 | after a deletion a watcher with a handle of its own has a record of the deleted name if and only if it had one before and its path did not resolve, or more than one record matched, or one was missing from the name table |
| Inotify.TidyIsCleared | components/system/src/umtprd/src/inotify.c:262-317 | in a tidy database a deletion leaves no record of the name below any watcher whose path resolves |
| Inotify.RenamedTwinStays | components/system/src/umtprd/src/mtp_properties.c:518-553 | a run in which a file is renamed over a recorded one, and whose deletion leaves a record of the file behind |
| Inotify.ModifyLoop | components/system/src/umtprd/src/inotify.c:211-260 | the pushed events answer, one for one and newest first, exactly the watchers whose path resolves and that have a record of that name, each with the handle of such a record; the database stays as it is |
| Inotify.TidyGrows | components/system/src/umtprd/src/inotify.c:161-172 | a record added because no lookup found it keeps the database tidy: in both tables, names unique, handles ascending, roots oldest |
| Inotify.HandleEvent | components/system/src/umtprd/src/inotify.c:143-321 | one event does to the records what its kind says and no more: for a created file exactly its records are added and announced, for a deleted one records of its name are dropped as far as they can be, a modified one is reported, and anything else changes nothing; the pushed events turn the live handles before it into those after it |
| Inotify.HandleBuffer | components/system/src/umtprd/src/inotify.c:140-321 | a whole buffer is its events one after the other, each with its effect on the records; of a read of at most 32768 bytes every event with a name is handled, but the last one only if the read is shorter; a ranked database is ranked after every event and a tidy one tidy, the last included; the set of handles a listener keeps by following the pushed events is exactly the set of live handles |
| Inotify.CourseIsHandled | components/system/src/umtprd/src/inotify.c:47-316 | which events of a read are handled, from the lengths alone: a header of 16 bytes each, and the names |
| Inotify.FollowAppend | components/system/src/umtprd/src/inotify.c:140-321 | following two stretches of events is following one after the other |
| Inotify.SetFollows | components/system/src/umtprd/src/inotify.c:140-321 | keeping a set is as good as counting, as long as every removed handle is held once |
| Inotify.LiveOfDiscard | components/system/src/umtprd/src/inotify.c:284-293 | marking a live record deleted takes exactly its handle out of the live handles |
| Utf.Utf8Size | components/system/src/umtprd/src/usbstring.c:252-266 | the loop counts the leading one bits of the first byte, at least one |
| Utf.DecodeAt | components/system/src/umtprd/src/usbstring.c:268-323 | the unit and the number of bytes for one, two and three byte characters; zero for anything malformed or longer |
| Utf.DecodeUndoesEncode | components/system/src/umtprd/src/usbstring.c:162-323 | decoding the encoding of any non-zero 16-bit unit, wherever it stands, gives the unit back and consumes exactly its bytes |
| Utf.KnownCharacters | components/system/src/umtprd/src/usbstring.c:162-204 | the encoding of a letter, an accented letter, the euro sign and an emoji |
| Usbstring.FitCount | components/system/src/umtprd/src/usbstring.c:206-250 | the number of units that fit: the longest prefix whose encoding is shorter than the buffer |
| Usbstring.Unicode2CharString | components/system/src/umtprd/src/usbstring.c:206-250 | the buffer holds, terminated, the encoding of the units up to the first zero, cut at a character boundary if it does not fit; the result says whether it was cut, and nothing past the buffer is written |
| Usbstring.Emitted | components/system/src/umtprd/src/usbstring.c:325-363 | at most 255 units come out, the last one zero and no other |
| Usbstring.DecodeEncoded | components/system/src/umtprd/src/usbstring.c:162-363 | decoding an encoded unit string gives the units back |
| Usbstring.UnitsRoundTrip | components/system/src/umtprd/src/usbstring.c:206-363 | units to characters and back gives any non-zero units that fit, and a terminator |
| MtpHelpers.Poke08 | components/system/src/umtprd/src/mtp_helpers.c:101-116 | the byte is appended below the limit, otherwise the result is negative; a negative offset stays negative and writes nothing |
| MtpHelpers.Poke16 | components/system/src/umtprd/src/mtp_helpers.c:76-99 | two bytes are appended, low byte first, under the same rule |
| MtpHelpers.Poke32 | components/system/src/umtprd/src/mtp_helpers.c:49-74 | four bytes are appended, low byte first, under the same rule |
| MtpHelpers.LowByteFirst | components/system/src/umtprd/src/mtp_helpers.c:49-99 | numbers are written with the lowest byte first |
| MtpHelpers.AppendedTwice | components/system/src/umtprd/src/mtp_helpers.c:49-116 | successive pokes append the bytes one after the other; once one overflows all later ones fail and nothing at or past the limit is written |
| MtpHelpers.Peek | components/system/src/umtprd/src/mtp_helpers.c:118-137 | the loop reads a little-endian number of one to four bytes |
| MtpHelpers.FromLeOfLe16 | components/system/src/umtprd/src/mtp_helpers.c:76-137 | reading undoes writing for 16 bits |
| MtpHelpers.FromLeOfLe32 | components/system/src/umtprd/src/mtp_helpers.c:49-137 | reading undoes writing for 32 bits |
| MtpHelpers.Char2UnicodeString | components/system/src/umtprd/src/usbstring.c:325-363 | the units of the string up to 254 and a null are appended, or the result is negative |
| MtpHelpers.PokeString | components/system/src/umtprd/src/mtp_helpers.c:160-205 | a count byte of 1 to 255 followed by at most 254 decoded units and a null; an empty string is written with its count; overflow makes the result negative |
| MtpDatasets.BuildObjectInfoDataset | components/system/src/umtprd/src/mtp_datasets.c:176-255 | the dataset, field by field, or a negative result with no write at or past the limit; nothing if the file cannot be examined; otherwise the record takes over the size found |
| MtpDatasets.ParseObjectInfo | components/system/src/umtprd/src/mtp.c:237-260 | format, size and name are read at the fixed offsets |
| MtpDatasets.ObjectInfoRoundTrip | components/system/src/umtprd/src/mtp_datasets.c:202-248 | reading a built dataset gives the storage, the format 0x3001 for a directory and 0x3000 otherwise, the size saturated at 0xFFFFFFFF, the parent, whether it is a folder, zero elsewhere in the fixed part, and the same name if and only if the name encodes at most 254 non-zero 16-bit units in fewer than 257 bytes |
| MtpDatasets.DatesFollow | components/system/src/umtprd/src/mtp_datasets.c:224-255 | behind the fixed part stand the name, the two dates, which are the same, and an empty string, and nothing else |
| MtpDatasets.LongCharacterIsLost | components/system/src/umtprd/src/usbstring.c:268-323 | a name with a character of four bytes never comes back as it was |
| MtpDatasets.BuildEventDataset | components/system/src/umtprd/src/mtp_datasets.c:257-279 | the event, with its own size patched in at the front once it is complete; nothing is patched after an overflow |
| MtpDatasets.EventReadsBack | components/system/src/umtprd/src/mtp_datasets.c:257-279 | the container type, the event, the session and each parameter read back from an event |
| PropList.ObjectPropListElement | components/system/src/umtprd/src/mtp_properties.c:688-754 | a record is appended and counted exactly when the property is asked for and in the table, in the encoding of its data type |
| PropList.BuildObjectPropListDataset | components/system/src/umtprd/src/mtp_properties.c:756-846 | the count patched in at the front equals the number of records appended; overflow makes the result negative; the record takes over the size found |
| PropList.PropListRoundTrip | components/system/src/umtprd/src/mtp_properties.c:688-846 | re-parsing by data type gives exactly as many records as the count says, with their handle, property, type and value, and consumes exactly the returned length |
| PropList.ReaderFinds | components/system/src/umtprd/src/mtp_properties.c:688-846 | a reader of the list finds exactly the properties asked for, each once and with its data type: storage, format, protection, size, names, dates, parent and identifier of the object |
| PropList.RecordsOf | components/system/src/umtprd/src/mtp_properties.c:705-708 | every record belongs to the object and, when one property was asked for, only to that property |
| PropList.NoAssociationType | components/system/src/umtprd/src/mtp_properties.c:803-808 | the association type is never listed: its code has no row in the property table |
| PlatoShim.RunAppend | components/system/src/plato_shim.c:457-519 | the transducer makes of two stretches of raw events what it makes of one after the other |
| PlatoShim.StateIsNewest | components/system/src/plato_shim.c:471-485 | the touch state is what the raw events said last |
| PlatoShim.FrameCarriesNewest | components/system/src/plato_shim.c:486-508 | each report sends one frame while the finger is down, one when it has just gone up and otherwise nothing: the newest non-negative tracking id, the newest X, the newest Y, a touch size of 100 or 0, and a report, all at the time of the report |
| PlatoShim.OutputIsFramed | components/system/src/plato_shim.c:486-508 | for every raw stream the output is whole frames of five events, with a contact open in it exactly while the finger was down at the last report |
| PlatoShim.WholeFrames | components/system/src/plato_shim.c:486-508 | such a stream consists of whole frames of five events |
| PlatoShim.FramesAlternate | components/system/src/plato_shim.c:486-508 | every frame of such a stream is a contact frame or a lift frame directly after a contact frame: no lift without a contact, and exactly one lift between two runs of contacts |
| PlatoShim.RingPut | components/system/src/plato_shim.c:187-198 | a ring that is not full holds the old events and then the new one |
| PlatoShim.RingTake | components/system/src/plato_shim.c:514-517 | taking from the ring gives its oldest event and leaves the rest |
| PlatoShim.Shim.constructor | components/system/src/plato_shim.c:382-391 | opening the device starts with an empty ring, the finger up and zero coordinates |
| PlatoShim.Shim.Enqueue | components/system/src/plato_shim.c:187-198 | the event is appended; a ring of 127 events gives up its oldest one, any other one nothing |
| PlatoShim.Shim.Take | components/system/src/plato_shim.c:469-508 | one raw event does to the fields and the ring what the transducer does |
| PlatoShim.Shim.TakeBatch | components/system/src/plato_shim.c:462-509 | a batch read into an empty ring leaves at most 80 events queued and overwrites none |
| PlatoShim.Shim.Fill | components/system/src/plato_shim.c:461-509 | raw batches are read only while nothing is queued, and an end or error of the device is passed on |
| PlatoShim.Shim.Drain | components/system/src/plato_shim.c:511-519 | as many of the oldest events as fit are handed out in order |
| PlatoShim.Shim.Read | components/system/src/plato_shim.c:457-519 | after every read the events delivered so far followed by those still queued are the transducer applied to all raw events so far, whatever the batches and the buffer sizes; at most 80 events are queued |
| PlatoShim.Shim.Close | components/system/src/plato_shim.c:424-434 | closing the device empties the ring and lifts the finger but keeps the last coordinates |
| Overlays.DrawRect | components/system/src/btn-watcher.c:145-156 | exactly the pixels of the rectangle on the visible panel take the colour |
| Overlays.DrawRectOutline | components/system/src/btn-watcher.c:158-163 | exactly the pixels of the border take the colour |
| Overlays.DrawChar | components/system/src/btn-watcher.c:165-183 | every dot of the glyph takes the foreground or background colour of the font, except that unscaled text leaves a black background alone; nothing outside the glyph box changes |
| Overlays.DotsApart | components/system/src/btn-watcher.c:174-180 | a pixel belongs to at most one dot |
| Overlays.DrawString | components/system/src/btn-watcher.c:185-192 | every character of the text is on the screen, dot by dot and side by side, and nothing outside the row of glyph boxes changes |
| Overlays.DrawStringCentered | components/system/src/btn-watcher.c:194-201 | the text stands in the middle of the box, with divisions rounding toward zero; text that fits stays inside |
| Overlays.SaveUnder | components/system/src/btn-watcher.c:217-224 | the backup holds the rectangle, row by row |
| Overlays.RestoreUnder | components/system/src/btn-watcher.c:203-208 | the rectangle is put back from the backup and nothing else changes |
| Overlays.PaintToast | components/system/src/btn-watcher.c:227-236 | a black panel with a white border, with the title, and the subtitle if there is one, centred in their boxes; text that fits leaves the border and everything outside the toast alone |
| Overlays.PaintCard | components/system/src/btn-watcher.c:264-311 | the card is drawn inside its rectangle; beside the footer it has its black border on white |
| Overlays.Screen.ShowToast | components/system/src/btn-watcher.c:213-239 | the toast is shown for 2200 ms, and the screen with the shown overlays replaced by their backups stays what it was |
| Overlays.Screen.HideToast | components/system/src/btn-watcher.c:203-211 | hiding keeps the same view; the toast stays only if it has no backup |
| Overlays.Screen.ShowMediaCard | components/system/src/btn-watcher.c:251-314 | showing the card keeps the same view |
| Overlays.Screen.HideMediaCard | components/system/src/btn-watcher.c:241-249 | hiding the card keeps the same view; the card stays only if it has no backup |
| Overlays.Screen.ReaderDraws | components/system/src/btn-watcher.c:203-258 | a write by the reader is kept exactly when no shown overlay covers it, and otherwise remembered as lost until the pixel is written again |
| Overlays.Screen.HiddenIsPlain | components/system/src/btn-watcher.c:203-249 | after any interleaving, with no overlay shown the screen is exactly what lay under the overlays, with the reader's writes elsewhere |
| Overlays.Screen.HiddenIsBare | components/system/src/btn-watcher.c:203-249 | after any interleaving, with no overlay shown the screen is exactly what it would be had no overlay ever been drawn, if and only if every pixel whose latest write was made under a shown overlay has that colour anyway; writes outside the two rectangles are never lost |
| Overlays.Screen.DrawUnderToast | components/system/src/btn-watcher.c:203-239 | a pixel drawn under a shown toast is lost when the toast is hidden: the screen is then not what it would be without overlays |
| Gestures.PressesAccounted | components/system/src/btn-watcher.c:505-578 | on every run the power presses are the clicks sent, twice the toggles, the tap still waiting and the taps forgotten because a press came after their deadline and before the timer |
| Gestures.PowerIsGreedy | components/system/src/btn-watcher.c:505-578 | with deadlines served before later presses the power channel is the left to right pairing of presses at most 400 ms apart into toggles, with a click for every other press |
| Gestures.GreedyIffTimely | components/system/src/btn-watcher.c:505-578 | the power channel is that pairing after every turn of a run if and only if no press finds an expired tap waiting and none comes within the window of a tap whose timer has fired |
| Gestures.FoldIsGreedy | components/system/src/btn-watcher.c:568-578 | deciding press by press gives the left to right pairing |
| Gestures.LatePressLosesClick | components/system/src/btn-watcher.c:568-578 | two presses 401 ms apart can yield one click only: the second press, read late, replaces the first |
| Gestures.HomeKeyAlternates | components/system/src/btn-watcher.c:517-541 | on a run with physically alternating Home presses that ends with Home up, the virtual Home key always alternated and was released whenever Home was up if and only if no side button went down after a hold was reported |
| Gestures.LateChordLeavesKeyDown | components/system/src/btn-watcher.c:596-600 | a run in which a side button is pressed after a reported hold and the virtual Home key stays down |
| Gestures.PendingTapMeansHomeUp | components/system/src/btn-watcher.c:531-623 | in every reachable state a tap is pending only while Home is up |
| Gestures.TickHomePart | components/system/src/btn-watcher.c:517-541 | what the timers write to the Home key and do to the Home flags |
| Gestures.TakeHomePart | components/system/src/btn-watcher.c:579-733 | what an event writes to the Home key and does to the Home flags |
| ButtonHistory.FlagsAreHistory | components/system/src/btn-watcher.c:491-733 | after every run the Home and media flags say what the events alone say: Home down since when, chord used, hold reported, tap waiting, double tap made, media mode on |
| ButtonHistory.SideButtons | components/system/src/btn-watcher.c:624-733 | the virtual side buttons do, in order and once each, the presses made with Home up outside media mode and the releases made outside media mode with no chord in use |
| ButtonHistory.HomeKey | components/system/src/btn-watcher.c:517-677 | the virtual Home key reports each hold of half a second, clicks for each tap that stays alone for 400 ms, is released after a hold and clicks for the light dialog, and does nothing else |
| ButtonHistory.PlayerCommands | components/system/src/btn-watcher.c:580-723 | playback is toggled by each double tap of Home, and in media mode by each tap; there the four side buttons ask for the previous track, shuffle, the next track and the toggle |
| ButtonHistory.Applications | components/system/src/btn-watcher.c:626-698 | each chord names the application it switches to, which is spared; a chord that finds its application active opens a light dialog or leaves the browser |
| ButtonHistory.Switches | components/system/src/btn-watcher.c:734-755 | every switch is passed on, and a closing lid suspends the device unless the reader is active |
| ButtonHistory.RunsAreOrderly | components/system/src/btn-watcher.c:491-756 | nothing else is written, and each Home or power key is followed at once by a synchronisation |
| Supervisor.Supervisor.Timers | components/system/src/btn-watcher.c:491-541 | every deadline that is over is served, and the wait that follows ends no later than the next one |
| Supervisor.Supervisor.OnPower | components/system/src/btn-watcher.c:568-578 | a press within 400 ms of a waiting one toggles the front light, any other one starts a wait |
| Supervisor.Supervisor.OnHomeDown | components/system/src/btn-watcher.c:580-595 | the press starts a hold; a second one in time toggles playback and shows the card |
| Supervisor.Supervisor.OnHomeUp | components/system/src/btn-watcher.c:596-623 | the release ends a chord, a hold or a double tap, or is a tap |
| Supervisor.Supervisor.OnChord | components/system/src/btn-watcher.c:626-698 | the four chords: media mode is left, with its card hidden, before an application is switched; afterwards either media mode shows its card or a toast is shown for 2200 ms |
| Supervisor.Supervisor.OnPageKey | components/system/src/btn-watcher.c:624-733 | side buttons are chords while Home is held, player controls in media mode and page keys otherwise; a release is swallowed in a chord or in media mode |
| Supervisor.Supervisor.Handle | components/system/src/btn-watcher.c:568-755 | one event does what the state machine says |
| Supervisor.Supervisor.ReaderWrites | components/system/src/btn-watcher.c:543-556 | while the supervisor waits the reader draws: what the screen would show without overlays is painted over |
| Supervisor.Supervisor.OneTurn | components/system/src/btn-watcher.c:491-756 | the timers, the wait in which the reader draws, and the event, in this order: the state machine's step and the reader's writes |
| Supervisor.Supervisor.EventLoop | components/system/src/btn-watcher.c:491-756 | on every run, with the reader drawing during each wait, the loop behaves as the state machine; its side buttons, Home key, player commands, applications and switches are those that the history of the buttons says; media mode is on only while the card is shown, the picture without overlays is the old one with the reader's writes painted in order, and only pixels the reader wrote can be lost |
| MtpCfg.GetNextWord | components/system/src/umtprd/src/mtp_cfg.c:120-128 | spaces, but no tabs, are skipped |
| MtpCfg.CopyParam | components/system/src/umtprd/src/mtp_cfg.c:130-162 | the text of a word without its quotes, cut at 511 characters and terminated, and where it ends |
| MtpCfg.GetParamOffset | components/system/src/umtprd/src/mtp_cfg.c:164-182 | the offset of the requested word, or -1 at the end of the string or a comment |
| MtpCfg.GetParam | components/system/src/umtprd/src/mtp_cfg.c:184-198 | the parameter is copied, or the buffer is left alone and the result is -1 |
| MtpCfg.ParamReadsPrinted | components/system/src/umtprd/src/mtp_cfg.c:120-198 | reading back any list of printable tokens, quoted and separated by single spaces, gives token k for every k in range; past the end, -1 before the end of the string or a comment but an empty word before a line break, and parameter 0 of an empty line is an empty word |
| MtpCfg.PlainWord | components/system/src/umtprd/src/mtp_cfg.c:130-162 | an unquoted word ends at a space, a tab, a comment or the end of the line |
| MtpCfg.TestFlag | components/system/src/umtprd/src/mtp_cfg.c:224-263 | the first counting occurrence decides, and its value is copied if it has one |
| MtpCfg.ValueIsText | components/system/src/umtprd/src/mtp_cfg.c:224-263 | the value of a flag is the text up to the next comma or space, as far as there is room |
| MtpCfg.FlagMeansElement | components/system/src/umtprd/src/mtp_cfg.c:224-263 | testing a flag means, for every list, looking for an element that is the flag or starts with the flag and an equals sign, if and only if the flag is not empty and has no comma |
| CancelHandshake.BusyRepliesAreGranted | components/system/src/umtprd/src/usb_gadget.c:507-727 | in every interleaving of cancels, status requests and suspensions with the data thread the request is 0, 1 or 2, and busy replies never exceed granted cancels plus failed lock attempts; as long as no cancel was granted, no request is pending and every transfer has answered OK |
| CancelHandshake.TwoStatusRepliesClear | components/system/src/umtprd/src/usb_gadget.c:538-573 | from any reachable moment without a transfer, two status replies bring the request to 0, however the threads interleave, as long as the mutex can be taken and no transfer starts, if and only if the reply under way is not one that missed the request because the mutex could not be taken |
| CancelHandshake.RequestCanBeMissed | components/system/src/umtprd/src/usb_gadget.c:550-566 | an interleaving in which a pending request is missed by a busy reply |
| CancelHandshake.GrantedStaysPending | components/system/src/umtprd/src/usb_gadget.c:507-573 | a cancel granted during a transfer, by the host or by a suspension, stays pending as long as that transfer runs, in every interleaving |
| CancelHandshake.GrantedTransferAnswers | components/system/src/umtprd/src/mtp_operations/mtp_op_sendobject.c:146-162 | a transfer that was granted a cancel answers OK if and only if, between the end of its data and the data thread's test, the request is withdrawn and not raised again |
| CancelHandshake.CancelledTransferCanAnswerOk | components/system/src/umtprd/src/usb_gadget.c:542-548 | an interleaving in which a granted cancel is withdrawn by a status request before the data thread tests it |
| CancelHandshake.AnsweredRequestComesBack | components/system/src/umtprd/src/usb_gadget.c:507-573 | once the data thread has answered a cancel, the request stays cleared until the next cancel or suspension arrives if and only if at that moment the control thread was neither inside one nor about to acknowledge the answered one |
| CancelHandshake.AnsweredRequestCanComeBack | components/system/src/umtprd/src/usb_gadget.c:555-561 | an interleaving in which the data thread answers a cancel between the test and the write of a busy reply, and the request is pending again |
| CancelHandshake.RunsAreSound | components/system/src/umtprd/src/mtp_operations/mtp_op_sendobject.c:98-162 | the transfer flag is set exactly from the start of a transfer to its end, in every interleaving |
| CancelHandshake.LoopFollowsPackets | components/system/src/umtprd/src/mtp_operations/mtp_op_sendobject.c:98-149 | in every interleaving the data thread has left the packet loop only after a short or failed packet, or interrupted by a pending request |
| CancelHandshake.LoopDecides | components/system/src/umtprd/src/mtp_operations/mtp_op_sendobject.c:126-141 | at each look at the loop's condition another packet is read if and only if the last one was full and no request is pending |
| CancelHandshake.SuspensionGivesUp | components/system/src/umtprd/src/usb_gadget.c:689-726 | while the request stays pending a suspension waits for 251 rounds and no longer |
| RefreshRegion.RegionIsSafe | components/netsurf/src/sdl_fb0_shim.c:423-444 | whatever is requested, the submitted region lies on the panel, has edges on the grid of eight or at the end of the panel, and never reaches a row of the keyboard while that is shown |
| RefreshRegion.RegionIsEmpty | components/netsurf/src/sdl_fb0_shim.c:1567-1617 | for every request with width and height: nothing is submitted if and only if an axis starts at or past the end of the visible panel, ends exactly at the panel's left or upper edge, or wraps around to before the grid cell it starts in |
| RefreshRegion.RegionCovers | components/netsurf/src/sdl_fb0_shim.c:1567-1617 | for every request that shows a pixel: every requested pixel on the panel, above the keyboard when it is shown, is refreshed if and only if on both axes the end does not wrap around or falls, wrapped, into the last grid cell |
| RefreshRegion.ShortSidesCover | components/netsurf/src/sdl_fb0_shim.c:1567-1617 | with sides of at most 2^31 every requested pixel on the panel, above the keyboard when it is shown, is refreshed |
| RefreshRegion.LastPixel | components/netsurf/src/sdl_fb0_shim.c:1575-1576 | an axis that wraps around leaves the last requested pixel unrefreshed |
| RefreshRegion.RegionIsTight | components/netsurf/src/sdl_fb0_shim.c:1567-1617 | for every request with width and height: the refresh stays within a grid cell of the request if and only if the request ends neither left of the panel nor above it, or one of its axes does not reach the visible panel |
| RefreshRegion.SavesCoveredRows | components/netsurf/src/sdl_fb0_shim.c:1583-1596 | with the keyboard shown and a backup at hand, exactly the rows of the rectangle that the keyboard covers are taken over, all inside the backup |
| RefreshRegion.BarFollows | components/netsurf/src/sdl_fb0_shim.c:1578-1581 | the address bar is drawn for exactly the requests that reach the panel above row 75 and end right of column 140 |
| RefreshRegion.SavedBeforeDrawn | components/netsurf/src/sdl_fb0_shim.c:1583-1616 | the page rows are taken over before the keyboard is drawn on them, and both before the region is submitted |
| RefreshRegion.FlashMeansLarge | components/netsurf/src/sdl_fb0_shim.c:1606-1616 | a region flashes exactly if it is the first of at least 1000 columns and rows |
| RefreshRegion.LeftOfPanelRefreshesWidth | components/netsurf/src/sdl_fb0_shim.c:1572-1575 | a rectangle that ends left of the panel wraps around and refreshes the full width |
| RefreshRegion.AbovePanelRefreshesHeight | components/netsurf/src/sdl_fb0_shim.c:1573-1576 | a rectangle that ends above the panel refreshes the full height above the keyboard |
| RefreshRegion.OffPanelExample | components/netsurf/src/sdl_fb0_shim.c:1572-1575 | ten columns left of the panel refresh all 1404 columns of it |
| RefreshRegion.WrappedExample | components/netsurf/src/sdl_fb0_shim.c:1575 | a rectangle of the largest width from the middle of the panel is refreshed in one grid cell only |
| RefreshRegion.Display.UpdateRect | components/netsurf/src/sdl_fb0_shim.c:1567-1617 | what is drawn and submitted for a request, in order: the address bar, the rows taken over, the keyboard, the region; only the first large region flashes |
| RefreshRegion.Display.RefreshArea | components/netsurf/src/sdl_fb0_shim.c:423-444 | the widened region is submitted unless it is empty |

## Left out

- The file system, USB, clocks and the shell: `stat64`, `realpath`, `rename`, `sanitize_name`, access checks, USB reads and
  writes, the time and the active application are parameters; an allocation's outcome is a parameter of the operation asking
  for it.
- HandleDb.FsHandlesDb: holds each bucket as a value; that the growable vectors and their shifting loops implement these values
  is proved of HashIndex.HashNode, so aliasing between a bucket's vector and anything else is not modelled.
- HandleDb.FsHandlesDb.RenameEntry: renaming onto a name that is already recorded leaves two matching records, as the program
  does, and FindEntry may return either.
- ObjectRename.SetObjectFileName: passes the new name to the path builder instead of swapping it into the record and back.
- FullPath.BuildFullPath: path lengths are unbounded, so an overflow of the `int` total is not modelled; resolving the path is
  a parameter of its callers.
- Inotify.HandleBuffer: the mutex around each step, the buffer's byte layout and an event that ends exactly at the end of the
  buffer, which the program skips, are not modelled. A created file that does not stat is recorded with whatever the file
  information holds; here such a step gets arbitrary information as its parameter.
- Inotify.DeleteLoop: what is left below a watcher is stated while directories are older than what is in them, which holds until
  the 32-bit handle counter comes round, a root is renamed or made while its storage has live records (EntryModel.RunIsRanked), and for names
  other than the root record's slash, which no file has. Of two watching roots of one storage only that they are cleared is stated.
- Inotify.HandleEvent: for an event that creates and deletes at once, which the kernel does not send, only the live handles are
  followed.
- MtpHelpers.Char2UnicodeString: takes no size argument; its callers always pass 255, with which its last bound check never fails.
- Usbstring.Unicode2CharString: the replacement by a question mark is unreachable for 16-bit units and does not appear.
- MtpDatasets.ParseObjectInfo: reads the association branch; what the parser does with the fields, such as making folders, is left out.
- PropList.PropListRoundTrip: claims the framing of the 128-bit identifier and the words as written (the first word plus 0 to 3), not
  that it equals the other encoding of the identifier.
- PropList.BuildObjectPropListDataset: the property table is the one of the source up to the rows that repeat a property.
- PlatoShim.Shim.Read: bytes of an incomplete raw event at the end of a batch are not modelled, nor is the choice of the touch
  descriptor.
- `poll` of the touch shim answers at once while something is queued; it only reads the ring.
- Overlays.PaintCard: states the card's frame only, not its header, buttons and footer.
- Overlays.Screen.ShowToast: text must fit its box, as all texts of the program do; a toast or card without memory for its
  backup is drawn and never hidden, and what it covers is then not claimed.
- Overlays.Screen.constructor: a framebuffer that cannot be mapped, when nothing is drawn at all, is not modelled; the display
  controller's refresh commands are left out.
- Supervisor.Supervisor.EventLoop: the reader draws while the loop waits for an event, not between two pixels of an overlay; the waits
  inside a click and a chord are part of the time of the next turn.
- Gestures.GreedyIffTimely: the clock must not go back. In time also means that no press comes in the very millisecond in which the
  timer has just fired.
- The packet sizes and file writes of the data phase, the gating of writes by a pending request, the sending of file data with
  its own cancel test, the endpoint setup and the other operating mode of the USB gadget.
- RefreshRegion.Display.UpdateRect: says which rows go into the keyboard's backup, not which colours; the program copies whole rows,
  whatever columns the page has drawn.
- `poke_array`, `build_response`, `peek64`, `posix_to_mtp_errcode`, the descriptor string conversion and the other MTP operations
  repeat the codec or map constants.
- The storage table is the set of present storages with their root paths.
- `extract_cmd` and the dispatch of configuration commands repeat the tokenizer.
- The application switcher, the HTTP daemon, fonts, keyboard tables, scripts and boot patches.
