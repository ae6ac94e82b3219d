# Verified model of the iCloud Drive sync engine

The engine keeps three stores in step: the rows of the sync database, the files of the local
mirror and the items on iCloud.  This project models those stores, the operations that change
them and the protocols that run between them, and proves what users of the mount rely on: the
mount behaves like a POSIX tree, local changes are not lost, deletes are not forgotten, a
listing converges, uploads and downloads survive concurrent writers.

Paths are modelled as component sequences (`Paths.dfy`); `PathText.dfy` proves that the canonical strings
the program stores are the same thing and that a subtree query's range scan is exact.

## How it is built

| file | what it models |
|---|---|
| `Tables.dfy`, `State.dfy`, `StateLaws.dfy` | the three tables as values, `SyncState` as a class whose methods are its transactions, and what `rename_tree` means |
| `Mirror.dfy` | the mirror as a directory tree, as values and as a class |
| `FsSpec.dfy`, `Fs.dfy`, `FsPosix.dfy`, `Tracking.dfy`, `Identities.dfy` | `FsCore`'s mutations, an independent POSIX reference tree they refine, the rows that keep track of them, and conservation of remote identities |
| `Listing.dfy`, `Conflicts.dfy`, `Convergence.dfy`, `Crawl.dfy`, `Rescan.dfy`, `Remote.dfy` | applying what iCloud reports, conflict copies, folder listings, the crawl and its sweep, first and later scans, and the engine methods that do it |
| `Cloud.dfy`, `Upload.dfy`, `Runs.dfy`, `Delivery.dfy`, `Additions.dfy`, `Uploader.dfy` | iCloud as the in-memory drive models it, one upload pass against it, what it keeps whichever calls fail, and what arrives when none does |
| `UploadRace.dfy`, `DownloadRace.dfy`, `Locks.dfy` | the check-then-commit protocols and the per-path lock as state machines over all interleavings |
| `Inodes.dfy`, `Paging.dfy` | the inode table and `readdir` |
| `SyncLog.dfy`, `Srp.dfy` | the log format with its reader, and the SRP-6a client |
| `Policy.dfy`, `Paths.dfy`, `PathText.dfy` | names, the sync boundary, paths |
| `Rekeying.dfy`, `Search.dfy`, `Seqs.dfy` | renaming the keys of a map, pigeonhole searches, sequence facts |

A class method's contract equates the new state with a function of the old one; the properties
are lemmas about those functions and about runs of them.  The statements of `SyncState` and of the
mirror that are one assignment have no row below; the rows name what is proved about them.

## What turned out false, and exactly when it holds

- Removing a folder iCloud does not have forgets pending deletes hidden below it, and writing to
  the name of a pending delete replaces it: `Identities.CallConserves` is an if-and-only-if in
  terms of the guards of those calls, with a concrete world for each kind.
- A listing that reports a file where a folder with downloaded files is cached replaces the folder
  by a placeholder and leaves the rows inside hydrated without files:
  `DownloadRace.FileOverFolderStrandsARow`.
- Resolving a conflict renames in the mirror first; if the rows then clash, the database rolls back
  and the mirror does not.  A downloaded file that was only touched is left without its file, and the
  next upload pass would take it for deleted: `DownloadRace.FailedListingStrandsARow`.
  `DownloadRace.ListExactly` and `NoStaleContent` say for every listing, failing ones included, and
  every run when either happens.
- The comment on conflict paths promises a unique path; the short name for names too long to extend
  is returned without a check.  If another local version has it, the mirror's rename replaces that
  version and the database rolls back: `Conflicts.FallbackOverwrites`, and
  `SecondConflictOverwritesTheFirst` with a name of 230 letters.  `Listing.UsesFallbackExactly` says
  when the short name is used, `Conflicts.ResolveKeepsExactly` when local versions survive.
  `Conflicts.NoSilentOverwrite` asks that the short name, if used, be free in mirror and rows, and that
  no row be where one of the moved subtree lands.
- A pass sends deletes before moves.  If a file was moved out of a folder and the folder then deleted, and
  deletes are permanent, the folder goes with the file's item in it; a file whose content was never
  downloaded is then nowhere: `Delivery.MovedOutIsLost`.  `Delivery.DeletesTakeContents` says what goes along,
  `Delivery.UploadsArrive` holds for files that do not.
- An upload deletes the row's item first so that iCloud gives no numbered copy, and takes a failed
  delete to be harmless.  If the name is still taken when the content arrives, asking for the name
  finds the older item and the row is marked clean for that one, with other bytes than the file.
  It happens when iCloud refuses the delete because its etag is newer than the row's
  (`UploadRace.RefusedDeleteLosesAnEdit`), and when a first upload did its work and lost the answer
  and the file was then edited (`LostAnswerLosesAnEdit`).  `UploadRace.UploadExactly` has the exact
  condition for one upload, `NoLostEdit` for every run.
- The upload branch for files that were only renamed marks the row clean without looking at the
  file again; a write recorded in between is lost, also one whose bytes were there before:
  `UploadRace.RenameOnlyExactly`.
- `readdir` counts usable names in its offset but skips all names, so it reads a folder wrongly
  exactly when an unusable name comes before a usable one: `Paging.PagingIsLossless`.  Names come
  from the mirror, so such a name needs a file system that stores more than 255 bytes of UTF-8 in
  one, as NTFS and exFAT do; `Paging.EntryShownTwice` shows what happens.
- `rename` of a path to itself succeeds without looking the path up, and the root has no row, so
  `unlink` of it reports a missing file: `FsPosix.EveryCallRefines` states both for all calls,
  `FsPosix.LenientCalls` shows them.

## Model

| member | source | states |
|---|---|---|
| FsPosix.EveryRunRefines | crates/icloud-core/src/fs.rs:352-552 | over every run of create, mkdir, write and truncate of live files, set_mtime, unlink, rmdir and rename the mirror has a file or folder at a path exactly when a live row of that kind is there, and every step is one a POSIX tree allows |
| FsPosix.EveryCallRefines | crates/icloud-core/src/fs.rs:352-552 | one call: it succeeds exactly when the mount's rules and POSIX both allow it and the content can be had; it then changes the visible tree as POSIX.1-2017 requires; refused, it changes nothing at all and its error is justified by the tree |
| FsPosix.LenientCalls | crates/icloud-core/src/fs.rs:507-520 | concrete calls on an empty mount: a missing name renamed to itself is accepted, and unlinking the root reports it missing |
| FsPosix.CreateRefines | crates/icloud-core/src/fs.rs:352-370 | create adds one empty file, exactly when the name is free and its parent is a folder |
| FsPosix.MkdirRefines | crates/icloud-core/src/fs.rs:372-386 | mkdir adds one folder under the same condition |
| FsPosix.WriteRefines | crates/icloud-core/src/fs.rs:403-415 | a write to a live file changes the content a reader would see, downloaded first if it is a placeholder, byte by byte as pwrite does: the written range, everything outside it as before, zeros in a gap, nothing for no data |
| FsPosix.TruncateRefines | crates/icloud-core/src/fs.rs:417-427 | truncate cuts that content or pads it with zeros to the length |
| FsPosix.SetMtimeRefines | crates/icloud-core/src/fs.rs:445-456 | setting the time changes no content |
| FsPosix.UnlinkRefines | crates/icloud-core/src/fs.rs:466-476 | unlink removes exactly a regular file |
| FsPosix.RmdirRefines | crates/icloud-core/src/fs.rs:478-492 | rmdir removes exactly an empty folder other than the root |
| FsPosix.RenameRefines | crates/icloud-core/src/fs.rs:507-552 | an accepted rename moves the subtree, replaces a file or an empty folder, and is accepted exactly when POSIX and the boundary allow it; a rename of a path to itself changes nothing |
| FsPosix.RenamePermitted | crates/icloud-core/src/fs.rs:507-534 | the checks of rename about the mount's own rules refuse exactly what is read-only, signed out, reserved, outside the boundary or unusably named, at both ends and everywhere below a moved folder |
| FsPosix.HydrateGivesUp | crates/icloud-core/src/engine/download.rs:85-97 | while nobody interferes the retry loop either has the file after its first attempt or fails: a queued content operation makes every download be discarded |
| FsSpec.AcceptedRenameIsApart | crates/icloud-core/src/fs.rs:507-534 | the checks of rename leave only pairs of paths neither of which contains the other |
| Tracking.NoSilentDivergence | crates/icloud-core/src/fs.rs:352-552 | over every run of calls, iCloud unchanged: every file whose content is here has iCloud's bytes or asks for an upload, its row says its size and time, and what iCloud knows under another path is at or below a changed row |
| Tracking.CallTracked | crates/icloud-core/src/fs.rs:352-552 | each call keeps that, downloads and renames of whole subtrees included |
| Tracking.CallIsNoted | crates/icloud-core/src/fs.rs:352-552 | after a create, write or truncate the file can be uploaded as it is and its operation is queued; after a removal iCloud's item has a pending delete that names it, and nothing is left of what iCloud never had; after a rename the moved row asks for the move |
| StateLaws.RenameTreeMoves | crates/icloud-core/src/state.rs:462-524 | where every row is after rename_tree and that nothing else is there: the subtree at its rebased paths with its remote fields, only its root newly dirty, and when the move was made on iCloud the synced paths inside it moved along; displaced iCloud items as pending deletes naming their old identity; all other rows untouched; the listing markers of the old place forgotten |
| StateLaws.RenameKeepsParentColumn | crates/icloud-core/src/state.rs:462-524 | the parent_path column stays the parent of the key |
| StateLaws.RenameCarriesContentOps | crates/icloud-core/src/state.rs:502-520 | exactly which paths have a content operation afterwards: what was queued under the old name is queued under the new one, nothing else changes |
| StateLaws.QueuedOpsFollow | crates/icloud-core/src/state.rs:502-520 | each queued operation keeps its place, its path and target following the move |
| StateLaws.RenameThereAndBack | crates/icloud-core/src/state.rs:462-524 | moving to a free place and back restores every row but the dirty flag of the root |
| StateLaws.RowIsCleaned | crates/icloud-core/src/state.rs:386-412 | a row whose change reached iCloud, field by field, and exactly which queued operations go |
| StateLaws.RowIsDirtied | crates/icloud-core/src/state.rs:355-377 | a row marked dirty, field by field; one deleted meanwhile is live again |
| StateLaws.SubtreeIsKnown | crates/icloud-core/src/state.rs:549-560 | after a folder's subtree was synced all of it is known at its own paths, and only the folder itself stops asking |
| StateLaws.SubtreeIsRemoved | crates/icloud-core/src/state.rs:439-455 | exactly the subtree's rows, the operations naming them and its listing markers go |
| Tables.RenamedKeysDistinct | crates/icloud-core/src/state.rs:462-524 | rename_tree never gives two rows one primary key |
| Tables.DetachedRowsAt | crates/icloud-core/src/state.rs:565-580 | where every row is after a subtree was detached to a place where it hits no row |
| Tables.UpdateQueued | crates/icloud-core/src/state.rs:598-630 | after a write a content operation is queued, by this call or an earlier one |
| Identities.CallConserves | crates/icloud-core/src/fs.rs:352-552 | the bag of remote ids and the set of pending deletes survive a call exactly unless it is one of the two losing kinds, told by the guards alone: a permitted rmdir of an empty folder iCloud does not have, with iCloud items below it, or a permitted write, with no file in the way, to the name of a pending delete |
| Identities.EveryRunConserves | crates/icloud-core/src/fs.rs:352-552 | the same over every run without such a call |
| Identities.RenameConserves | crates/icloud-core/src/state.rs:462-524 | rename_tree neither loses nor duplicates a remote id and keeps pending deletes |
| Identities.RemovingTheFolderForgetsTheDelete | crates/icloud-core/src/fs.rs:496-505 | a concrete world in which removing a local-only folder forgets a delete iCloud has not heard of |
| Identities.WritingForgetsTheDelete | crates/icloud-core/src/fs.rs:433-443 | a concrete world in which a write to a deleted name forgets the pending delete |
| Identities.ForgettingConserves | crates/icloud-core/src/fs.rs:496-505 | after unlink or rmdir the ids and pending deletes are all there exactly unless a local-only folder with iCloud items below it was forgotten |
| Identities.ReplacingConserves | crates/icloud-core/src/state.rs:530-545 | a new row put where a pending delete was, the delete buried under its private key, loses no id and no delete |
| Convergence.ListingConverges | crates/icloud-core/src/engine/remote.rs:30-124 | listing a clean cache successfully leaves exactly one child row per listed item, saying what iCloud said, in any order of the answer; if no row asked for a move, none does afterwards, moves of whole subtrees included |
| Convergence.RelistingChangesNothing | crates/icloud-core/src/engine/remote.rs:30-124 | a folder that agrees with iCloud is not changed in any row by listing it again, even if the listing fails half way |
| Convergence.ListingTwice | crates/icloud-core/src/engine/remote.rs:30-124 | listing twice is the same as listing once |
| Convergence.ApplyProgress | crates/icloud-core/src/engine/remote.rs:141-248 | one applied item agrees with iCloud afterwards, keeps the cache clean and undoes nothing of its siblings, moves of whole subtrees included |
| Convergence.MovedIsSynced | crates/icloud-core/src/engine/remote.rs:196-204 | after following a remote move every row below the moved folder is known at its new place |
| Convergence.UploadedThenListed | crates/icloud-core/src/engine/remote.rs:192-248 | listing the record an upload left changes nothing in rows or mirror |
| Convergence.MovedFileKeepsContent | crates/icloud-core/src/engine/remote.rs:192-248 | a clean file moved on iCloud, its size and time unchanged, takes its content along |
| Convergence.ContentKeptExactly | crates/icloud-core/src/engine/remote.rs:217-248 | a clean file seen again in its place keeps its content exactly if size, time and etag are the known ones, else a placeholder of the new size replaces it |
| Convergence.NewItemIsPlaceholder | crates/icloud-core/src/engine/remote.rs:167-190 | a new item becomes a folder or a sparse file of its size, and its row says its content is here only if there is none |
| Convergence.UnlistedAreRemoved | crates/icloud-core/src/engine/remote.rs:99-111 | a listing removes exactly the rows and files at or below a clean direct child whose id the answer does not give under a usable name |
| Convergence.AskedExactly | crates/icloud-core/src/engine/remote.rs:30-88 | exactly when a listing asks iCloud |
| Convergence.ListedIsNotAskedAgain | crates/icloud-core/src/engine/remote.rs:30-124 | after a successful listing iCloud is not asked about the folder again within the interval |
| Conflicts.NoSilentOverwrite | crates/icloud-core/src/engine/remote.rs:141-190 | if each local version in conflict has a place to go, applying an item succeeds and every live locally changed file keeps its bytes, at its path or below the conflict path; a name too long to extend is covered when its short name is free |
| Conflicts.ListingKeepsLocalWork | crates/icloud-core/src/engine/remote.rs:89-97 | the same over a whole answer: all items apply, every live locally changed file keeps its bytes, and the mirror stays a tree |
| Conflicts.ListingMergesNothing | crates/icloud-core/src/engine/remote.rs:89-97 | over a whole answer too no two local versions end up at one place |
| Conflicts.ResolveKeepsExactly | crates/icloud-core/src/engine/remote.rs:252-264 | resolving a conflict, whatever name is chosen, keeps every local version exactly unless the mirror takes the move while the rows clash and local work is below the old place or replaced at the new one |
| Conflicts.FallbackOverwrites | crates/icloud-core/src/engine/remote.rs:280-282 | whenever the fallback name is a local version, that version's file is replaced and the database rolls back |
| Conflicts.SecondConflictOverwritesTheFirst | crates/icloud-core/src/engine/remote.rs:266-282 | concrete worlds, one for every name too long to extend, in which applying an item leaves no file with the first version's bytes |
| Conflicts.LongNamesExist | crates/icloud-core/src/engine/remote.rs:266-282 | a name of 230 letters with a stamp of fourteen digits is such a name |
| Conflicts.NothingMerges | crates/icloud-core/src/engine/remote.rs:141-190 | no two local versions end up at one place when an item is applied |
| Conflicts.ResolveMovesAside | crates/icloud-core/src/engine/remote.rs:252-264 | with room for it, a conflict moves the local subtree to a name next to it that mirror and rows did not have, in both alike, and succeeds |
| Conflicts.UnchangedItemIsLeft | crates/icloud-core/src/engine/remote.rs:141-161 | an item reported where and as a changed row last knew it changes nothing at all |
| Conflicts.ChangedItemIsKeptTwice | crates/icloud-core/src/engine/remote.rs:141-190 | one reported elsewhere, or with another etag, leaves the local bytes at a fresh path in a row without identity and a row saying what iCloud said at the reported path |
| Conflicts.HalfUploadedIsLeft | crates/icloud-core/src/state.rs:418-427 | after an upload during which the file was written the record it left is no conflict and the newer content still asks to go up |
| Listing.SearchEnds | crates/icloud-core/src/engine/remote.rs:266-279 | the search for a conflict name ends within one more attempt than there are occupied names |
| Listing.ConflictPathIsFresh | crates/icloud-core/src/engine/remote.rs:266-282 | outside the fallback the conflict path is a sibling that neither the mirror nor the rows hold |
| Listing.UsesFallbackExactly | crates/icloud-core/src/engine/remote.rs:266-282 | the fallback is used exactly when every conflict name within 255 bytes is taken, at once if none is that short |
| Crawl.FoundExactly | crates/icloud-core/src/engine/remote.rs:294-346 | exactly which items a crawl finds: those directly in the top folder or in a folder the boundary lets it enter, all folders on the way listing and all names usable |
| Crawl.AllowedIsFound | crates/icloud-core/src/engine/remote.rs:294-346 | everything the allow-list admits is found |
| Policy.AllowedIsReachable | crates/icloud-core/src/policy.rs:31-45 | an allowed path has no folder above it that the crawl would not enter |
| Policy.DescendsExactly | crates/icloud-core/src/policy.rs:41-45 | a folder is entered exactly when the allow-list admits something at or below it |
| Policy.AllowedExactly | crates/icloud-core/src/policy.rs:31-39 | allowed is what is below nothing denied, and below something allowed if there is an allow-list |
| Crawl.StillThere | crates/icloud-core/src/engine/remote.rs:348-360 | an allowed item that is still in place is never taken for deleted |
| Crawl.IdsAreShown | crates/icloud-core/src/engine/remote.rs:315-330 | the crawl's ids are exactly those of the items the boundary shows, stubs outside the allow-list included |
| Crawl.SweepIsSafe | crates/icloud-core/src/engine/remote.rs:354-379 | a row the sweep removes is, or is below, a row directly in a folder that was read, whose id is nowhere in the crawl, so that the boundary shows its item nowhere, and that was a pending delete, or unchanged and not synced since the crawl began |
| Crawl.SweepExactly | crates/icloud-core/src/engine/remote.rs:354-379 | row by row and file by file what the sweep leaves: lost pending deletes and lost clean items go with all below, a lost local change becomes something new, everything else stays as it was |
| Crawl.SweepKeepsOps | crates/icloud-core/src/engine/remote.rs:354-379 | content operations go with what is swept away, and only with that |
| Crawl.SyncedMeanwhileStays | crates/icloud-core/src/engine/remote.rs:370-375 | a clean row synced at or after the start of the crawl, with no lost row above it, stays with its file |
| Crawl.UploadedMeanwhileStays | crates/icloud-core/src/engine/remote.rs:370-375 | in particular a file whose upload ended while the crawl ran |
| Crawl.SweepKeepsLocalWork | crates/icloud-core/src/engine/remote.rs:362-366 | a local change outside the removed folders stays, with its bytes, detached exactly when iCloud lost the item |
| Crawl.FirstScan | crates/icloud-core/src/engine/remote.rs:288-380 | a full scan into an empty database makes the rows exactly what the boundary shows of iCloud, each saying what iCloud said, and the sweep removes none of them |
| Crawl.NewItemsAreAdded | crates/icloud-core/src/engine/remote.rs:348-352 | applying items none of which is known or in the way adds exactly one row for each |
| Rescan.RescanConverges | crates/icloud-core/src/engine/remote.rs:288-380 | a successful full scan of a clean cache, whatever changed on iCloud since: every item the boundary shows has a row saying what iCloud said, and the folders that were read have no other rows but ones uploaded meanwhile |
| Rescan.ItemsSettle | crates/icloud-core/src/engine/remote.rs:348-352 | the items of a crawl applied in order are all settled in the end, moves of whole subtrees across folders included, and the cache stays clean |
| Remote.Engine.ApplySnapshot | crates/icloud-core/src/engine/remote.rs:348-380 | the crawl's items in order, then the sweep |
| Remote.Engine.CrawlRemote | crates/icloud-core/src/engine/remote.rs:294-346 | the breadth-first crawl ends, finds every item there is to find exactly once, parents first, collects their ids and exactly the folders that list; it gives up only when stopped |
| Remote.Engine.SweepRemote | crates/icloud-core/src/engine/remote.rs:354-379 | the sweep's row-by-row decisions, in any order, amount to one simultaneous removal and detachment |
| Remote.Engine.UniqueConflictPath | crates/icloud-core/src/engine/remote.rs:266-282 | the loop returns the first free candidate, or the fallback, and terminates |
| Remote.Engine.ResolveConflict | crates/icloud-core/src/engine/remote.rs:252-264 | mirror, rows and queued conflict copies afterwards |
| Remote.Engine.RefreshCleanEntry | crates/icloud-core/src/engine/remote.rs:192-248 | a clean item seen again: moved with its subtree, turned back into a placeholder exactly when size, time or (unless moved) etag changed |
| Remote.Engine.ApplyRemoteItem | crates/icloud-core/src/engine/remote.rs:141-165 | the four cases of an item: unknown, conflicting, locally changed, clean |
| Remote.Engine.ApplyAnswer | crates/icloud-core/src/engine/remote.rs:89-97 | the items in the order they came, unusable names skipped |
| Remote.Engine.Sweep | crates/icloud-core/src/engine/remote.rs:99-111 | removing the unlisted clean children one by one is removing them all at once |
| Remote.Engine.ListDirectory | crates/icloud-core/src/engine/remote.rs:30-124 | whether iCloud is asked at all, the database after any listing, and the mirror after a successful one |
| Uploader.UploadEngine.SyncDirty | crates/icloud-core/src/engine/upload.rs:27-71 | whichever calls fail, or do their work and lose the answer: no byte of the mirror changes; every change is still to be uploaded, or iCloud reported exactly its bytes received in the folder its parent row stands for, by an upload that asked for its name (a name already taken makes the item a numbered copy), or its file was missing; and no pending delete disappears without iCloud having reported its own or an ancestor's delete done. If no call fails and nothing stops the pass, it is a `PassRun`: every allowed pending delete whose item is on iCloud is gone, its own or an ancestor's delete reported, unless its item went along with another's; every allowed changed file with its content here that `Delivery.CanArrive` admits was received; and a purely additive pass leaves no dirty row, every row linked to its item, one creation per dirty row |
| Uploader.UploadEngine.SyncTombstones | crates/icloud-core/src/engine/upload.rs:56-61 | deletes, deepest first, leave everything live alone and release a tombstone only through a successful delete of it or of a pending delete above it; without failures all of them are tried |
| Uploader.UploadEngine.SyncTombstone | crates/icloud-core/src/engine/upload.rs:88-104 | one delete: a failed call keeps the tombstone and all below it |
| Uploader.UploadEngine.SyncRegular | crates/icloud-core/src/engine/upload.rs:62-69 | the ordered pass over the rest keeps every change or has its own bytes received in its own folder; without failures every row has its turn, none before one that has to come sooner |
| Uploader.UploadEngine.SyncDirectory | crates/icloud-core/src/engine/upload.rs:106-137 | a folder is pushed after its missing ancestors, touching only itself and folders above it that are not settled; success settles it; the recursion ends because paths get shorter |
| Uploader.UploadEngine.EnsureRemoteParent | crates/icloud-core/src/engine/upload.rs:235-250 | the folder that will hold a path is on iCloud and the pass is done with it, or it cannot be reached, or the call failed |
| Uploader.UploadEngine.CreateRemoteFolder | crates/icloud-core/src/engine/upload.rs:120-126 | a folder iCloud never had: made once, its row adopts what then has its name |
| Uploader.UploadEngine.UpdateRemoteFolder | crates/icloud-core/src/engine/upload.rs:127-137 | a folder iCloud has: moved if it moved, its subtree adopting its paths, nothing else losing its dirty flag |
| Uploader.UploadEngine.SyncFile | crates/icloud-core/src/engine/upload.rs:139-208 | a file that must be uploaded is still so, or iCloud reported its bytes received in its parent's folder, or it was missing from the mirror and became a pending delete |
| Uploader.UploadEngine.SendContent | crates/icloud-core/src/engine/upload.rs:185-207 | the mirror's bytes go up under the file's name into its parent's folder, and only then is the row clean |
| Uploader.UploadEngine.RefreshChildMeta | crates/icloud-core/src/engine/upload.rs:270-281 | the record found is a current item of that name in that folder |
| Uploader.UploadEngine.EnsureLocalFile | crates/icloud-core/src/engine/download.rs:15-79 | the one download attempt `FsCore` makes too: nothing outside the boundary, the mirror's file for one made here, otherwise what iCloud sent unless a write is queued |
| Upload.AttemptBeforeUpload | crates/icloud-core/src/engine/download.rs:15-79 | before an upload that attempt changes only what the row says is here, never the mirror |
| Uploader.UploadEngine.SyncMoveOrRename | crates/icloud-core/src/engine/upload.rs:211-232 | success means the item is in the folder of the new parent and has the new name; no row changes |
| Delivery.DeletesArrive | crates/icloud-core/src/engine/upload.rs:31-61 | in a pass that nothing stops and no call of which fails every pending delete inside the boundary, judged by the path iCloud knows, is no longer a row, if its item is on iCloud or never was, unless that lay inside the item of another one |
| Delivery.UploadsArrive | crates/icloud-core/src/engine/upload.rs:43-71 | in such a pass every changed file inside the boundary whose content is here ends up clean, from every state in which the folders above it are on iCloud where rows say or can be made, changed files and changed folders are different items under different names, and no pending delete takes it or them along |
| Delivery.EditCanArrive | crates/icloud-core/src/engine/upload.rs:139-208 | the edit of a file in a folder meets those conditions, whatever the names, ids and boundary |
| Delivery.FileRunOnward | crates/icloud-core/src/engine/upload.rs:139-208 | syncing one file keeps the state steady and every other file uploadable, and cleans it if it can be uploaded |
| Delivery.FolderRunOnward | crates/icloud-core/src/engine/upload.rs:106-137 | so does syncing a folder, new, moved or in place, with the folders above it, and it succeeds |
| Delivery.ContentArrives | crates/icloud-core/src/engine/upload.rs:185-207 | with its name held by nothing but its own item, the file's row ends up with a new item that has the mirror's bytes, in its folder, under its name |
| Delivery.NameArrives | crates/icloud-core/src/engine/upload.rs:174-183 | a file that was only moved, its item where iCloud last had it and its new name free, ends up clean with its item in its folder, under its name |
| Delivery.MovedFolderArrives | crates/icloud-core/src/engine/upload.rs:127-135 | the item of a folder that moved is then in its folder, under its name |
| Delivery.OutsideIsLeft | crates/icloud-core/src/engine/upload.rs:73-86 | a changed file or pending delete outside the boundary is left as it is |
| Delivery.DeletesTakeContents | crates/icloud-core/src/engine/upload.rs:56-61 | whatever lies inside an item that is deleted for good is gone from iCloud, wherever its row has been moved |
| Delivery.MovedOutIsLost | crates/icloud-core/src/engine/upload.rs:31-71 | a concrete kind of state in which a file moved out of a folder that was then deleted loses its content in a pass without failures |
| Additions.AdditivePass | crates/icloud-core/src/engine/upload.rs:27-71 | a purely additive pass without failures leaves no dirty row, every row linked to its item, one creation per dirty row |
| Upload.DeletesThenUploads | crates/icloud-core/src/engine/upload.rs:27-71 | both phases of a pass together forget nothing |
| Upload.UploadedKeeps | crates/icloud-core/src/engine/upload.rs:196-201 | cleaning the row of a file that was sent, or had nothing to send, forgets no other file's change |
| Upload.MissingKeeps | crates/icloud-core/src/engine/upload.rs:151-157 | a missing file's row becomes a pending delete and nothing else changes |
| Upload.OneRowFoldersStay | crates/icloud-core/src/engine/upload.rs:106-137 | syncing one folder, or changing one file row, leaves every folder the pass is done with standing for the same item |
| Upload.OpsKept | crates/icloud-core/src/state.rs:386-412 | cleaning or removing one path does not touch another's content operations |
| Upload.CleanFolderStep | crates/icloud-core/src/state.rs:386-412 | a folder that reached iCloud becomes clean and no file's change is forgotten |
| Upload.SubtreeFolderStep | crates/icloud-core/src/state.rs:549-560 | when a folder's subtree adopts its paths, files and pending deletes below stay what they were |
| Upload.RemovedTombstone | crates/icloud-core/src/state.rs:439-455 | removing a deleted subtree from the tables takes nothing live and releases only what the delete covered |
| Upload.CoupledIsOrderly | crates/icloud-core/src/fs.rs:352-552 | where rows and mirror agree, as every call keeps them, live rows lie below live folders only, which is what a pass starts from |
| Upload.FolderIdInjective | crates/icloud-core/src/engine/upload.rs:235-281 | while the rows are linked to their items, different folders stand for different items |
| Upload.AfterAdditive | crates/icloud-core/src/engine/upload.rs:120-126 | sending one row keeps all clean rows linked, all dirty ones local-only and their names free on iCloud |
| Upload.AfterGrew | crates/icloud-core/src/engine/upload.rs:106-208 | sending one row adds exactly its item and changes nothing else |
| Upload.CompletePass | crates/icloud-core/src/engine/upload.rs:27-71 | if iCloud had nothing the rows did not know, after a complete additive pass the remote tree is the rows, one to one |
| Upload.SentBytes | crates/icloud-core/src/engine/upload.rs:191-207 | and every file that was sent has the mirror's bytes |
| Upload.FoldersBeforeContents | crates/icloud-core/src/engine/upload.rs:40-46 | and each new folder was made before what went into it |
| UploadRace.NoLostEdit | crates/icloud-core/src/engine/upload.rs:185-207 | over every interleaving of writers with the upload of a file: always, if the item the row names does not have the mirror's bytes, the row is dirty and asks for an upload or a writer is between its two steps; exactly as long as no upload, with nobody writing and no newer write recorded, adopts an item that had the name with other bytes when the content arrived |
| UploadRace.OpenNamesLoseNothing | crates/icloud-core/src/engine/upload.rs:185-207 | so nothing is lost over a run in which, whenever content arrives, its name is free in the folder or only held by items with those very bytes |
| UploadRace.StepExactly | crates/icloud-core/src/engine/upload.rs:185-207 | each step keeps that, given what the uploader knows since its fingerprint, exactly unless it is the end of such an upload |
| UploadRace.StepKeepsKnowing | crates/icloud-core/src/engine/upload.rs:185-207 | what the uploader knows survives every step: newer writes show, the bytes sent are the file's unless one does, an item of the name is as it was on arrival or is what arrived under a free name |
| UploadRace.QuietMeansInStep | crates/icloud-core/src/engine/upload.rs:185-207 | nobody writing and nothing to upload then means that the item the row names has the mirror's bytes |
| UploadRace.UploadExactly | crates/icloud-core/src/engine/upload.rs:191-203 | an upload from its arrival on, others writing, that finds the fingerprint unchanged: the row is clean for the item found, which is an old one exactly when the name was taken on arrival; that item has the mirror's bytes exactly when the name was free or it had them already, which where names are not shared can be told on arrival |
| UploadRace.ChangedMeanwhileStaysMarked | crates/icloud-core/src/engine/upload.rs:188-207 | a file written or touched after the fingerprint was taken keeps its dirty flag and its operations when that upload ends |
| UploadRace.TakenNameLosesTheEdit | crates/icloud-core/src/engine/upload.rs:185-203 | for every file to be uploaded with an item of its name and other bytes that making room leaves in the folder, the undisturbed upload ends with a clean row for that item, its bytes unchanged |
| UploadRace.LostAnswerLosesTheNextEdit | crates/icloud-core/src/engine/upload.rs:185-203 | for every new file whose first upload does its work and loses the answer, an edit before the second upload ends in a clean row for the item of the first |
| UploadRace.RefusedDeleteLosesAnEdit | crates/icloud-core/src/engine/upload.rs:188-203 | a concrete input for the first: iCloud refuses the delete of an item whose etag the row does not have |
| UploadRace.LostAnswerLosesAnEdit | crates/icloud-core/src/engine/upload.rs:185-203 | a concrete input for the second |
| UploadRace.RenameOnlyExactly | crates/icloud-core/src/engine/upload.rs:178-183 | from any state, whatever writers do until it ends, the branch for renamed files keeps every edit exactly when the item it found has the bytes the file then has, or a writer has yet to record its write |
| UploadRace.RenameOnlyLosesAWrite | crates/icloud-core/src/engine/upload.rs:178-183 | a concrete run in which a write after the branch's decision is lost |
| UploadRace.RenameOnlyLosesAnEarlierWrite | crates/icloud-core/src/engine/upload.rs:178-183 | a concrete run in which a write is lost whose bytes were stored before the decision and recorded after it |
| DownloadRace.NoStaleContent | crates/icloud-core/src/engine/download.rs:29-79 | in every interleaving of downloads with listings, also ones that fail half way, both sweeps, deletes, renames, writes and remote edits, a hydrated live row with an identity and no queued write always holds bytes of that item at the recorded version or a later one, exactly as long as no listing puts a file over downloaded files or moves one where its row cannot follow |
| DownloadRace.StepExactly | crates/icloud-core/src/engine/download.rs:29-79 | each step, of whoever, keeps that, exactly unless it is such a listing |
| DownloadRace.ListExactly | crates/icloud-core/src/engine/remote.rs:141-248 | a listing, perhaps an old one, perhaps failing half way, leaves a row without content it claims exactly when it reports a file above downloaded files no conflict moves aside, or when the mirror takes a conflict's move and the rows do not, with a downloaded file below the old place or replaced at the new one |
| DownloadRace.OverrunExactly | crates/icloud-core/src/engine/remote.rs:252-264 | when the mirror moves a local version and the rows cannot follow, every row keeps the content it claims exactly unless a downloaded file was below the old place, or at the new one and gets bytes too old for it |
| DownloadRace.FileOverFolderStrandsARow | crates/icloud-core/src/engine/remote.rs:167-190 | a concrete listing after which a clean hydrated row has no file |
| DownloadRace.FailedListingStrandsARow | crates/icloud-core/src/engine/remote.rs:252-282 | for every name too long to extend, a failing listing after which a touched row is hydrated, has an identity and no queued write, and no file |
| DownloadRace.MaterializeExactly | crates/icloud-core/src/mirror.rs:182-193 | putting a placeholder takes content away from its row exactly when downloaded files are cached below |
| DownloadRace.UndisturbedDownload | crates/icloud-core/src/engine/download.rs:29-79 | start, fetch and commit with nobody in between are the download attempt the filesystem calls make |
| DownloadRace.NothingResurrected | crates/icloud-core/src/engine/download.rs:29-79 | from the start of a download to its commit, whatever happens in between: bytes reach the mirror only if the row is live, has no write queued and still names the identity and version it had at the start, and they are of that version or a later one |
| DownloadRace.DeletedStaysDeleted | crates/icloud-core/src/engine/download.rs:59-79 | after a delete no run of commits, listings, edits and other steps brings the file back until something of that name is made, renamed there or listed at that very path, or a listing moves a local version aside to it, or a crawl's sweep, from rows it read before, detaches the row as changed here |
| DownloadRace.WrittenStaysWritten | crates/icloud-core/src/engine/download.rs:59-79 | after a write no run of commits, listings and other steps changes the bytes or drops the queued operation until somebody writes, removes or moves the file, a sweep removes it, or a listing has a conflict about it or puts something in its place |
| DownloadRace.QueueKeeps | crates/icloud-core/src/state.rs:598-630 | queueing an operation drops no content operation, but for the delete of that very path |
| DownloadRace.WriteKeeps | crates/icloud-core/src/state.rs:355-377 | marking a written row dirty leaves no row claiming content it does not have |
| DownloadRace.FinishKeeps | crates/icloud-core/src/state.rs:339-353 | nor does marking a row hydrated when its bytes are committed |
| DownloadRace.DeleteKeeps | crates/icloud-core/src/state.rs:379-382 | nor does turning a row into a pending delete or forgetting it |
| Locks.AlwaysExclusive | crates/icloud-core/src/engine/sync_util.rs:65-81 | over every run of any number of threads no key has two holders, and the table holds exactly the keys somebody holds, so it does not grow |
| Locks.StepExclusive | crates/icloud-core/src/engine/sync_util.rs:65-81 | taking a free key and dropping a guard both keep that; the methods of the table are these two steps |
| DownloadRace.MoveKeeps | crates/icloud-core/src/state.rs:462-524 | a rename carries content, identity, version and queued writes together |
| Srp.SecretsAgree | crates/icloud-api/src/srp.rs:160-169 | for every group, exponents, multiplier and scrambler the client's secret is the server's (section 2.6 of RFC 5054) |
| Srp.UnblindedIsGb | crates/icloud-api/src/srp.rs:164-167 | the subtraction never underflows and takes exactly the blinding away |
| Srp.HandshakeAgrees | crates/icloud-api/src/srp.rs:140-181 | the challenge is refused exactly on the two unsafe values, and otherwise the proofs are those a server computes from the verifier by the formulas of RFC 5054 and RFC 2945, for every hash |
| Srp.EncodingUnique | crates/icloud-api/src/srp.rs:200-213 | two encodings of one number in one width are equal |
| Srp.BytesRoundTrip | crates/icloud-api/src/srp.rs:200-207 | the minimal big-endian encoding reads back as the number and has no leading zero |
| Srp.PaddedValue | crates/icloud-api/src/srp.rs:209-213 | padding changes the width only, so different numbers are hashed differently |
| ModularPower.CongruentPow | crates/icloud-api/src/srp.rs:164-168 | powers of congruent numbers are congruent |
| Inodes.NeverRecycled | crates/icloudd/src/inodes.rs:34-73 | over every run no path has two numbers, 1 is the root, all numbers are below the next one, and a dropped number is never handed out again |
| Inodes.RenameBack | crates/icloudd/src/inodes.rs:60-73 | a rename to a place nothing occupies and back changes nothing |
| Inodes.UsesMean | crates/icloudd/src/inodes.rs:34-73 | a path looked up has a number and keeps it, everything at or below a removed one loses its, and a rename carries those below along and drops those it covers |
| Inodes.InodeTable.InoFor | crates/icloudd/src/inodes.rs:34-43 | the number of a path, a new one exactly on first sight; the two maps stay inverse |
| Inodes.InodeTable.RemoveSubtree | crates/icloudd/src/inodes.rs:46-56 | exactly the paths at or below are forgotten, the root never; in any order |
| Inodes.InodeTable.Rename | crates/icloudd/src/inodes.rs:60-73 | numbers under the old path follow, those under the new one are dropped, nested arguments included, independent of map order |
| SyncLog.FieldsRoundTrip | crates/icloud-core/src/engine/mod.rs:17-31 | parsing the printed fields gives back the keys and values, for every text |
| SyncLog.LineRoundTrip | crates/icloud-core/src/status.rs:126-143 | a logged event is recognised as that event with those fields, whatever the file is called |
| SyncLog.UnquoteEscaped | crates/icloud-core/src/engine/mod.rs:65-69 | unquoting undoes escaping and stops at the closing quote |
| SyncLog.ReplacedTwice | crates/icloud-core/src/engine/mod.rs:65-69 | the two replacements one after the other are one escaping pass |
| SyncLog.ParseFields | crates/icloud-core/src/status.rs:80-123 | the cursor loop computes the recursive reading of the text |
| SyncLog.ReadQuoted | crates/icloud-core/src/status.rs:100-111 | the loop over a quoted value |
| SyncLog.ChunksDoNotMatter | crates/icloud-core/src/status.rs:194-206 | however the log is cut into chunks, the kept partial line and the latest activity are the same |
| SyncLog.LoggedIsSeen | crates/icloud-core/src/status.rs:163-206 | an event on a line of its own becomes the latest activity in however many chunks it is read |
| SyncLog.EventsAreShown | crates/icloud-core/src/status.rs:126-153 | which activity each event about a path becomes: its last component, and the number of entries as logged |
| SyncLog.CarriageReturnIsDropped | crates/icloud-core/src/status.rs:194-206 | a line ended by carriage return and line feed reads as one ended by line feed |
| SyncLog.StatusMonitor.Absorb | crates/icloud-core/src/status.rs:194-206 | buffering up to the last line end has the effect of reading character by character |
| Paging.PagingIsLossless | crates/icloudd/src/adapter.rs:353-379 | repeated readdir shows `.`, `..` and every usable item once and in order, for every sequence of reply sizes, exactly when no unusable name precedes a usable one |
| Paging.UsableAt | crates/icloudd/src/adapter.rs:353-379 | the usable items are shown in order, each under its own name and kind |
| Paging.EntryShownTwice | crates/icloudd/src/adapter.rs:353-379 | in every folder of an unusable and a usable name, in that order, the usable one is shown twice, whatever the reply sizes |
| Paging.LongNamesAreUnusable | crates/icloud-core/src/path.rs:112-114 | 128 letters of two bytes make such a name |
| Paging.EnoughReplies | crates/icloudd/src/adapter.rs:353-379 | with room for one entry per reply, reading ends and is complete |
| Paging.IcloudFs.ReadDir | crates/icloudd/src/adapter.rs:353-379 | one reply: the entries from the offset on, as many as fit, numbered on, each with the inode of its path |
| PathText.NewIsCanonical | crates/icloud-core/src/path.rs:21-33 | normalising yields canonical form and leaves canonical strings alone |
| PathText.NewOfPrefix | crates/icloud-core/src/path.rs:21-33 | normalising a prefix first makes no difference |
| PathText.NewOfLonger | crates/icloud-core/src/path.rs:21-33 | what one more part does: nothing for an empty one or `.`, one component less for `..`, else one more |
| PathText.ComponentsOfRendered | crates/icloud-core/src/path.rs:21-33 | canonical strings and component sequences determine each other |
| PathText.New | crates/icloud-core/src/path.rs:21-33 | the loop over the parts computes that normal form |
| PathText.ParentOnText | crates/icloud-core/src/path.rs:44-54 | parent and last component on strings are those of the components |
| PathText.JoinOnText | crates/icloud-core/src/path.rs:58-63 | join appends one component, exactly when the name is valid |
| PathText.DepthOnText | crates/icloud-core/src/path.rs:66-68 | depth is the number of components |
| PathText.WithinText | crates/icloud-core/src/path.rs:71-75 | is_within is the component prefix, not the string prefix |
| PathText.WithinIsOrder | crates/icloud-core/src/path.rs:66-75 | containment of stored paths is a partial order along which depth strictly grows |
| PathText.RebaseOnText | crates/icloud-core/src/path.rs:79-98 | rebase on strings is rebase on components, refused exactly outside the subtree |
| PathText.RangeScanIsExact | crates/icloud-core/src/path.rs:103-108 | the range of a subtree query holds exactly the paths in the subtree, root included |
| Paths.RebaseLands | crates/icloud-core/src/path.rs:91-98 | a rebased path is below the new place and rebasing back restores it |
| Paths.RebaseKeepsContainment | crates/icloud-core/src/path.rs:91-98 | rebasing keeps containment, both ways |
| Paths.RebaseParent | crates/icloud-core/src/path.rs:91-98 | the parent of a moved path is the moved parent |
| State.SyncState.RenameTree | crates/icloud-core/src/state.rs:462-524 | the transaction's loops, in any row order, compute the re-keying |
| State.SyncState.Displace | crates/icloud-core/src/state.rs:470-481 | clearing the destination row by row buries what iCloud has and drops the rest |
| State.SyncState.RekeySubtree | crates/icloud-core/src/state.rs:483-500 | updating the keys one at a time never hits another row |
| State.SyncState.RetargetOps | crates/icloud-core/src/state.rs:502-520 | every queued operation's path and target follow the move |
| State.SyncState.DetachSubtreeAsConflict | crates/icloud-core/src/state.rs:565-580 | the whole subtree moves and loses its identity, or, landing on another row, nothing changes |
| Mirror.Mirror.CreateDirAll | crates/icloud-core/src/mirror.rs:170-173 | every missing folder on the way, unless a file is in it |
| Mirror.Mirror.EnsureDir | crates/icloud-core/src/mirror.rs:162-168 | a folder, replacing a file |
| Mirror.Mirror.CreateFile | crates/icloud-core/src/mirror.rs:175-178 | an empty file, or the file that was there |
| Mirror.Mirror.Commit | crates/icloud-core/src/mirror.rs:216-221 | the staged bytes in place |
| Mirror.Mirror.WriteAt | crates/icloud-core/src/mirror.rs:238-243 | data in its range, the old bytes outside it, zeros in a gap |
| Mirror.Mirror.Truncate | crates/icloud-core/src/mirror.rs:245-248 | shorter or zero-extended |
| Mirror.Mirror.RemoveDir | crates/icloud-core/src/mirror.rs:275-278 | only an empty folder goes |
| Mirror.Mirror.Rename | crates/icloud-core/src/mirror.rs:292-297 | the subtree moves, replacing a file or an empty folder |
| Fs.FsCore.Create | crates/icloud-core/src/fs.rs:352-370 | the steps in their order, a pending delete of the name buried first, end in a state and error the reference tree allows for create |
| Fs.FsCore.Mkdir | crates/icloud-core/src/fs.rs:372-386 | the same for mkdir |
| Fs.FsCore.Write | crates/icloud-core/src/fs.rs:403-415 | the same for a write to a live file; content is made ready first and nothing is recorded if that fails |
| Fs.FsCore.Truncate | crates/icloud-core/src/fs.rs:417-427 | the same for truncation of a live file |
| Fs.FsCore.SetMtime | crates/icloud-core/src/fs.rs:445-456 | the same for setting the time, which asks for no upload of the content |
| Fs.FsCore.Unlink | crates/icloud-core/src/fs.rs:466-476 | the same for unlink: the mirror file goes first, then the row becomes a pending delete, or is forgotten if iCloud never had it |
| Fs.FsCore.Rmdir | crates/icloud-core/src/fs.rs:478-492 | the same for rmdir: only after the mirror accepted is the row changed |
| Fs.FsCore.Rename | crates/icloud-core/src/fs.rs:507-552 | the same for rename: every check before any change, then mirror, rows and queued operations move together |
| Fs.FsCore.HydrateFile | crates/icloud-core/src/engine/download.rs:85-97 | at most three attempts, ending as soon as the file is local, gone or not a file |
| Cloud.MemoryDrive.Create | crates/icloud-api/src/memory.rs:235-253 | a new id and a name nobody in the folder has, the given one if it is free; the numbering ends |
| Cloud.FreeExists | crates/icloud-api/src/memory.rs:235-246 | finitely many items cannot hold all numbered names |
| Cloud.WithoutExactly | crates/icloud-api/src/memory.rs:255-262 | permanent removal takes the item and exactly what is inside it, whatever the depth |
| Cloud.NumberedDiffer | crates/icloud-api/src/memory.rs:235-246 | the names tried are all different |
| Cloud.MemoryDrive.Children | crates/icloud-api/src/memory.rs:287-301 | exactly the items of a folder |
| Cloud.MemoryDrive.Upload | crates/icloud-api/src/memory.rs:309-322 | success means one new file item with those bytes |
| Cloud.MemoryDrive.CreateFolder | crates/icloud-api/src/memory.rs:324-331 | success means one new folder item |
| Cloud.MemoryDrive.Delete | crates/icloud-api/src/memory.rs:333-348 | gone with everything inside, or in the trash |

## Left out

- The `remote_docwsid`, `remote_zone`, `remote_shareid` and `local_sha256` columns, timestamps of folders, permissions and free space.
- I/O errors of the disk and the database; a step that fails half way is modelled only where the error comes from the tree, the rows or iCloud.
- Graveyard markers are random in the program; here they are parameters assumed to give unused keys.
- FsPosix.EveryCallRefines: writes and truncates go to files with a live row, since the kernel looks the path up first; `Identities.CallConserves` covers the others.
- Crawl mode `lazy` inside `FsCore` (listing a folder when it is opened) and turning away background readers: there the engine crawls and every reader is a person.
- Remote.Engine.ListDirectory: after a listing that failed half way the database is specified, the mirror is not, because it may hold folders made on the way.
- Listing.FollowMove: a remote move into or above the item's own place whose mirror copy is missing counts as a failed listing.
- Convergence.ListingConverges: asks that no listed item moves onto a path another row holds, because such a move displaces the occupant.
- Conflicts.NoSilentOverwrite: does not cover a clean item that moved on iCloud, because a move onto an occupied path displaces local changes there, nor a file reported where a clean folder with changes below it is cached; the removal of unlisted clean folders after the items of a listing is not covered either.
- Crawl.StillThere: iCloud does not change while the crawl reads it.
- Rescan.RescanConverges: asks for a cache without local changes, and that no item, when its turn comes, moves onto a path another row holds, because such a move displaces the occupant.
- Uploader.UploadEngine.SyncDirty: does not claim that moves and renames without new content arrive, because `mark_synced_subtree` rewrites the synced path of dirty children; that a new name is free is a condition only where the item's bytes are concerned; entries of equal kind and depth may be taken in any order.
- Delivery.UploadsArrive: asks that no changed file has, here or on iCloud, the name of a changed folder, because a new or moved folder adopts whatever has its name, and with it an item that a later upload deletes.
- Upload.PassSafe: when the pass starts every ancestor of a live row that has a row is assumed to be a live folder, which `Upload.CoupledIsOrderly` proves of every state `FsCore` keeps, and the mirror to be a file tree; nobody else writes during the pass.
- UploadRace.NoLostEdit: one file under one path; deletes and renames of it during the upload are not steps, nor are changes that other devices make on iCloud to its item or to items of its name.
- DownloadRace.NoStaleContent: a write is one step and its own download part of an earlier one, no uploads, no remote moves, an id keeps its kind; folders that a failed step made on the way are not recorded.
- Locks.KeyedLocks.Acquire: called when the wait is over, by a thread that holds no other key; the condition variable and fairness are not modelled.
- Cloud.MemoryDrive.Delete: removal is by parent chain at once instead of by recursion over the children.
- Nested arguments of `rename_tree`, which `FsCore` never passes.
- Integer widths of sizes, times and inode numbers.
- Seconds in the conflict stamp: the stamp is any text.
- `reconcile_persistent_cache`, the refresh loop, warm-up scheduling and retry delays.
- SHA-256, PBKDF2 and the random number generator; the hash is any function.
- HTTP, cookies, two-factor sign-in, configuration, installers, thumbnails and the command line.
