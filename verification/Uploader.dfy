/** One upload pass over everything marked dirty: deletes deepest first, then folders before
    files and shallow before deep.  Nobody else writes meanwhile; the races are in modules
    `UploadRace` and `DownloadRace`. */
module Uploader {
  import opened Paths
  import opened Tables
  import opened Files
  import opened Policy
  import opened State
  import opened FsSpec
  import opened Cloud
  import opened Upload
  import opened Runs
  import opened Delivery
  import opened Additions
  import M = Mirror

  class UploadEngine {
    const mirror: M.Mirror
    const state: SyncState
    const drive: MemoryDrive
    const policy: SyncPolicy
    const permanently: bool
    var rootKnown: bool

    constructor (mirror: M.Mirror, state: SyncState, drive: MemoryDrive, policy: SyncPolicy, permanently: bool)
      ensures this.mirror == mirror && this.state == state && this.drive == drive && this.policy == policy
    {
      this.mirror, this.state, this.drive, this.policy := mirror, state, drive, policy;
      this.permanently, rootKnown := permanently, false;
    }

    ghost function Now(): Stand
      reads mirror, state, drive
    {
      Stand(state.View(), mirror.disk, drive.items, drive.nextId)
    }

    ghost function Here(): Moment
      reads mirror, state, drive
    {
      Moment(state.View(), mirror.disk, drive.done)
    }

    /** The pass is in a state its guarantees start from. */
    ghost predicate Ready()
      reads state, mirror
    {
      Orderly(state.rows) && Untargeted(state.ops) && ROOT !in state.rows && Rooted(mirror.disk)
    }

    method RootNode() returns (id: Option<string>)
      modifies `rootKnown, drive`calls
      ensures id.Some? ==> id == Some(ROOT_ID)
      ensures drive.NeverFails() ==> id.Some?
    {
      if rootKnown { return Some(ROOT_ID); }
      var ok := drive.Root();
      if !ok { return None; }
      rootKnown := true;
      id := Some(ROOT_ID);
    }

    method RemoteNodeForPath(p: Path) returns (id: Option<string>)
      modifies `rootKnown, drive`calls
      ensures id.Some? ==> id == FolderId(state.rows, p)
      ensures drive.NeverFails() ==> id == FolderId(state.rows, p)
    {
      if p == ROOT {
        id := RootNode();
      } else {
        id := if p in state.rows then state.rows[p].remoteId else None;
      }
    }

    /** iCloud's current record of `name` inside a folder. */
    method RefreshChildMeta(folder: Path, name: string) returns (meta: Option<RemoteNode>)
      modifies `rootKnown, drive`calls
      ensures meta.Some? ==>
                && FolderId(state.rows, folder).Some? && meta.value.name == name && meta.value.id in drive.items
                && meta.value == Node(meta.value.id, drive.items[meta.value.id])
                && drive.items[meta.value.id].parent == FolderId(state.rows, folder)
      ensures drive.NeverFails() ==> Found(Now(), folder, name, meta)
    {
      var parent := RemoteNodeForPath(folder);
      if parent.None? { return None; }
      var children := drive.Children(parent.value);
      if children.None? { return None; }
      if n :| n in children.value && n.name == name {
        meta := Some(n);
      } else {
        assert forall id :: id in drive.items && drive.items[id].parent == parent ==>
          Node(id, drive.items[id]) in children.value;
        meta := None;
      }
    }

    /** Carry a local rename or move out on iCloud; the rows do not change. */
    method SyncMoveOrRename(p: Path, entry: Row) returns (ok: bool)
      requires p != ROOT && entry.remoteId.Some? && entry.syncedPath.Some?
      modifies drive`items, drive`calls, `rootKnown
      ensures var synced, id := entry.syncedPath.value, entry.remoteId.value;
              ok && synced != p ==>
                && id in drive.items
                && (Parent(synced) != Parent(p) ==> drive.items[id].parent == FolderId(state.rows, Parent(p)))
                && (synced == ROOT || Last(synced) != Last(p) ==> drive.items[id].name == Last(p))
      ensures drive.NeverFails() && FolderId(state.rows, Parent(p)).Some? && entry.syncedPath.value != p ==>
                MoveRun(old(Now()), Now(), p, entry, ok)
    {
      var synced, id := entry.syncedPath.value, entry.remoteId.value;
      if Parent(synced) != Parent(p) {
        var destination := RemoteNodeForPath(Parent(p));
        if destination.None? { return false; }
        ok := drive.MoveTo(id, destination.value);
        if !ok { return; }
        var node := drive.GetNode(id);
        if node.None? { return false; }
      }
      if synced == ROOT || Last(synced) != Last(p) {
        ok := drive.Rename(id, Last(p));
        if !ok { return; }
      }
      ok := true;
    }

    method MakeRemoteFolder(p: Path, parent: string) returns (meta: Option<RemoteNode>)
      requires p in state.rows && p != ROOT && Some(parent) == FolderId(state.rows, Parent(p))
      modifies drive`items, drive`nextId, drive`calls, `rootKnown
      ensures drive.NeverFails() ==>
                if parent in old(drive.items) then
                  && Now() == WithItem(old(Now()), Parent(p), Last(p), Folder, [], 0)
                  && Found(Now(), Parent(p), Last(p), meta)
                else meta.None? && Now() == old(Now())
    {
      var ok := drive.CreateFolder(parent, Last(p));
      if !ok { return None; }
      meta := RefreshChildMeta(Parent(p), Last(p));
    }

    /** A folder iCloud has never had. */
    method CreateRemoteFolder(p: Path, parent: string, now: int) returns (ok: bool)
      requires Ready() && p in state.rows && IsDir(state.rows[p].kind) && !state.rows[p].tombstone
      requires state.rows[p].dirty && Some(parent) == FolderId(state.rows, Parent(p))
      modifies state, drive`items, drive`nextId, drive`calls, `rootKnown
      ensures Ready() && FolderStep(old(state.View()), state.View()) && OnlyUpwards(old(state.rows), state.rows, p)
      ensures FoldersStay(old(state.rows), state.rows) && (ok ==> !state.rows[p].dirty)
      ensures drive.NeverFails() ==> CreateRun(old(Now()), Now(), p, now, ok)
    {
      ghost var was := state.View();
      var meta := MakeRemoteFolder(p, parent);
      if meta.None? { return false; }
      ghost var made := Now();
      FolderCleaned(was, p, meta.value, now);
      state.MarkClean(p, meta.value, now);
      assert Now() == Adopted(made, p, meta, false, now);
      ok := true;
    }

    /** A folder iCloud has: follow its move, if it moved. */
    method UpdateRemoteFolder(p: Path, entry: Row, now: int) returns (ok: bool)
      requires Ready() && p in state.rows && IsDir(state.rows[p].kind) && !state.rows[p].tombstone
      requires state.rows[p].dirty && FolderId(state.rows, Parent(p)).Some? && entry.remoteId.Some?
      modifies state, drive`items, drive`nextId, drive`calls, `rootKnown
      ensures Ready() && FolderStep(old(state.View()), state.View()) && OnlyUpwards(old(state.rows), state.rows, p)
      ensures FoldersStay(old(state.rows), state.rows) && (ok ==> !state.rows[p].dirty)
      ensures drive.NeverFails() ==> UpdateRun(old(Now()), Now(), p, entry, now, ok)
    {
      if entry.syncedPath.Some? && entry.syncedPath.value != p {
        ok := SyncMoveOrRename(p, entry);
        if !ok { return; }
        ok := AdoptMovedFolder(p, now);
      } else {
        SubtreeSynced(state.View(), p, now);
        state.MarkSyncedSubtree(p, now);
        ok := true;
      }
    }

    /** The folder's record changed with the move; its subtree is known under its new paths. */
    method AdoptMovedFolder(p: Path, now: int) returns (ok: bool)
      requires Ready() && p in state.rows && IsDir(state.rows[p].kind) && !state.rows[p].tombstone
      requires state.rows[p].dirty && FolderId(state.rows, Parent(p)).Some?
      modifies state, drive`calls, `rootKnown
      ensures Ready() && FolderStep(old(state.View()), state.View()) && OnlyUpwards(old(state.rows), state.rows, p)
      ensures FoldersStay(old(state.rows), state.rows) && (ok ==> !state.rows[p].dirty)
      ensures drive.NeverFails() ==> AdoptRun(old(Now()), Now(), p, true, now, ok)
    {
      ghost var was := Now();
      var meta := RefreshChildMeta(Parent(p), Last(p));
      if meta.None? { return false; }
      FolderMovedClean(state.View(), p, meta.value, now);
      state.MarkSyncedSubtree(p, now);
      state.MarkClean(p, meta.value, now);
      assert Now() == Adopted(was, p, meta, true, now);
      ok := true;
    }

    /** Push one changed folder, its missing ancestors first. */
    method SyncDirectory(p: Path, now: int) returns (ok: bool)
      requires Ready() && p in state.rows && IsDir(state.rows[p].kind) && !state.rows[p].tombstone
      requires state.rows[p].dirty
      modifies state, drive`items, drive`nextId, drive`calls, `rootKnown
      ensures Ready() && FolderStep(old(state.View()), state.View()) && OnlyUpwards(old(state.rows), state.rows, p)
      ensures FoldersStay(old(state.rows), state.rows) && (ok ==> Settled(state.rows, p))
      ensures drive.NeverFails() ==> FolderRun(old(Now()), Now(), p, now, ok)
      decreases |p|, 1
    {
      ghost var was := Now();
      var entry := state.rows[p];
      var parent;
      ok, parent := EnsureRemoteParent(p, now);
      if !ok || parent.None? { return; }
      ghost var mid := Now();
      assert !Within(Parent(p), p);
      ok := CarryOutFolder(p, parent.value, entry, now);
      assert drive.NeverFails() ==> FolderRest(mid, Now(), p, entry, now, true, parent, ok);
      FolderStepTwice(was.db, mid.db, state.View());
      OnlyUpwardsTwice(was.db.rows, mid.db.rows, state.rows, p);
    }

    /** Everything after the folders above are on iCloud. */
    method CarryOutFolder(p: Path, parent: string, entry: Row, now: int) returns (ok: bool)
      requires Ready() && p in state.rows && IsDir(state.rows[p].kind) && !state.rows[p].tombstone
      requires state.rows[p].dirty && Some(parent) == FolderId(state.rows, Parent(p))
      requires entry.remoteId == state.rows[p].remoteId
      modifies state, drive`items, drive`nextId, drive`calls, `rootKnown
      ensures Ready() && FolderStep(old(state.View()), state.View()) && OnlyUpwards(old(state.rows), state.rows, p)
      ensures FoldersStay(old(state.rows), state.rows) && (ok ==> !state.rows[p].dirty)
      ensures drive.NeverFails() ==> FolderRest(old(Now()), Now(), p, entry, now, true, Some(parent), ok)
    {
      if entry.remoteId.None? {
        ok := CreateRemoteFolder(p, parent, now);
      } else {
        ok := UpdateRemoteFolder(p, entry, now);
      }
    }

    /** The remote folder that will hold `p`, syncing missing ancestors first. */
    method EnsureRemoteParent(p: Path, now: int) returns (ok: bool, id: Option<string>)
      requires Ready() && p in state.rows && !state.rows[p].tombstone
      modifies state, drive`items, drive`nextId, drive`calls, `rootKnown
      ensures Ready() && FolderStep(old(state.View()), state.View())
      ensures OnlyUpwards(old(state.rows), state.rows, Parent(p)) && FoldersStay(old(state.rows), state.rows)
      ensures id.Some? ==> id == FolderId(state.rows, Parent(p)) && Settled(state.rows, Parent(p))
      ensures ok && id.None? ==> Unreachable(state.rows, Parent(p))
      ensures drive.NeverFails() ==> ParentRun(old(Now()), Now(), p, now, ok, id)
      decreases |p|, 0
    {

      var parent := Parent(p);
      if parent == ROOT {
        id := RootNode();
        ok := id.Some?;
        return;
      }
      if parent !in state.rows { return true, None; }
      assert Within(p, parent);
      if state.rows[parent].dirty {
        ok := SyncDirectory(parent, now);
        if !ok { return false, None; }
        if parent !in state.rows { return true, None; }
      }
      ok, id := true, state.rows[parent].remoteId;
    }

    /** One download attempt, nobody interfering; `fetched` is what iCloud sent, if it was asked. */
    method EnsureLocalFile(p: Path, now: int) returns (ok: bool, ghost fetched: Option<Bytes>)
      requires p in state.rows && Rooted(mirror.disk)
      modifies mirror, state, drive`calls
      ensures var w := old(World(state.View(), mirror.disk));
              Outcome(World(state.View(), mirror.disk), if ok then None else Some(EIO)) ==
              if Allows(policy, p) then EnsureLocal(w, p, fetched, now) else Done(w)
    {
      fetched := None;
      if !Allows(policy, p) { return true, None; }
      var entry := state.rows[p];
      if entry.kind != File || entry.tombstone || (entry.hydrated && p in mirror.disk) { return true, None; }
      if entry.remoteId.None? {
        // Created here, never on iCloud: whatever is in the mirror is the file.
        var error := mirror.CreateFile(p, now);
        if error.Some? { return false, None; }
        state.MarkHydrated(p, |mirror.disk[p].bytes|, mirror.disk[p].mtime);
        return true, None;
      }
      var answer := drive.Open(entry.remoteId.value);
      fetched := answer;
      if answer.None? { return false, None; }
      if PendingContent(state.ops, p) { return true, fetched; }
      var error := mirror.Commit(p, answer.value, entry.mtime);
      if error.Some? { return false, fetched; }
      state.MarkHydrated(p, |answer.value|, ClampTime(entry.mtime));
      ok := true;
    }

    method MakeRemoteFile(p: Path, parent: string, data: Bytes, mtime: int) returns (meta: Option<RemoteNode>)
      requires p in state.rows && p != ROOT && Some(parent) == FolderId(state.rows, Parent(p))
      modifies drive, `rootKnown
      ensures old(drive.done) <= drive.done
      ensures meta.Some? ==> drive.done == old(drive.done) + [Uploaded(parent, Last(p), data)]
      ensures drive.NeverFails() ==>
                if parent in old(drive.items) then
                  && Now() == WithItem(old(Now()), Parent(p), Last(p), File, data, mtime)
                  && Found(Now(), Parent(p), Last(p), meta)
                else meta.None? && Now() == old(Now())
    {
      var sent := drive.Upload(parent, Last(p), data, mtime);
      if !sent { return None; }
      meta := RefreshChildMeta(Parent(p), Last(p));
    }

    /** Nobody wrote meanwhile: the row is clean. */
    method FinishUpload(p: Path, meta: RemoteNode, now: int)
      requires p in mirror.disk
      modifies mirror, state
      ensures state.View() == MarkClean(old(state.View()), p, meta, now)
      ensures SameBytes(old(mirror.disk), mirror.disk) && (Rooted(old(mirror.disk)) ==> Rooted(mirror.disk))
    {
      mirror.SetMtime(p, meta.modified);
      state.MarkClean(p, meta, now);
    }

    /** Upload the file at `p` and adopt its record; `was` is from before room was made. */
    method PutUp(p: Path, parent: string, now: int, ghost was: Moment) returns (ok: bool)
      requires Ready() && p in state.rows && !state.rows[p].tombstone && !IsDir(state.rows[p].kind)
      requires Some(parent) == FolderId(state.rows, Parent(p)) && Settled(state.rows, Parent(p))
      requires IsFile(mirror.disk, p) && Later(was, Here()) && was.db == state.View() && was.disk == mirror.disk
      modifies mirror, state, drive, `rootKnown
      ensures Ready() && Keeps(was, Here())
      ensures drive.NeverFails() ==> UploadRun(old(Now()), Now(), p, now, ok)
    {
      ghost var start, before := Now(), mirror.disk[p];
      ghost var sent := |drive.done|;
      var meta := MakeRemoteFile(p, parent, mirror.disk[p].bytes, mirror.disk[p].mtime);
      if meta.None? { return false; }
      ghost var made := Now();
      FinishUpload(p, meta.value, now);
      assert drive.done[sent] == Uploaded(parent, Last(p), before.bytes);
      UploadedKeeps(was, Here(), p, meta.value, now);
      assert Now().(disk := made.disk) == Adopted(made, p, meta, false, now);
      ok := true;
    }

    /** Send the content of `p`, the item it replaces out of the way first. */
    method SendContent(p: Path, parent: string, entry: Row, now: int) returns (ok: bool)
      requires Ready() && p in state.rows && !state.rows[p].tombstone && !IsDir(state.rows[p].kind)
      requires Some(parent) == FolderId(state.rows, Parent(p)) && Settled(state.rows, Parent(p))
      modifies mirror, state, drive, `rootKnown
      ensures Ready() && Keeps(old(Here()), Here())
      ensures drive.NeverFails() ==> ContentRun(old(Now()), Now(), p, entry.remoteId, now, ok)
    {
      ghost var here := Here();
      if p !in mirror.disk || mirror.disk[p].Dir? { return false; }
      if entry.remoteId.Some? {
        var gone := drive.Delete(entry.remoteId.value, true);
      }
      ok := PutUp(p, parent, now, here);
    }

    /** The content of a changed file is here before it is sent. */
    method MakeReady(p: Path, now: int) returns (ok: bool)
      requires Ready() && p in state.rows && !state.rows[p].tombstone && !IsDir(state.rows[p].kind)
      requires p in mirror.disk && (state.rows[p].remoteId.None? || PendingContent(state.ops, p))
      modifies mirror, state, drive`calls
      ensures Ready() && Keeps(old(Here()), Here()) && Downloaded(old(state.View()), state.View(), p)
      ensures ReadyRun(old(Now()), Now(), p, ok)
    {
      ghost var here := Here();
      ghost var w := World(state.View(), mirror.disk);
      ghost var fetched;
      ok, fetched := EnsureLocalFile(p, now);
      AttemptBeforeUpload(w, p, fetched, now);
      AttemptBeforeUpload(w, p, None, now);
      assert Downloaded(w.db, state.View(), p) by {
        var r := w.db.rows[p];
        assert w.db.rows == w.db.rows[p := r.(hydrated := r.hydrated, size := r.size, mtime := r.mtime)];
      }
      DownloadedKeeps(here, Here(), p);
      ok := ok && state.rows[p].hydrated;
    }

    /** Only the name changed: iCloud has the content. */
    method SendName(p: Path, entry: Row, now: int) returns (ok: bool)
      requires Ready() && p in state.rows && !state.rows[p].tombstone && !IsDir(state.rows[p].kind)
      requires !MustUpload(state.View(), p) && FolderId(state.rows, Parent(p)).Some?
      modifies state, drive`items, drive`calls, `rootKnown
      ensures Ready() && Keeps(old(Here()), Here())
      ensures drive.NeverFails() ==> NameRun(old(Now()), Now(), p, entry, now, ok)
    {
      ghost var was, here := Now(), Here();
      ok := true;
      if entry.remoteId.Some? && entry.syncedPath.Some? && entry.syncedPath.value != p {
        ok := SyncMoveOrRename(p, entry);
      }
      ghost var mid := Now();
      assert drive.NeverFails() ==> MoveRun(was, mid, p, entry, ok);
      if !ok { return; }
      var meta := RefreshChildMeta(Parent(p), Last(p));
      if meta.None? { return false; }
      state.MarkClean(p, meta.value, now);
      UploadedKeeps(here, Here(), p, meta.value, now);
      assert Now() == Adopted(mid, p, meta, false, now);
      ok := true;
    }

    lemma StillSettled(rows: Rows, rows': Rows, p: Path)
      requires Orderly(rows) && p in rows && !rows[p].tombstone && p != ROOT
      requires FoldersStay(rows, rows') && Settled(rows, Parent(p))
      ensures Settled(rows', Parent(p)) && FolderId(rows', Parent(p)) == FolderId(rows, Parent(p))
    {
      FoldersAbove(rows, p);
    }

    /** The name, if it changed, and then the content. */
    method SendChange(p: Path, parent: string, entry: Row, now: int) returns (ok: bool)
      requires Ready() && p in state.rows && !state.rows[p].tombstone && !IsDir(state.rows[p].kind)
      requires Some(parent) == FolderId(state.rows, Parent(p)) && Settled(state.rows, Parent(p))
      requires entry.remoteId == state.rows[p].remoteId && p in mirror.disk
      requires entry.remoteId.None? || PendingContent(state.ops, p)
      modifies mirror, state, drive, `rootKnown
      ensures Ready() && Keeps(old(Here()), Here())
      ensures drive.NeverFails() ==> ChangeRun(old(Now()), Now(), p, entry, now, ok)
    {
      ghost var here := Here();
      ok := MakeReady(p, now);
      if !ok { return; }
      ghost var mid := Here();
      StillSettled(here.db.rows, mid.db.rows, p);
      ok := MoveAndSend(p, parent, entry, now);
      KeepsTwice(here, mid, Here());
    }

    method MoveAndSend(p: Path, parent: string, entry: Row, now: int) returns (ok: bool)
      requires Ready() && p in state.rows && !state.rows[p].tombstone && !IsDir(state.rows[p].kind)
      requires Some(parent) == FolderId(state.rows, Parent(p)) && Settled(state.rows, Parent(p))
      requires entry.remoteId == state.rows[p].remoteId
      modifies mirror, state, drive, `rootKnown
      ensures Ready() && Keeps(old(Here()), Here())
      ensures drive.NeverFails() ==> SendRun(old(Now()), Now(), p, entry, now, ok)
    {
      ghost var was, here := Now(), Here();
      var latest := entry;
      ok := true;
      if entry.remoteId.Some? && entry.syncedPath.Some? && entry.syncedPath.value != p {
        ok := SyncMoveOrRename(p, entry);
        latest := state.rows[p];
      }
      assert drive.NeverFails() ==> MoveRun(was, Now(), p, entry, ok);
      if !ok { return; }
      ghost var mid := Here();
      ok := SendContent(p, parent, latest, now);
    }

    /** Everything after the parent folder is known to be on iCloud. */
    method SyncFileBelow(p: Path, parent: string, entry: Row, now: int) returns (ok: bool)
      requires Ready() && p in state.rows && !state.rows[p].tombstone && !IsDir(state.rows[p].kind)
      requires Some(parent) == FolderId(state.rows, Parent(p)) && Settled(state.rows, Parent(p))
      requires entry.remoteId == state.rows[p].remoteId
      modifies mirror, state, drive, `rootKnown
      ensures Ready() && Keeps(old(Here()), Here())
      ensures drive.NeverFails() ==> FileRest(old(Now()), Now(), p, entry, now, ok)
    {
      ghost var here := Here();
      if p !in mirror.disk {
        // Gone from disk without going through the mount: treat as deleted.
        state.MarkTombstone(p);
        MissingKeeps(here, Here(), p);
        return true;
      }
      if entry.remoteId.None? || PendingContent(state.ops, p) {
        ok := SendChange(p, parent, entry, now);
      } else {
        ok := SendName(p, entry, now);
      }
    }

    /** Push one changed file. */
    method SyncFile(p: Path, now: int) returns (ok: bool)
      requires Ready() && p in state.rows && !state.rows[p].tombstone && !IsDir(state.rows[p].kind)
      modifies mirror, state, drive, `rootKnown
      ensures Ready() && Keeps(old(Here()), Here())
      ensures drive.NeverFails() ==> FileRun(old(Now()), Now(), p, now, ok)
    {
      ghost var here := Here();
      var entry := state.rows[p];
      var parent;
      ok, parent := EnsureRemoteParent(p, now);
      FolderStepKeeps(here, Here());
      if !ok || parent.None? { return; }
      ghost var mid := Here();
      assert !Within(Parent(p), p);
      ok := SyncFileBelow(p, parent.value, entry, now);
      KeepsTwice(here, mid, Here());
    }

    /** May this change be sent?  A move needs both ends inside the boundary; a delete is judged
        by the path iCloud knows the item under. */
    predicate AllowedToSync(p: Path, r: Row) {
      if r.tombstone then Allows(policy, Coalesce(r.syncedPath, p))
      else Allows(policy, p) && (r.syncedPath.Some? ==> Allows(policy, r.syncedPath.value))
    }

    method SyncTombstone(p: Path, entry: Row)
      requires Ready() && p in state.rows && entry == state.rows[p] && entry.tombstone
      modifies state, drive`items, drive`calls, drive`done
      ensures Ready() && DeleteStep(old(Here()), Here())
      ensures forall k :: k in old(state.rows) && !Within(k, p) ==> k in state.rows
      ensures drive.NeverFails() ==> DeleteRun(old(Now()), Now(), p, permanently)
    {
      ghost var here := Here();
      if entry.remoteId.Some? {
        var ok := drive.Delete(entry.remoteId.value, permanently);
        if !ok { return; }
        assert drive.done[|here.done|] == Removed(entry.remoteId.value);
      }
      state.RemoveSubtree(p);
      RemovedTombstone(here, Here(), p);
    }

    method Deepest(todo: set<Path>) returns (k: Path)
      requires todo != {}
      ensures k in todo && forall j :: j in todo ==> |j| <= |k|
    {
      k :| k in todo;
      var rest := todo - {k};
      while rest != {}
        invariant rest <= todo && k in todo && forall j :: j in todo - rest ==> |j| <= |k|
        decreases rest
      {
        var j :| j in rest;
        if |j| > |k| { k := j; }
        rest := rest - {j};
      }
    }

    method Soonest(rows: Rows, todo: set<Path>) returns (k: Path)
      requires todo != {} && todo <= rows.Keys
      ensures k in todo && forall j :: j in todo ==> !Sooner(rows, j, k)
    {
      k :| k in todo;
      var rest := todo - {k};
      while rest != {}
        invariant rest <= todo && k in todo && forall j :: j in todo - rest ==> !Sooner(rows, j, k)
        decreases rest
      {
        var j :| j in rest;
        if Sooner(rows, j, k) {
          forall i | i in todo - rest ensures !Sooner(rows, i, j) {
            assert !Sooner(rows, i, k);
          }
          k := j;
        }
        rest := rest - {j};
      }
    }

    /** Deletions, deepest first, so children go before their folder. */
    method SyncTombstones(tombstones: set<Path>, stop: nat -> bool) returns (stopped: bool)
      requires Ready() && forall k :: k in tombstones ==> k in state.rows && state.rows[k].tombstone
      modifies state, drive`items, drive`calls, drive`done
      ensures Ready() && DeleteStep(old(Here()), Here())
      ensures stopped ==> exists n: nat :: stop(n)
      ensures drive.NeverFails() && !stopped ==>
                exists order :: DeepestFirst(order, tombstones) && DeletesRun(old(Now()), Now(), order, permanently)
    {
      var rows := state.rows;
      ghost var was, here := Now(), Here();
      var todo, step := tombstones, 0;
      ghost var order: seq<Path> := [];
      assert DeleteStep(here, here);
      while todo != {}
        invariant todo <= tombstones && Ready() && DeleteStep(here, Here())
        invariant forall k :: k in todo ==> k in state.rows
        invariant DeepestFirst(order, tombstones - todo)
        invariant forall j, k :: j in order && k in todo ==> |k| <= |j|
        invariant drive.NeverFails() ==> DeletesRun(was, Now(), order, permanently)
        invariant 0 <= step
        decreases todo
      {
        if stop(step) { return true; }
        step := step + 1;
        var k := Deepest(todo);
        forall j | j in todo && Within(j, k) ensures j == k {
          assert |j| <= |k|;
        }
        ghost var mid, midHere := Now(), Here();
        SyncTombstone(k, rows[k]);
        DeleteStepTwice(here, midHere, Here());
        if drive.NeverFails() {
          OneMoreDelete(was, mid, Now(), order, k, permanently);
        }
        OneLess(tombstones, todo, k);
        DeepestMore(order, tombstones - todo, k);
        order, todo := order + [k], todo - {k};
      }
      stopped := false;
    }

    /** Push one entry, unless an earlier step took care of it. */
    method SyncEntry(k: Path, now: int)
      requires Ready()
      modifies mirror, state, drive, `rootKnown
      ensures Ready() && Keeps(old(Here()), Here())
      ensures drive.NeverFails() ==> EntryRun(old(Now()), Now(), k, now)
    {
      ghost var here := Here();
      if k in state.rows && !state.rows[k].tombstone && state.rows[k].dirty {
        var ok;
        if IsDir(state.rows[k].kind) {
          ok := SyncDirectory(k, now);
          FolderStepKeeps(here, Here());
        } else {
          ok := SyncFile(k, now);
        }
      }
    }

    /** Everything else, folders first and shallow before deep. */
    method SyncRegular(regular: set<Path>, now: int, stop: nat -> bool) returns (stopped: bool)
      requires Ready() && regular <= state.rows.Keys
      modifies mirror, state, drive, `rootKnown
      ensures Keeps(old(Here()), Here())
      ensures stopped ==> exists n: nat :: stop(n)
      ensures drive.NeverFails() && !stopped ==>
                exists order :: InTurn(old(state.rows), order, regular) && EntriesRun(old(Now()), Now(), order, now)
    {
      var rows := state.rows;
      ghost var was, here := Now(), Here();
      var todo, step := regular, 0;
      ghost var order: seq<Path> := [];
      while todo != {}
        invariant todo <= regular && Ready() && Keeps(here, Here())
        invariant InTurn(rows, order, regular - todo)
        invariant forall j, k :: j in regular - todo && k in todo ==> !Sooner(rows, k, j)
        invariant drive.NeverFails() ==> EntriesRun(was, Now(), order, now)
        invariant 0 <= step
        decreases todo
      {
        if stop(step) { return true; }
        step := step + 1;
        var k := Soonest(rows, todo);
        ghost var mid, midHere := Now(), Here();
        SyncEntry(k, now);
        KeepsTwice(here, midHere, Here());
        if drive.NeverFails() {
          OneMoreEntry(was, mid, Now(), order, k, now);
        }
        OneLess(regular, todo, k);
        InTurnMore(rows, order, regular - todo, k);
        order, todo := order + [k], todo - {k};
      }
      stopped := false;
    }

    /** What is dirty and may be sent: pending deletes, and the rest. */
    method Scan() returns (tombstones: set<Path>, regular: set<Path>)
      ensures tombstones == PendingDeletes(state.rows, policy) && regular == Changes(state.rows, policy)
    {
      var rows := state.rows;
      var dirty := set k | k in rows && (rows[k].dirty || rows[k].tombstone) && AllowedToSync(k, rows[k]);
      tombstones := set k | k in dirty && rows[k].tombstone;
      regular := set k | k in dirty && !rows[k].tombstone;
    }

    /** Push every locally changed entry that lies within the boundary.  Whatever fails, no
        change is forgotten; if nothing fails and there are only additions, all of them
        arrive, each made once. */
    method SyncDirty(now: int, stop: nat -> bool)
      requires Ready()
      modifies mirror, state, drive, `rootKnown
      ensures PassSafe(old(Here()), Here())
      ensures drive.NeverFails() && (forall n :: !stop(n)) ==>
                && PassRun(old(Now()), Now(), policy, permanently, now)
                && Delivers(old(Now()), Now(), old(Here()), Here())
    {
      ghost var was, here := Now(), Here();
      var tombstones, regular := Scan();
      var stopped := SyncTombstones(tombstones, stop);
      ghost var mid := Here();
      assert Keeps(mid, mid);
      if !stopped {
        LiveStay(here, mid, regular);
        stopped := SyncRegular(regular, now, stop);
      }
      DeletesThenUploads(here, mid, Here());
      if drive.NeverFails() && !stopped {
        Arrived(was, Now(), here, Here(), now);
      }
    }

    /** A pending delete inside the boundary, judged by the path iCloud knows the item under, that has
        something to do on iCloud or never had. */
    ghost predicate MustDelete(s: Stand, k: Path) {
      && k in s.db.rows && s.db.rows[k].tombstone && Allows(policy, Coalesce(s.db.rows[k].syncedPath, k))
      && (s.db.rows[k].remoteId.Some? ==> s.db.rows[k].remoteId.value in s.items)
    }

    /** The row is gone, its own or an ancestor's delete reported done; or the delete of an item around
        its item was. */
    ghost predicate Deleted(s: Stand, a: Moment, b: Moment, k: Path) {
      || (k !in b.db.rows && exists d :: Gone(a, b, d) && Within(k, d))
      || TakenAlong(s, k, PendingDeletes(s.db.rows, policy), permanently)
    }

    /** A changed file inside the boundary, where it is and where iCloud knows it, that can be uploaded. */
    ghost predicate MaySend(s: Stand, q: Path) {
      && Uploadable(s, q) && Allows(policy, q)
      && (s.db.rows[q].syncedPath.Some? ==> Allows(policy, s.db.rows[q].syncedPath.value))
    }

    /** What arrives in a pass that nothing stops and no call of which fails. */
    ghost predicate Delivers(s: Stand, s': Stand, a: Moment, b: Moment) {
      && (forall k :: MustDelete(s, k) ==> Deleted(s, a, b, k))
      && (forall q :: MaySend(s, q) && CanArrive(s, PendingDeletes(s.db.rows, policy), permanently, q) ==>
            UploadedSince(a, b, q))
      && (Additive(s) && (forall k :: k in Dirty(s.db.rows) ==> Allows(policy, k)) ==>
            && Additive(s') && Grew(s, s') && Dirty(s'.db.rows) == {}
            && s'.nextId == s.nextId + |Dirty(s.db.rows)|)
    }

    lemma Arrived(s: Stand, s': Stand, a: Moment, b: Moment, now: int)
      requires PassRun(s, s', policy, permanently, now) && PassSafe(a, b) && Orderly(s.db.rows)
      requires a.db == s.db && a.disk == s.disk && b.db == s'.db && b.disk == s'.disk
      ensures Delivers(s, s', a, b)
    {
      forall k | MustDelete(s, k) ensures Deleted(s, a, b, k) {
        DeletesArrive(s, s', policy, permanently, now, k);
        assert Tomb(a.db, k);
      }
      forall q | MaySend(s, q) && CanArrive(s, PendingDeletes(s.db.rows, policy), permanently, q)
        ensures UploadedSince(a, b, q)
      {
        UploadsArrive(s, s', policy, permanently, now, q);
      }
      if Additive(s) && forall k :: k in Dirty(s.db.rows) ==> Allows(policy, k) {
        AdditivePass(s, s', policy, permanently, now);
      }
    }

    lemma LiveStay(a: Moment, b: Moment, live: set<Path>)
      requires DeleteStep(a, b) && forall k :: k in live ==> k in a.db.rows && !a.db.rows[k].tombstone
      ensures live <= b.db.rows.Keys
    {
    }
  }
}
