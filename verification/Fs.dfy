/** Filesystem semantics over the mirror and the database: each mutation checks, then
    changes mirror files and state rows step by step.  The engine does not list folders on
    demand here (crawl mode `full`), so `list_if_lazy` does nothing. */
module Fs {
  import opened Paths
  import opened Tables
  import opened Files
  import opened Policy
  import opened State
  import opened FsSpec
  import opened FsPosix
  import M = Mirror

  class FsCore {
    const cfg: Config
    const mirror: M.Mirror
    const state: SyncState

    constructor (cfg: Config, mirror: M.Mirror, state: SyncState)
      ensures this.cfg == cfg && this.mirror == mirror && this.state == state
    {
      this.cfg, this.mirror, this.state := cfg, mirror, state;
    }

    ghost function Now(): World
      reads mirror, state
    {
      World(state.View(), mirror.disk)
    }

    method RefuseCreation(p: Path) returns (error: Option<Errno>)
      ensures error == CheckCreation(cfg, Now(), p)
    {
      error := CheckMutation(cfg, p);
      if error.Some? { return; }
      error := CheckName(p);
      if error.Some? { return; }
      error := RequireParentDir(mirror.disk, p);
    }

    /** A new empty file, a pending delete of its name out of the way first. */
    method AddFile(p: Path, env: Env) returns (error: Option<Errno>)
      requires Coupled(Now()) && FreshEnv(Now(), CreateCall(p), env)
      requires CheckCreation(cfg, Now(), p).None? && !Live(state.rows, p)
      modifies mirror, state
      ensures Outcome(Now(), error) == FsSpec.Create(cfg, old(Now()), p, env)
    {
      OpenParent(Now(), p);
      state.BuryTombstone(p, env.mark(p));
      error := mirror.CreateFile(p, env.now);
      if error.Some? { return; }
      var mtime := if IsFile(mirror.disk, p) then mirror.disk[p].mtime else env.now;
      state.UpsertEntry(p, LocalRow(p, File, mtime));
      state.QueueOp(CreateOp, p, None);
    }

    method Create(p: Path, env: Env) returns (error: Option<Errno>)
      requires Coupled(Now()) && FreshEnv(Now(), CreateCall(p), env)
      modifies mirror, state
      ensures Outcome(Now(), error) == Exec(cfg, old(Now()), CreateCall(p), env)
      ensures Refines(cfg, old(Now()), CreateCall(p), env, Outcome(Now(), error))
    {
      EveryCallRefines(cfg, Now(), CreateCall(p), env);
      error := RefuseCreation(p);
      if error.Some? { return; }
      if Live(state.rows, p) { return Some(EEXIST); }
      error := AddFile(p, env);
    }

    /** A new folder, likewise. */
    method AddFolder(p: Path, env: Env) returns (error: Option<Errno>)
      requires Coupled(Now()) && FreshEnv(Now(), MkdirCall(p), env)
      requires CheckCreation(cfg, Now(), p).None? && !Live(state.rows, p) && p !in mirror.disk
      modifies mirror, state
      ensures Outcome(Now(), error) == FsSpec.Mkdir(cfg, old(Now()), p, env)
    {
      state.BuryTombstone(p, env.mark(p));
      error := mirror.EnsureDir(p);
      if error.Some? { return; }
      state.UpsertEntry(p, LocalRow(p, Folder, env.now));
      state.QueueOp(MkdirOp, p, None);
    }

    method Mkdir(p: Path, env: Env) returns (error: Option<Errno>)
      requires Coupled(Now()) && FreshEnv(Now(), MkdirCall(p), env)
      modifies mirror, state
      ensures Outcome(Now(), error) == Exec(cfg, old(Now()), MkdirCall(p), env)
      ensures Refines(cfg, old(Now()), MkdirCall(p), env, Outcome(Now(), error))
    {
      EveryCallRefines(cfg, Now(), MkdirCall(p), env);
      error := RefuseCreation(p);
      if error.Some? { return; }
      if Live(state.rows, p) || p in mirror.disk { return Some(EEXIST); }
      error := AddFolder(p, env);
    }

    /** One download attempt. */
    method EnsureLocalFile(p: Path, fetched: Option<Bytes>, now: int) returns (error: Option<Errno>)
      requires Coupled(Now()) && Live(state.rows, p)
      modifies mirror, state
      ensures Outcome(Now(), error) == EnsureLocal(old(Now()), p, fetched, now)
      ensures Coupled(Now()) && Live(state.rows, p)
    {
      var row := state.rows[p];
      if row.kind != File || row.tombstone || (row.hydrated && p in mirror.disk) { return None; }
      CoupledAt(Now(), p);
      ExistingFolder(mirror.disk, Parent(p));
      if row.remoteId.None? {
        // Created here, never on iCloud: whatever is in the mirror is the file.
        LocalFileIsTheFile(Now(), p, now);
        error := mirror.CreateFile(p, now);
        if error.Some? { return Some(EIO); }
        state.MarkHydrated(p, |mirror.disk[p].bytes|, mirror.disk[p].mtime);
        return;
      }
      if fetched.None? { return Some(EIO); }
      if PendingContent(state.ops, p) { return None; }
      RewritingRefines(Now(), p, MarkHydrated(state.rows, p, |fetched.value|, ClampTime(row.mtime)), state.ops,
                       fetched.value, ClampTime(row.mtime));
      error := mirror.Commit(p, fetched.value, row.mtime);
      if error.Some? { return Some(EIO); }
      state.MarkHydrated(p, |fetched.value|, ClampTime(row.mtime));
    }

    /** One round of the retry loop: over, or one attempt fewer left. */
    method HydrateOnce(p: Path, fetched: Option<Bytes>, now: int, ghost left: nat, ghost goal: Outcome)
      returns (over: bool, error: Option<Errno>)
      requires Coupled(Now()) && Live(state.rows, p) && state.rows[p].remoteId.Some?
      requires Hydrate(Now(), p, fetched, left + 1) == goal
      modifies mirror, state
      ensures Coupled(Now()) && Live(state.rows, p) && state.rows[p].remoteId.Some?
      ensures if over then Outcome(Now(), error) == goal else Hydrate(Now(), p, fetched, left) == goal
    {
      error := EnsureLocalFile(p, fetched, now);
      var row := state.rows[p];
      over := error.Some? || row.kind != File || row.tombstone || row.hydrated;
    }

    /** Retry while the file keeps not becoming local. */
    method HydrateFile(p: Path, fetched: Option<Bytes>, now: int) returns (error: Option<Errno>)
      requires Coupled(Now()) && Live(state.rows, p) && state.rows[p].remoteId.Some?
      modifies mirror, state
      ensures Outcome(Now(), error) == Hydrate(old(Now()), p, fetched, MAX_HYDRATE_ATTEMPTS)
      ensures Coupled(Now()) && Live(state.rows, p)
    {
      var attempts := MAX_HYDRATE_ATTEMPTS;
      ghost var goal := Hydrate(Now(), p, fetched, attempts);
      while attempts > 0
        invariant 0 <= attempts <= MAX_HYDRATE_ATTEMPTS
        invariant Coupled(Now()) && Live(state.rows, p) && state.rows[p].remoteId.Some?
        invariant Hydrate(Now(), p, fetched, attempts) == goal
      {
        var over;
        attempts := attempts - 1;
        over, error := HydrateOnce(p, fetched, now, attempts, goal);
        if over { return; }
      }
      error := Some(EIO);
    }

    method MakeContentReady(p: Path, env: Env) returns (error: Option<Errno>)
      requires Coupled(Now()) && Live(state.rows, p)
      modifies mirror, state
      ensures Outcome(Now(), error) == EnsureContent(cfg, old(Now()), p, env)
      ensures Coupled(Now()) && Live(state.rows, p)
    {
      var row := state.rows[p];
      if row.hydrated || row.remoteId.None? { return None; }
      if !cfg.authenticated { return Some(EIO); }
      if !Allows(cfg.policy, p) { return Some(EACCES); }
      error := HydrateFile(p, env.fetched, env.now);
    }

    /** The bytes of `p` changed: note it for the uploader. */
    method NoteContentChange(p: Path, known: bool, env: Env)
      modifies state
      ensures Now() == RecordContentChange(old(Now()), p, known, env)
    {
      if !IsFile(mirror.disk, p) { return; }
      var size, mtime := |mirror.disk[p].bytes|, mirror.disk[p].mtime;
      if known {
        state.MarkDirty(p, Some(size), Some(mtime), Some(true));
      } else {
        state.UpsertEntry(p, LocalRow(p, File, mtime).(size := size));
      }
      state.QueueOp(UpdateOp, p, None);
    }

    method Write(p: Path, offset: nat, data: Bytes, env: Env) returns (error: Option<Errno>)
      requires Coupled(Now())
      modifies mirror, state
      ensures Outcome(Now(), error) == Exec(cfg, old(Now()), WriteCall(p, offset, data), env)
      ensures old(Live(state.rows, p)) ==>
                Refines(cfg, old(Now()), WriteCall(p, offset, data), env, Outcome(Now(), error))
    {
      if Live(state.rows, p) {
        EveryCallRefines(cfg, Now(), WriteCall(p, offset, data), env);
      }
      error := CheckMutation(cfg, p);
      if error.Some? { return; }
      var known := Live(state.rows, p);
      if known {
        if IsDir(state.rows[p].kind) { return Some(EISDIR); }
        error := MakeContentReady(p, env);
        if error.Some? { return; }
      }
      error := mirror.WriteAt(p, offset, data, env.now);
      if error.Some? { return; }
      NoteContentChange(p, known, env);
    }

    method Truncate(p: Path, len: nat, env: Env) returns (error: Option<Errno>)
      requires Coupled(Now())
      modifies mirror, state
      ensures Outcome(Now(), error) == Exec(cfg, old(Now()), TruncateCall(p, len), env)
      ensures old(Live(state.rows, p)) ==>
                Refines(cfg, old(Now()), TruncateCall(p, len), env, Outcome(Now(), error))
    {
      if Live(state.rows, p) {
        EveryCallRefines(cfg, Now(), TruncateCall(p, len), env);
      }
      error := CheckMutation(cfg, p);
      if error.Some? { return; }
      var known := Live(state.rows, p);
      if known {
        if IsDir(state.rows[p].kind) { return Some(EISDIR); }
        error := MakeContentReady(p, env);
        if error.Some? { return; }
      }
      error := mirror.Truncate(p, len, env.now);
      if error.Some? { return; }
      NoteContentChange(p, known, env);
    }

    method SetMtime(p: Path, mtime: int, env: Env) returns (error: Option<Errno>)
      requires Coupled(Now())
      modifies mirror, state
      ensures Outcome(Now(), error) == Exec(cfg, old(Now()), SetMtimeCall(p, mtime), env)
      ensures Refines(cfg, old(Now()), SetMtimeCall(p, mtime), env, Outcome(Now(), error))
    {
      EveryCallRefines(cfg, Now(), SetMtimeCall(p, mtime), env);
      error := CheckMutation(cfg, p);
      if error.Some? { return; }
      if p !in mirror.disk { return Some(ENOENT); }
      mirror.SetMtime(p, mtime);
      if Live(state.rows, p) {
        state.MarkDirty(p, None, Some(mtime), None);
      }
    }

    /** The item is gone locally: delete it on iCloud too, or forget it if iCloud never had it. */
    method ForgetItem(p: Path)
      requires p in state.rows
      modifies state
      ensures state.View() == Forget(old(state.View()), p)
    {
      var row := state.rows[p];
      if row.remoteId.Some? {
        state.MarkTombstone(p);
        state.QueueOp(DeleteOp, p, None);
      } else if IsDir(row.kind) {
        state.RemoveSubtree(p);
      } else {
        state.RemoveEntry(p);
      }
    }

    method Unlink(p: Path, env: Env) returns (error: Option<Errno>)
      requires Coupled(Now())
      modifies mirror, state
      ensures Outcome(Now(), error) == Exec(cfg, old(Now()), UnlinkCall(p), env)
      ensures Refines(cfg, old(Now()), UnlinkCall(p), env, Outcome(Now(), error))
    {
      EveryCallRefines(cfg, Now(), UnlinkCall(p), env);
      error := CheckMutation(cfg, p);
      if error.Some? { return; }
      if !Live(state.rows, p) { return Some(ENOENT); }
      if IsDir(state.rows[p].kind) { return Some(EISDIR); }
      if p in mirror.disk {
        error := mirror.RemoveFile(p);
        if error.Some? { return; }
      }
      ForgetItem(p);
    }

    method Rmdir(p: Path, env: Env) returns (error: Option<Errno>)
      requires Coupled(Now())
      modifies mirror, state
      ensures Outcome(Now(), error) == Exec(cfg, old(Now()), RmdirCall(p), env)
      ensures Refines(cfg, old(Now()), RmdirCall(p), env, Outcome(Now(), error))
    {
      EveryCallRefines(cfg, Now(), RmdirCall(p), env);
      error := CheckMutation(cfg, p);
      if error.Some? { return; }
      if p == ROOT { return Some(EBUSY); }
      if !Live(state.rows, p) { return Some(ENOENT); }
      if !IsDir(state.rows[p].kind) { return Some(ENOTDIR); }
      error := mirror.RemoveDir(p);
      if error.Some? { return; }
      ForgetItem(p);
    }

    /** Does every row below `from` stay inside the boundary at its new place? */
    method SubtreeMayMove(from: Path, to: Path) returns (ok: bool)
      ensures ok <==> !SubtreeBlocked(cfg, state.rows, from, to)
    {
      var subtree := Subtree(state.rows, from);
      var todo := subtree;
      while todo != {}
        invariant todo <= subtree
        invariant forall k :: k in subtree - todo ==>
                    CheckMutation(cfg, k).None? && CheckMutation(cfg, Rebase(k, from, to)).None?
        decreases todo
      {
        var k :| k in todo;
        if CheckMutation(cfg, k).Some? || CheckMutation(cfg, Rebase(k, from, to)).Some? {
          return false;
        }
        todo := todo - {k};
      }
      return true;
    }

    method RefuseRename(from: Path, to: Path) returns (error: Option<Errno>)
      ensures error == CheckRename(cfg, Now(), from, to)
    {
      error := CheckMutation(cfg, from);
      if error.Some? { return; }
      error := CheckMutation(cfg, to);
      if error.Some? { return; }
      error := CheckName(to);
      if error.Some? { return; }
      if from == to { return None; }
      if from == ROOT || to == ROOT { return Some(EBUSY); }
      if !Live(state.rows, from) { return Some(ENOENT); }
      var dir := IsDir(state.rows[from].kind);
      if dir && Within(to, from) { return Some(EINVAL); }
      error := RequireParentDir(mirror.disk, to);
      if error.Some? { return; }
      if dir {
        var ok := SubtreeMayMove(from, to);
        if !ok { return Some(EACCES); }
      }
      if Live(state.rows, to) {
        if !dir && IsDir(state.rows[to].kind) { return Some(EISDIR); }
        if dir && !IsDir(state.rows[to].kind) { return Some(ENOTDIR); }
        if dir && HasChild(mirror.disk, to) { return Some(ENOTEMPTY); }
      }
      return None;
    }

    /** The move itself: mirror, rows and queued operations. */
    method Move(from: Path, to: Path, env: Env) returns (error: Option<Errno>)
      requires Coupled(Now()) && FreshEnv(Now(), RenameCall(from, to), env)
      requires CheckRename(cfg, Now(), from, to).None? && from != to
      modifies mirror, state
      ensures Outcome(Now(), error) == FsSpec.Rename(cfg, old(Now()), from, to, env)
    {
      AcceptedRename(cfg, Now(), from, to, env);
      RenameVerdict(cfg, Now(), from, to);
      AcceptedRenameOnDisk(Now(), from, to);
      if Live(state.rows, to) {
        mirror.RemoveTree(to);
      }
      error := mirror.Rename(from, to);
      if error.Some? { return; }
      state.RenameTree(from, to, true, false, env.mark);
      state.QueueOp(RenameOp, from, Some(to));
    }

    method Rename(from: Path, to: Path, env: Env) returns (error: Option<Errno>)
      requires Coupled(Now()) && FreshEnv(Now(), RenameCall(from, to), env)
      modifies mirror, state
      ensures Outcome(Now(), error) == Exec(cfg, old(Now()), RenameCall(from, to), env)
      ensures Refines(cfg, old(Now()), RenameCall(from, to), env, Outcome(Now(), error))
    {
      EveryCallRefines(cfg, Now(), RenameCall(from, to), env);
      error := RefuseRename(from, to);
      if error.Some? || from == to { return; }
      error := Move(from, to, env);
    }
  }
}
