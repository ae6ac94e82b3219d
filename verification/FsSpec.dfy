/** What every mutation of the mounted filesystem does to the rows, the queued operations
    and the mirror, branch by branch. */
module FsSpec {
  import opened Paths
  import opened Tables
  import opened Files
  import opened Names
  import opened Policy

  datatype World = World(db: Db, disk: Disk)

  datatype Config = Config(readOnly: bool, authenticated: bool, policy: SyncPolicy)

  /** What a call learns from outside: the clock, the random markers, and the bytes iCloud
      sends when the file has to be downloaded first (`None` when the download fails). */
  datatype Env = Env(now: int, mark: Path -> string, fetched: Option<Bytes>)

  datatype Outcome = Outcome(world: World, error: Option<Errno>)

  function Fail(w: World, e: Errno): Outcome {
    Outcome(w, Some(e))
  }

  function Done(w: World): Outcome {
    Outcome(w, None)
  }

  // ---- the coupling -----------------------------------------------------------

  predicate Live(rows: Rows, p: Path) {
    p in rows && !rows[p].tombstone
  }

  function LiveRow(rows: Rows, p: Path): Option<Row> {
    if Live(rows, p) then Some(rows[p]) else None
  }

  /** The mirror has a file or folder at `p` exactly when a live row of that kind is at `p`. */
  ghost predicate Coupled(w: World) {
    && Tree(w.disk)
    && ROOT !in w.db.rows
    && (forall p :: Live(w.db.rows, p) ==>
          && !Reserved(p) && p in w.disk && (IsDir(w.db.rows[p].kind) <==> w.disk[p].Dir?))
    && (forall p :: p in w.disk && p != ROOT && !Reserved(p) ==> Live(w.db.rows, p))
  }

  // ---- checks -----------------------------------------------------------------

  function CheckMutation(cfg: Config, p: Path): Option<Errno> {
    if cfg.readOnly then Some(EROFS)
    else if !cfg.authenticated then Some(EACCES)
    else if Reserved(p) || !Allows(cfg.policy, p) then Some(EACCES)
    else None
  }

  function CheckName(p: Path): Option<Errno> {
    if p == ROOT then Some(EINVAL) else if IsValidName(Last(p)) then None else Some(ENAMETOOLONG)
  }

  function RequireParentDir(d: Disk, p: Path): Option<Errno> {
    if Parent(p) == ROOT || IsFolder(d, Parent(p)) then None
    else if Parent(p) in d then Some(ENOTDIR)
    else Some(ENOENT)
  }

  function CheckCreation(cfg: Config, w: World, p: Path): Option<Errno> {
    if CheckMutation(cfg, p).Some? then CheckMutation(cfg, p)
    else if CheckName(p).Some? then CheckName(p)
    else RequireParentDir(w.disk, p)
  }

  // ---- creating ---------------------------------------------------------------

  function Create(cfg: Config, w: World, p: Path, env: Env): Outcome {
    var refused := CheckCreation(cfg, w, p);
    if refused.Some? then Fail(w, refused.value)
    else if Live(w.db.rows, p) then Fail(w, EEXIST)
    else
      var rows := BuryTombstone(w.db.rows, p, env.mark(p));
      match CreateFile(w.disk, p, env.now)
      case Err(e) => Fail(w.(db := w.db.(rows := rows)), e)
      case Ok(d) =>
        var mtime := if IsFile(d, p) then d[p].mtime else env.now;
        Done(World(w.db.(rows := rows[p := LocalRow(p, File, mtime)],
                         ops := QueueOp(w.db.ops, CreateOp, p, None)), d))
  }

  function Mkdir(cfg: Config, w: World, p: Path, env: Env): Outcome {
    var refused := CheckCreation(cfg, w, p);
    if refused.Some? then Fail(w, refused.value)
    else if Live(w.db.rows, p) || p in w.disk then Fail(w, EEXIST)
    else
      var rows := BuryTombstone(w.db.rows, p, env.mark(p));
      match EnsureDir(w.disk, p)
      case Err(e) => Fail(w.(db := w.db.(rows := rows)), e)
      case Ok(d) =>
        Done(World(w.db.(rows := rows[p := LocalRow(p, Folder, env.now)],
                         ops := QueueOp(w.db.ops, MkdirOp, p, None)), d))
  }

  // ---- contents ---------------------------------------------------------------

  predicate NeedsWork(w: World, p: Path)
    requires p in w.db.rows
  {
    w.db.rows[p].kind == File && !w.db.rows[p].tombstone && !(w.db.rows[p].hydrated && p in w.disk)
  }

  /** One download attempt with nobody interfering: the bytes are kept unless the path has a
      queued content operation. */
  function FetchContent(w: World, p: Path, fetched: Option<Bytes>): Outcome
    requires p in w.db.rows
  {
    var row := w.db.rows[p];
    if !NeedsWork(w, p) then Done(w)
    else if fetched.None? then Fail(w, EIO)
    else if PendingContent(w.db.ops, p) then Done(w)
    else
      match Commit(w.disk, p, fetched.value, row.mtime)
      case Err(_) => Fail(w, EIO)
      case Ok(d) =>
        Done(World(w.db.(rows := MarkHydrated(w.db.rows, p, |fetched.value|, ClampTime(row.mtime))), d))
  }

  /** The same for any file inside the boundary; one made here is whatever the mirror has. */
  function EnsureLocal(w: World, p: Path, fetched: Option<Bytes>, now: int): Outcome
    requires p in w.db.rows
  {
    if NeedsWork(w, p) && w.db.rows[p].remoteId.None? then
      match CreateFile(w.disk, p, now)
      case Err(_) => Fail(w, EIO)
      case Ok(d) => Done(World(w.db.(rows := MarkHydrated(w.db.rows, p, |d[p].bytes|, d[p].mtime)), d))
    else FetchContent(w, p, fetched)
  }

  const MAX_HYDRATE_ATTEMPTS := 3

  /** Retry while a file iCloud has keeps not becoming local. */
  function Hydrate(w: World, p: Path, fetched: Option<Bytes>, attempts: nat): Outcome
    requires p in w.db.rows && w.db.rows[p].remoteId.Some?
  {
    if attempts == 0 then Fail(w, EIO)
    else
      var o := FetchContent(w, p, fetched);
      if o.error.Some? then o
      else
        var row := o.world.db.rows[p];
        if row.kind == File && !row.tombstone && !row.hydrated then Hydrate(o.world, p, fetched, attempts - 1) else o
  }

  /** Make sure a file's bytes are in the mirror before they are modified. */
  function EnsureContent(cfg: Config, w: World, p: Path, env: Env): Outcome
    requires p in w.db.rows
  {
    var row := w.db.rows[p];
    if row.hydrated || row.remoteId.None? then Done(w)
    else if !cfg.authenticated then Fail(w, EIO)
    else if !Allows(cfg.policy, p) then Fail(w, EACCES)
    else Hydrate(w, p, env.fetched, MAX_HYDRATE_ATTEMPTS)
  }

  function RecordContentChange(w: World, p: Path, known: bool, env: Env): World {
    if !IsFile(w.disk, p) then w
    else
      var size, mtime := |w.disk[p].bytes|, w.disk[p].mtime;
      var rows := if known then MarkDirty(w.db.rows, p, Some(size), Some(mtime), Some(true))
                  else w.db.rows[p := LocalRow(p, File, mtime).(size := size)];
      w.(db := w.db.(rows := rows, ops := QueueOp(w.db.ops, UpdateOp, p, None)))
  }

  /** The common part of `write` and `truncate`. */
  function ChangeContent(cfg: Config, w: World, p: Path, env: Env, change: Disk -> Result<Disk>): Outcome {
    if CheckMutation(cfg, p).Some? then Fail(w, CheckMutation(cfg, p).value)
    else if Live(w.db.rows, p) && IsDir(w.db.rows[p].kind) then Fail(w, EISDIR)
    else
      var known := Live(w.db.rows, p);
      var o := if known then EnsureContent(cfg, w, p, env) else Done(w);
      if o.error.Some? then o
      else
        match change(o.world.disk)
        case Err(e) => Fail(o.world, e)
        case Ok(d) => Done(RecordContentChange(o.world.(disk := d), p, known, env))
  }

  function Write(cfg: Config, w: World, p: Path, offset: nat, data: Bytes, env: Env): Outcome {
    ChangeContent(cfg, w, p, env, (d: Disk) => WriteAt(d, p, offset, data, env.now))
  }

  function Truncate(cfg: Config, w: World, p: Path, len: nat, env: Env): Outcome {
    ChangeContent(cfg, w, p, env, (d: Disk) => Files.Truncate(d, p, len, env.now))
  }

  function SetMtime(cfg: Config, w: World, p: Path, mtime: int): Outcome {
    if CheckMutation(cfg, p).Some? then Fail(w, CheckMutation(cfg, p).value)
    else if p !in w.disk then Fail(w, ENOENT)
    else
      var rows := if Live(w.db.rows, p) then MarkDirty(w.db.rows, p, None, Some(mtime), None) else w.db.rows;
      Done(World(w.db.(rows := rows), Files.SetMtime(w.disk, p, mtime)))
  }

  // ---- removing and renaming ----------------------------------------------------

  /** The item is gone locally: delete it on iCloud too, or just forget it if iCloud never had it. */
  function Forget(db: Db, p: Path): Db
    requires p in db.rows
  {
    if db.rows[p].remoteId.Some? then
      db.(rows := MarkTombstone(db.rows, p), ops := QueueOp(db.ops, DeleteOp, p, None))
    else if IsDir(db.rows[p].kind) then RemoveSubtree(db, p)
    else RemoveEntry(db, p)
  }

  function Unlink(cfg: Config, w: World, p: Path): Outcome {
    if CheckMutation(cfg, p).Some? then Fail(w, CheckMutation(cfg, p).value)
    else if !Live(w.db.rows, p) then Fail(w, ENOENT)
    else if IsDir(w.db.rows[p].kind) then Fail(w, EISDIR)
    else if p !in w.disk then Done(w.(db := Forget(w.db, p)))
    else
      match RemoveFile(w.disk, p)
      case Err(e) => Fail(w, e)
      case Ok(d) => Done(World(Forget(w.db, p), d))
  }

  function Rmdir(cfg: Config, w: World, p: Path): Outcome {
    if CheckMutation(cfg, p).Some? then Fail(w, CheckMutation(cfg, p).value)
    else if p == ROOT then Fail(w, EBUSY)
    else if !Live(w.db.rows, p) then Fail(w, ENOENT)
    else if !IsDir(w.db.rows[p].kind) then Fail(w, ENOTDIR)
    else
      match RemoveDir(w.disk, p)
      case Err(e) => Fail(w, e)
      case Ok(d) => Done(World(Forget(w.db, p), d))
  }

  /** Every descendant must also stay inside the boundary at its new place. */
  predicate SubtreeBlocked(cfg: Config, rows: Rows, from: Path, to: Path) {
    exists k :: k in rows && Within(k, from) &&
      (CheckMutation(cfg, k).Some? || CheckMutation(cfg, Rebase(k, from, to)).Some?)
  }

  /** The error of `rename`, if it is refused before anything changes. */
  function CheckRename(cfg: Config, w: World, from: Path, to: Path): Option<Errno> {
    if CheckMutation(cfg, from).Some? then CheckMutation(cfg, from)
    else if CheckMutation(cfg, to).Some? then CheckMutation(cfg, to)
    else if CheckName(to).Some? then CheckName(to)
    else if from == to then None
    else if from == ROOT || to == ROOT then Some(EBUSY)
    else if !Live(w.db.rows, from) then Some(ENOENT)
    else
      var dir := IsDir(w.db.rows[from].kind);
      if dir && Within(to, from) then Some(EINVAL)
      else if RequireParentDir(w.disk, to).Some? then RequireParentDir(w.disk, to)
      else if dir && SubtreeBlocked(cfg, w.db.rows, from, to) then Some(EACCES)
      else if !Live(w.db.rows, to) then None
      else if !dir && IsDir(w.db.rows[to].kind) then Some(EISDIR)
      else if dir && !IsDir(w.db.rows[to].kind) then Some(ENOTDIR)
      else if dir && HasChild(w.disk, to) then Some(ENOTEMPTY)
      else None
  }

  /** The tree order makes an accepted rename one between unrelated paths. */
  lemma AcceptedRenameIsApart(cfg: Config, w: World, from: Path, to: Path)
    requires Coupled(w) && CheckRename(cfg, w, from, to).None? && from != to
    ensures Apart(from, to)
  {
    if Within(to, from) {
      AncestorsAreFolders(w.disk, Parent(to), from);
    }
    if Within(from, to) {
      AncestorsAreFolders(w.disk, from, to);
    }
  }

  ghost function Rename(cfg: Config, w: World, from: Path, to: Path, env: Env): Outcome
    requires Coupled(w)
    requires Apart(from, to) ==> FreshMarks(w.db.rows, from, to, env.mark)
  {
    var refused := CheckRename(cfg, w, from, to);
    if refused.Some? then Fail(w, refused.value)
    else if from == to then Done(w)
    else
      AcceptedRenameIsApart(cfg, w, from, to);
      var cleared := if Live(w.db.rows, to) then RemoveTree(w.disk, to) else w.disk;
      match RenameDisk(cleared, from, to)
      case Err(e) => Fail(w.(disk := cleared), e)
      case Ok(d) =>
        var db := RenameTree(w.db, from, to, true, false, env.mark);
        Done(World(db.(ops := QueueOp(db.ops, RenameOp, from, Some(to))), d))
  }

  // ---- calls and runs -------------------------------------------------------------

  datatype Call =
    | CreateCall(path: Path)
    | MkdirCall(path: Path)
    | WriteCall(path: Path, offset: nat, data: Bytes)
    | TruncateCall(path: Path, len: nat)
    | SetMtimeCall(path: Path, mtime: int)
    | UnlinkCall(path: Path)
    | RmdirCall(path: Path)
    | RenameCall(path: Path, to: Path)

  ghost predicate FreshEnv(w: World, call: Call, env: Env) {
    match call
    case CreateCall(p) => FreshGrave(w.db.rows, p, env.mark(p))
    case MkdirCall(p) => FreshGrave(w.db.rows, p, env.mark(p))
    case RenameCall(from, to) => Apart(from, to) ==> FreshMarks(w.db.rows, from, to, env.mark)
    case _ => true
  }

  ghost function Exec(cfg: Config, w: World, call: Call, env: Env): Outcome
    requires Coupled(w) && FreshEnv(w, call, env)
  {
    match call
    case CreateCall(p) => Create(cfg, w, p, env)
    case MkdirCall(p) => Mkdir(cfg, w, p, env)
    case WriteCall(p, offset, data) => Write(cfg, w, p, offset, data, env)
    case TruncateCall(p, len) => Truncate(cfg, w, p, len, env)
    case SetMtimeCall(p, mtime) => SetMtime(cfg, w, p, mtime)
    case UnlinkCall(p) => Unlink(cfg, w, p)
    case RmdirCall(p) => Rmdir(cfg, w, p)
    case RenameCall(from, to) => Rename(cfg, w, from, to, env)
  }
}
