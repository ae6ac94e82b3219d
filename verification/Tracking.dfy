/** The rows keep track of the mirror: over every run of filesystem calls each file that can be read
    either has the bytes iCloud has or asks to be uploaded, its row says its size and time, and
    whatever is not where iCloud knows it is in something that asks to be moved. */
module Tracking {
  import opened Paths
  import opened Rekeying
  import opened Tables
  import opened Files
  import opened FsSpec
  import opened FsPosix
  import opened StateLaws
  import DR = DownloadRace

  /** The content iCloud has for each item; nobody changes it there meanwhile. */
  type Contents = string -> Bytes

  /** A file whose content is here: the row says its size and time, and that it has to be uploaded
      unless its bytes are those iCloud has. */
  ghost predicate TrackedAt(w: World, icloud: Contents, p: Path) {
    Live(w.db.rows, p) && !IsDir(w.db.rows[p].kind) && w.db.rows[p].hydrated ==>
      && IsFile(w.disk, p) && w.db.rows[p].size == |w.disk[p].bytes|
      && ClampTime(w.db.rows[p].mtime) == ClampTime(w.disk[p].mtime)
      && (AsksForUpload(w.db, p)
          || (w.db.rows[p].remoteId.Some? && w.disk[p].bytes == icloud(w.db.rows[p].remoteId.value)))
  }

  /** What iCloud knows under another path is at or below a changed row, and pending deletes are
      changed rows. */
  ghost predicate MoveAsked(w: World, p: Path) {
    Live(w.db.rows, p) && w.db.rows[p].syncedPath.Some? && w.db.rows[p].syncedPath.value != p ==>
      exists g :: g in w.db.rows && w.db.rows[g].dirty && Within(p, g)
  }

  ghost predicate Tracked(w: World, icloud: Contents) {
    && Coupled(w) && Untargeted(w.db.ops)
    && (forall p :: TrackedAt(w, icloud, p)) && (forall p :: MoveAsked(w, p))
    && (forall p :: p in w.db.rows && w.db.rows[p].tombstone ==> w.db.rows[p].dirty)
  }

  /** What is downloaded for the call is what iCloud has. */
  predicate FetchedRight(w: World, call: Call, env: Env, icloud: Contents) {
    env.fetched.Some? && Live(w.db.rows, call.path) && w.db.rows[call.path].remoteId.Some? ==>
      env.fetched.value == icloud(w.db.rows[call.path].remoteId.value)
  }

  // ---- calls that change one row ------------------------------------------------------------------

  /** Nothing but `p` changed, as far as live rows, files and content operations go. */
  ghost predicate OnlyAt(w: World, w': World, p: Path) {
    && (forall q :: q != p ==> LiveRow(w'.db.rows, q) == LiveRow(w.db.rows, q))
    && (forall q :: q != p ==> (q in w.disk <==> q in w'.disk) && (q in w.disk ==> w'.disk[q] == w.disk[q]))
    && (forall q :: q != p && Live(w'.db.rows, q) && PendingContent(w.db.ops, q) ==> PendingContent(w'.db.ops, q))
  }

  lemma OthersTracked(w: World, w': World, icloud: Contents, p: Path)
    requires OnlyAt(w, w', p) && (forall q :: TrackedAt(w, icloud, q)) && TrackedAt(w', icloud, p)
    ensures forall q :: TrackedAt(w', icloud, q)
  {
    forall q ensures TrackedAt(w', icloud, q) {
      if q != p {
        assert LiveRow(w'.db.rows, q) == LiveRow(w.db.rows, q) && TrackedAt(w, icloud, q);
      }
    }
  }

  /** No row stops being changed while a live one lies below it. */
  ghost predicate DirtStays(w: World, w': World, p: Path) {
    && (forall g, q :: g in w.db.rows && w.db.rows[g].dirty && Within(q, g) && Live(w'.db.rows, q) ==>
          g in w'.db.rows && w'.db.rows[g].dirty)
    && (Live(w'.db.rows, p) ==>
          w'.db.rows[p].syncedPath == None
          || (Live(w.db.rows, p) && w'.db.rows[p].syncedPath == w.db.rows[p].syncedPath))
  }

  lemma OthersAsked(w: World, w': World, p: Path)
    requires OnlyAt(w, w', p) && DirtStays(w, w', p) && forall q :: MoveAsked(w, q)
    ensures forall q :: MoveAsked(w', q)
  {
    forall q ensures MoveAsked(w', q) {
      assert MoveAsked(w, q);
      if q != p {
        assert LiveRow(w'.db.rows, q) == LiveRow(w.db.rows, q);
      }
      if Live(w'.db.rows, q) && w'.db.rows[q].syncedPath.Some? && w'.db.rows[q].syncedPath.value != q {
        var g :| g in w.db.rows && w.db.rows[g].dirty && Within(q, g);
        assert g in w'.db.rows && w'.db.rows[g].dirty;
      }
    }
  }

  lemma OneRowTracked(w: World, w': World, icloud: Contents, p: Path)
    requires Tracked(w, icloud) && Coupled(w') && Untargeted(w'.db.ops)
    requires OnlyAt(w, w', p) && DirtStays(w, w', p) && TrackedAt(w', icloud, p)
    requires forall q :: q in w'.db.rows && w'.db.rows[q].tombstone ==> w'.db.rows[q].dirty
    ensures Tracked(w', icloud)
  {
    OthersTracked(w, w', icloud, p);
    OthersAsked(w, w', p);
  }

  lemma AddedTracked(w: World, w': World, icloud: Contents, p: Path, mark: string, row: Row, node: Inode, kind: OpKind)
    requires Tracked(w, icloud) && FreshGrave(w.db.rows, p, mark) && Coupled(w') && !Live(w.db.rows, p)
    requires row.syncedPath.None? && !row.tombstone && row.dirty && row.remoteId.None? && kind in {CreateOp, MkdirOp}
    requires node.Data? && row.hydrated ==> row.size == |node.bytes| && ClampTime(row.mtime) == ClampTime(node.mtime)
    requires !IsDir(row.kind) ==> node.Data?
    requires w' == World(w.db.(rows := BuryTombstone(w.db.rows, p, mark)[p := row],
                               ops := QueueOp(w.db.ops, kind, p, None)), w.disk[p := node])
    ensures Tracked(w', icloud)
  {
    forall q | q != p ensures LiveRow(w'.db.rows, q) == LiveRow(w.db.rows, q) {
    }
    forall q | q != p && PendingContent(w.db.ops, q) ensures PendingContent(w'.db.ops, q) {
      DR.QueueKeeps(w.db.ops, kind, p, None, q);
    }
    DR.QueueKeeps(w.db.ops, kind, p, None, p);
    OneRowTracked(w, w', icloud, p);
  }

  lemma CreateTracked(cfg: Config, w: World, p: Path, env: Env, icloud: Contents)
    requires Tracked(w, icloud) && FreshEnv(w, CreateCall(p), env) && Create(cfg, w, p, env).error.None?
    ensures Tracked(Create(cfg, w, p, env).world, icloud)
  {
    CreateRefines(cfg, w, p, env);
    ParentNotReservedFolder(w, p);
    CoupledAt(w, p);
    OpenParent(w, p);
    assert CreateFile(w.disk, p, env.now) == Ok(w.disk[p := Data([], env.now)]);
    AddedTracked(w, Create(cfg, w, p, env).world, icloud, p, env.mark(p), LocalRow(p, File, env.now),
                 Data([], env.now), CreateOp);
  }

  lemma MkdirTracked(cfg: Config, w: World, p: Path, env: Env, icloud: Contents)
    requires Tracked(w, icloud) && FreshEnv(w, MkdirCall(p), env) && Mkdir(cfg, w, p, env).error.None?
    ensures Tracked(Mkdir(cfg, w, p, env).world, icloud)
  {
    MkdirRefines(cfg, w, p, env);
    ParentNotReservedFolder(w, p);
    CoupledAt(w, p);
    NewFolder(w.disk, p);
    AddedTracked(w, Mkdir(cfg, w, p, env).world, icloud, p, env.mark(p), LocalRow(p, Folder, env.now), Dir, MkdirOp);
  }

  // ---- content -------------------------------------------------------------------------------------

  /** A live file got content: its row says so. */
  lemma RewrittenTracked(w: World, w': World, icloud: Contents, p: Path, r: Row)
    requires Tracked(w, icloud) && Coupled(w') && Untargeted(w'.db.ops) && Live(w.db.rows, p) && !r.tombstone
    requires w'.db.rows == w.db.rows[p := r] && r.syncedPath == w.db.rows[p].syncedPath
    requires w.db.rows[p].dirty ==> r.dirty
    requires forall q :: q != p ==> (q in w.disk <==> q in w'.disk) && (q in w.disk ==> w'.disk[q] == w.disk[q])
    requires forall q :: q != p && PendingContent(w.db.ops, q) ==> PendingContent(w'.db.ops, q)
    requires TrackedAt(w', icloud, p)
    ensures Tracked(w', icloud)
  {
    OneRowTracked(w, w', icloud, p);
  }

  /** Downloading first: the content is then what iCloud has. */
  lemma ReadyTracked(cfg: Config, w: World, p: Path, env: Env, icloud: Contents)
    requires Tracked(w, icloud) && Live(w.db.rows, p) && !IsDir(w.db.rows[p].kind) && CheckMutation(cfg, p).None?
    requires env.fetched.Some? && w.db.rows[p].remoteId.Some? ==>
               env.fetched.value == icloud(w.db.rows[p].remoteId.value)
    ensures var o := EnsureContent(cfg, w, p, env); o.error.None? ==> Tracked(o.world, icloud)
  {
    ContentOutcome(cfg, w, p, env);
    if !MustFetch(w, p) {
      ContentIsLocal(cfg, w, p, env);
    } else {
      ContentIsFetched(cfg, w, p, env);
      DownloadOutcome(w, p, env.fetched);
      if env.fetched.Some? && !PendingContent(w.db.ops, p) {
        var w' := EnsureContent(cfg, w, p, env).world;
        RewrittenTracked(w, w', icloud, p, w'.db.rows[p]);
      }
    }
  }

  lemma RecordedTracked(w: World, icloud: Contents, p: Path, bytes: Bytes, now: int)
    requires Tracked(w, icloud) && Live(w.db.rows, p) && IsFile(w.disk, p)
    ensures Tracked(Recorded(w, p, bytes, now), icloud)
  {
    var w' := Recorded(w, p, bytes, now);
    RecordedKeepsCoupling(w, p, bytes, now);
    UpdateQueued(w.db.ops, p);
    forall q ensures PendingContent(w.db.ops, q) ==> PendingContent(w'.db.ops, q) {
      DR.QueueKeeps(w.db.ops, UpdateOp, p, None, q);
    }
    DR.QueueKeeps(w.db.ops, UpdateOp, p, None, p);
    RewrittenTracked(w, w', icloud, p, w'.db.rows[p]);
  }

  lemma ChangeTracked(cfg: Config, w: World, p: Path, env: Env, icloud: Contents, change: Disk -> Result<Disk>,
                      edit: Bytes -> Bytes)
    requires Tracked(w, icloud) && Live(w.db.rows, p) && !IsDir(w.db.rows[p].kind) && CheckMutation(cfg, p).None?
    requires env.fetched.Some? && w.db.rows[p].remoteId.Some? ==>
               env.fetched.value == icloud(w.db.rows[p].remoteId.value)
    requires forall d :: change(d) == Rewrite(d, p, edit, env.now)
    requires EnsureContent(cfg, w, p, env).error.None?
    ensures Tracked(ChangeContent(cfg, w, p, env, change).world, icloud)
  {
    ContentOutcome(cfg, w, p, env);
    ReadyTracked(cfg, w, p, env, icloud);
    var w1 := EnsureContent(cfg, w, p, env).world;
    ChangeUnfolds(cfg, w, w1, p, env, change, edit);
    RecordedTracked(w1, icloud, p, edit(w1.disk[p].bytes), env.now);
  }

  lemma WriteTracked(cfg: Config, w: World, p: Path, offset: nat, data: Bytes, env: Env, icloud: Contents)
    requires Tracked(w, icloud) && Live(w.db.rows, p) && FetchedRight(w, WriteCall(p, offset, data), env, icloud)
    requires Write(cfg, w, p, offset, data, env).error.None?
    ensures Tracked(Write(cfg, w, p, offset, data, env).world, icloud)
  {
    ChangeTracked(cfg, w, p, env, icloud, (d: Disk) => WriteAt(d, p, offset, data, env.now),
                  (b: Bytes) => Overlay(b, offset, data));
  }

  lemma TruncateTracked(cfg: Config, w: World, p: Path, len: nat, env: Env, icloud: Contents)
    requires Tracked(w, icloud) && Live(w.db.rows, p) && FetchedRight(w, TruncateCall(p, len), env, icloud)
    requires FsSpec.Truncate(cfg, w, p, len, env).error.None?
    ensures Tracked(FsSpec.Truncate(cfg, w, p, len, env).world, icloud)
  {
    ChangeTracked(cfg, w, p, env, icloud, (d: Disk) => Files.Truncate(d, p, len, env.now),
                  (b: Bytes) => Resized(b, len));
  }

  lemma SetMtimeTracked(cfg: Config, w: World, p: Path, mtime: int, env: Env, icloud: Contents)
    requires Tracked(w, icloud) && FsSpec.SetMtime(cfg, w, p, mtime).error.None?
    ensures Tracked(FsSpec.SetMtime(cfg, w, p, mtime).world, icloud)
  {
    var w' := FsSpec.SetMtime(cfg, w, p, mtime).world;
    SetMtimeRefines(cfg, w, p, mtime, env);
    CoupledAt(w, p);
    assert TrackedAt(w, icloud, p);
    if Live(w.db.rows, p) {
      RewrittenTracked(w, w', icloud, p, w'.db.rows[p]);
    } else {
      OneRowTracked(w, w', icloud, p);
    }
  }

  // ---- removing -------------------------------------------------------------------------------------

  lemma ForgottenTracked(w: World, w': World, icloud: Contents, p: Path)
    requires Tracked(w, icloud) && Coupled(w') && Live(w.db.rows, p) && p in w.disk && !HasChild(w.disk, p)
    requires w' == World(Forget(w.db, p), w.disk - {p})
    ensures Tracked(w', icloud)
  {
    forall q | Live(w.db.rows, q) && Within(q, p) ensures q == p {
      CoupledAt(w, q);
    }
    ForgottenRows(w.db, p);
    DR.ForgetOps(w.db, p, p);
    forall q | q != p && Live(w'.db.rows, q) && PendingContent(w.db.ops, q) ensures PendingContent(w'.db.ops, q) {
      DR.ForgetOps(w.db, p, q);
    }
    ForgottenDirt(w, w', p);
    OneRowTracked(w, w', icloud, p);
  }

  lemma ForgottenDirt(w: World, w': World, p: Path)
    requires Live(w.db.rows, p) && w'.db == Forget(w.db, p)
    requires forall q :: Live(w.db.rows, q) && Within(q, p) ==> q == p
    ensures DirtStays(w, w', p)
  {
    ForgottenRows(w.db, p);
    forall g, q | g in w.db.rows && w.db.rows[g].dirty && Within(q, g) && Live(w'.db.rows, q)
      ensures g in w'.db.rows && w'.db.rows[g].dirty
    {
      assert LiveRow(w'.db.rows, q) == LiveRow(w.db.rows, q);
      assert Within(g, p) ==> Within(q, p);
    }
  }

  // ---- renaming -------------------------------------------------------------------------------------

  /** The row a moved or kept row came from, with what it says. */
  lemma MovedFrom(w: World, from: Path, to: Path, mark: Path -> string, j: Path) returns (k: Path)
    requires Apart(from, to) && FreshMarks(w.db.rows, from, to, mark) && Subtree(w.db.rows, from) != {}
    requires j in DR.Moved(w, from, to, mark).db.rows
    ensures k in w.db.rows && RenamedKey(k, from, to, mark) == j && Survives(k, w.db.rows[k], to)
    ensures DR.Moved(w, from, to, mark).db.rows[j] == RenamedRow(k, w.db.rows[k], from, to, true, false)
  {
    RenamedKeysDistinct(w.db.rows, from, to, mark);
    k := RenamedRowFrom(w.db.rows, from, to, true, false, mark, j);
  }

  lemma MovedTrackedAt(w: World, icloud: Contents, from: Path, to: Path, mark: Path -> string, j: Path)
    requires Tracked(w, icloud) && Apart(from, to) && FreshMarks(w.db.rows, from, to, mark) && from in w.db.rows
    requires j in DR.Moved(w, from, to, mark).db.rows
    ensures TrackedAt(DR.Moved(w, from, to, mark), icloud, j)
  {
    var w' := DR.Moved(w, from, to, mark);
    assert from in Subtree(w.db.rows, from);
    var k := MovedFrom(w, from, to, mark, j);
    if Live(w'.db.rows, j) {
      LiveSource(w.db.rows, from, to, mark, k);
      DR.MoveOps(w, from, to, mark, k);
      MoveTreeAt(w.disk, from, to);
      assert TrackedAt(w, icloud, k);
    }
  }

  lemma MovedAsked(w: World, icloud: Contents, from: Path, to: Path, mark: Path -> string, j: Path)
    requires Tracked(w, icloud) && Apart(from, to) && FreshMarks(w.db.rows, from, to, mark) && from in w.db.rows
    requires j in DR.Moved(w, from, to, mark).db.rows
    ensures MoveAsked(DR.Moved(w, from, to, mark), j)
  {
    var rows, rows' := w.db.rows, DR.Moved(w, from, to, mark).db.rows;
    assert from in Subtree(rows, from);
    RenamedKeysDistinct(rows, from, to, mark);
    var k := MovedFrom(w, from, to, mark, j);
    if Live(rows', j) && Within(j, to) {
      RenamedRowAt(rows, from, to, true, false, mark, from);
      RebaseLands(from, from, to);
      assert rows'[to].dirty;
    } else if Live(rows', j) && rows'[j].syncedPath.Some? && rows'[j].syncedPath.value != j {
      LiveSource(rows, from, to, mark, k);
      assert k == j && MoveAsked(w, j);
      var g :| g in rows && rows[g].dirty && Within(j, g);
      assert !Within(g, to) && (Within(g, from) ==> Within(j, from));
      RenamedRowAt(rows, from, to, true, false, mark, g);
    }
  }

  lemma MovedTracked(w: World, icloud: Contents, from: Path, to: Path, mark: Path -> string)
    requires Tracked(w, icloud) && Apart(from, to) && FreshMarks(w.db.rows, from, to, mark) && from in w.db.rows
    requires Coupled(DR.Moved(w, from, to, mark))
    ensures Tracked(DR.Moved(w, from, to, mark), icloud)
  {
    var w' := DR.Moved(w, from, to, mark);
    assert from in Subtree(w.db.rows, from);
    DR.MoveOps(w, from, to, mark, from);
    forall j | j in w'.db.rows
      ensures TrackedAt(w', icloud, j) && MoveAsked(w', j) && (w'.db.rows[j].tombstone ==> w'.db.rows[j].dirty)
    {
      MovedTrackedAt(w, icloud, from, to, mark, j);
      MovedAsked(w, icloud, from, to, mark, j);
      var k := MovedFrom(w, from, to, mark, j);
    }
  }

  lemma RenameTracked(cfg: Config, w: World, from: Path, to: Path, env: Env, icloud: Contents)
    requires Tracked(w, icloud) && FreshEnv(w, RenameCall(from, to), env) && Rename(cfg, w, from, to, env).error.None?
    ensures Tracked(Rename(cfg, w, from, to, env).world, icloud)
  {
    RenameRefines(cfg, w, from, to, env);
    if from != to {
      RenameIsMove(cfg, w, from, to, env);
      MovedTracked(w, icloud, from, to, env.mark);
    }
  }

  lemma RenameIsMove(cfg: Config, w: World, from: Path, to: Path, env: Env)
    requires Coupled(w) && FreshEnv(w, RenameCall(from, to), env) && from != to
    requires Rename(cfg, w, from, to, env).error.None?
    ensures Apart(from, to) && FreshMarks(w.db.rows, from, to, env.mark) && Live(w.db.rows, from)
    ensures Rename(cfg, w, from, to, env).world == DR.Moved(w, from, to, env.mark)
  {
    AcceptedRename(cfg, w, from, to, env);
    RenameVerdict(cfg, w, from, to);
  }

  // ---- every call, every run --------------------------------------------------------------------------

  lemma CallTracked(cfg: Config, w: World, call: Call, env: Env, icloud: Contents)
    requires Tracked(w, icloud) && FreshEnv(w, call, env) && OnLiveFile(w, call) && FetchedRight(w, call, env, icloud)
    ensures Tracked(Exec(cfg, w, call, env).world, icloud)
  {
    EveryCallRefines(cfg, w, call, env);
    if Exec(cfg, w, call, env).error.None? {
      match call
      case CreateCall(p) => CreateTracked(cfg, w, p, env, icloud);
      case MkdirCall(p) => MkdirTracked(cfg, w, p, env, icloud);
      case WriteCall(p, offset, data) => WriteTracked(cfg, w, p, offset, data, env, icloud);
      case TruncateCall(p, len) => TruncateTracked(cfg, w, p, len, env, icloud);
      case SetMtimeCall(p, mtime) => SetMtimeTracked(cfg, w, p, mtime, env, icloud);
      case UnlinkCall(p) =>
        CoupledAt(w, p);
        NothingBelowFile(w.disk, p);
        ForgottenTracked(w, Exec(cfg, w, call, env).world, icloud, p);
      case RmdirCall(p) =>
        RmdirVerdict(cfg, w, p);
        ForgottenTracked(w, Exec(cfg, w, call, env).world, icloud, p);
      case RenameCall(from, to) => RenameTracked(cfg, w, from, to, env, icloud);
    }
  }

  /** What every call of the run downloads is what iCloud has. */
  ghost predicate FetchesRight(cfg: Config, w: World, steps: seq<Step>, icloud: Contents)
    requires Coupled(w) && IsRun(cfg, w, steps)
    decreases |steps|
  {
    steps != [] ==>
      && FetchedRight(w, steps[0].call, steps[0].env, icloud)
      && (EveryCallRefines(cfg, w, steps[0].call, steps[0].env);
          FetchesRight(cfg, Exec(cfg, w, steps[0].call, steps[0].env).world, steps[1..], icloud))
  }

  /** Over every run of calls no file silently differs from iCloud's: it asks to be uploaded or has
      iCloud's bytes; its row says its size and time; what iCloud knows elsewhere asks to be moved. */
  lemma {:induction false} NoSilentDivergence(cfg: Config, w: World, steps: seq<Step>, icloud: Contents)
    requires Tracked(w, icloud) && IsRun(cfg, w, steps) && FetchesRight(cfg, w, steps, icloud)
    ensures Tracked(After(cfg, w, steps), icloud)
    decreases |steps|
  {
    if steps != [] {
      CallTracked(cfg, w, steps[0].call, steps[0].env, icloud);
      NoSilentDivergence(cfg, Exec(cfg, w, steps[0].call, steps[0].env).world, steps[1..], icloud);
    }
  }

  /** A file that was created, or written or cut, can be uploaded as it is; one that was removed, if
      iCloud has it, is a pending delete that names it. */
  lemma CallIsNoted(cfg: Config, w: World, call: Call, env: Env)
    requires Coupled(w) && FreshEnv(w, call, env) && OnLiveFile(w, call) && Exec(cfg, w, call, env).error.None?
    ensures var p, w' := call.path, Exec(cfg, w, call, env).world;
            match call
            case CreateCall(_) =>
              AsksForUpload(w'.db, p) && PendingContent(w'.db.ops, p) && w'.db.rows[p].hydrated && IsFile(w'.disk, p)
            case MkdirCall(_) => Live(w'.db.rows, p) && w'.db.rows[p].dirty && w'.db.rows[p].remoteId.None?
            case WriteCall(_, _, _) =>
              AsksForUpload(w'.db, p) && PendingContent(w'.db.ops, p) && w'.db.rows[p].hydrated && IsFile(w'.disk, p)
            case TruncateCall(_, _) =>
              AsksForUpload(w'.db, p) && PendingContent(w'.db.ops, p) && w'.db.rows[p].hydrated && IsFile(w'.disk, p)
            case SetMtimeCall(_, mtime) =>
              Live(w'.db.rows, p) ==> w'.db.rows[p].dirty && w'.db.rows[p].mtime == mtime
            case UnlinkCall(_) => RemovalNoted(w, w', p)
            case RmdirCall(_) => RemovalNoted(w, w', p)
            case RenameCall(from, to) =>
              from != to ==> Live(w'.db.rows, to) && w'.db.rows[to].dirty && Op(RenameOp, from, Some(to)) in w'.db.ops
  {
    EveryCallRefines(cfg, w, call, env);
    match call
    case CreateCall(p) => CreateIsNoted(cfg, w, p, env);
    case MkdirCall(p) =>
    case WriteCall(p, offset, data) =>
      ChangeIsNoted(cfg, w, p, env, (d: Disk) => WriteAt(d, p, offset, data, env.now),
                    (b: Bytes) => Overlay(b, offset, data));
    case TruncateCall(p, len) =>
      ChangeIsNoted(cfg, w, p, env, (d: Disk) => Files.Truncate(d, p, len, env.now), (b: Bytes) => Resized(b, len));
    case SetMtimeCall(_, _) =>
    case UnlinkCall(p) => CoupledAt(w, p);
    case RmdirCall(p) => RmdirVerdict(cfg, w, p);
    case RenameCall(from, to) => RenameIsNoted(cfg, w, from, to, env);
  }

  /** The pending delete keeps the item's identity; its delete is queued, unless it takes back a create. */
  ghost predicate RemovalNoted(w: World, w': World, p: Path) {
    && !Live(w'.db.rows, p)
    && (p in w.db.rows && w.db.rows[p].remoteId.Some? ==>
          && p in w'.db.rows && w'.db.rows[p] == w.db.rows[p].(tombstone := true, dirty := true)
          && (Op(DeleteOp, p, None) in w'.db.ops
              || exists o :: o in w.db.ops && o.path == p && o.kind in {CreateOp, MkdirOp}))
    && (p in w.db.rows && w.db.rows[p].remoteId.None? ==>
          p !in w'.db.rows && forall o :: o in w'.db.ops ==> o in w.db.ops && o.path != p)
  }

  lemma CreateIsNoted(cfg: Config, w: World, p: Path, env: Env)
    requires Coupled(w) && FreshEnv(w, CreateCall(p), env) && Create(cfg, w, p, env).error.None?
    ensures var w' := Create(cfg, w, p, env).world;
            AsksForUpload(w'.db, p) && PendingContent(w'.db.ops, p) && w'.db.rows[p].hydrated && IsFile(w'.disk, p)
  {
    ParentNotReservedFolder(w, p);
    CoupledAt(w, p);
    OpenParent(w, p);
    assert CreateFile(w.disk, p, env.now) == Ok(w.disk[p := Data([], env.now)]);
    assert Op(CreateOp, p, None) in QueueOp(w.db.ops, CreateOp, p, None);
  }

  lemma ChangeIsNoted(cfg: Config, w: World, p: Path, env: Env, change: Disk -> Result<Disk>, edit: Bytes -> Bytes)
    requires Coupled(w) && Live(w.db.rows, p) && !IsDir(w.db.rows[p].kind) && CheckMutation(cfg, p).None?
    requires forall d :: change(d) == Rewrite(d, p, edit, env.now)
    requires EnsureContent(cfg, w, p, env).error.None?
    ensures var w' := ChangeContent(cfg, w, p, env, change).world;
            AsksForUpload(w'.db, p) && PendingContent(w'.db.ops, p) && w'.db.rows[p].hydrated && IsFile(w'.disk, p)
  {
    ContentOutcome(cfg, w, p, env);
    var w1 := EnsureContent(cfg, w, p, env).world;
    ChangeUnfolds(cfg, w, w1, p, env, change, edit);
    UpdateQueued(w1.db.ops, p);
  }

  lemma RenameIsNoted(cfg: Config, w: World, from: Path, to: Path, env: Env)
    requires Coupled(w) && FreshEnv(w, RenameCall(from, to), env) && Rename(cfg, w, from, to, env).error.None?
    ensures var w' := Rename(cfg, w, from, to, env).world;
            from != to ==> Live(w'.db.rows, to) && w'.db.rows[to].dirty && Op(RenameOp, from, Some(to)) in w'.db.ops
  {
    if from != to {
      RenameIsMove(cfg, w, from, to, env);
      MoveIsNoted(w, from, to, env.mark);
    }
  }

  lemma MoveIsNoted(w: World, from: Path, to: Path, mark: Path -> string)
    requires Apart(from, to) && FreshMarks(w.db.rows, from, to, mark) && Live(w.db.rows, from)
    ensures var w' := DR.Moved(w, from, to, mark);
            Live(w'.db.rows, to) && w'.db.rows[to].dirty && Op(RenameOp, from, Some(to)) in w'.db.ops
  {
    assert from in Subtree(w.db.rows, from);
    RenamedKeysDistinct(w.db.rows, from, to, mark);
    RenamedRowAt(w.db.rows, from, to, true, false, mark, from);
    RebaseLands(from, from, to);
  }
}
