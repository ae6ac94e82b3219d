/** The mutations refine a POSIX file tree: an independent description of what each call
    may do to the visible tree, and the proof that rows and mirror stay coupled and change
    as described, over every run. */
module FsPosix {
  import opened Paths
  import opened Tables
  import opened Files
  import opened Names
  import opened Policy
  import opened FsSpec
  import opened Rekeying

  datatype Node = Directory | Regular(bytes: Bytes)

  type FileTree = map<Path, Node>

  function Visible(d: Disk): FileTree {
    map k | k in d && !Reserved(k) :: if d[k].Dir? then Directory else Regular(d[k].bytes)
  }

  // ---- POSIX.1-2017, System Interfaces ----------------------------------------------

  predicate IsDirectory(t: FileTree, p: Path) {
    p in t && t[p].Directory?
  }

  predicate IsRegular(t: FileTree, p: Path) {
    p in t && t[p].Regular?
  }

  ghost predicate IsEmpty(t: FileTree, p: Path) {
    forall k :: k in t && Within(k, p) ==> k == p
  }

  /** open() with O_CREAT and O_EXCL, and mkdir(). */
  predicate MayAdd(t: FileTree, p: Path) {
    p != ROOT && p !in t && IsDirectory(t, Parent(p))
  }

  predicate MayUnlink(t: FileTree, p: Path) {
    IsRegular(t, p)
  }

  ghost predicate MayRmdir(t: FileTree, p: Path) {
    p != ROOT && IsDirectory(t, p) && IsEmpty(t, p)
  }

  /** rename() of two different names. */
  ghost predicate MayRename(t: FileTree, from: Path, to: Path) {
    && from in t && from != ROOT && to != ROOT && from != to
    && IsDirectory(t, Parent(to))
    && !(IsDirectory(t, from) && Within(to, from))
    && (to in t ==> (if IsDirectory(t, from) then IsDirectory(t, to) && IsEmpty(t, to) else IsRegular(t, to)))
  }

  /** The link named `to` is gone, and what was at or below `from` is at or below `to`. */
  ghost predicate Renamed(t: FileTree, from: Path, to: Path, t': FileTree) {
    && (forall j :: j in t' <==> if Within(j, to) then Rebase(j, to, from) in t else j in t && !Within(j, from))
    && (forall j :: j in t' ==> t'[j] == if Within(j, to) then t[Rebase(j, to, from)] else t[j])
  }

  /** The mount is writable, the user signed in, and the path inside the boundary and not the mount's own. */
  predicate MayChange(cfg: Config, p: Path) {
    !cfg.readOnly && cfg.authenticated && !Reserved(p) && Allows(cfg.policy, p)
  }

  predicate IsNamed(p: Path) {
    p != ROOT && IsValidName(Last(p))
  }

  /** The mount's own rules; of a folder everything in it has to stay inside the boundary. */
  ghost predicate Permitted(cfg: Config, w: World, call: Call) {
    && MayChange(cfg, call.path)
    && match call
       case CreateCall(p) => IsNamed(p)
       case MkdirCall(p) => IsNamed(p)
       case RenameCall(from, to) =>
         && MayChange(cfg, to) && IsNamed(to)
         && (from != to && Live(w.db.rows, from) && IsDir(w.db.rows[from].kind) ==>
               forall k :: k in w.db.rows && Within(k, from) ==>
                 MayChange(cfg, k) && MayChange(cfg, Rebase(k, from, to)))
       case _ => true
  }

  ghost predicate Allowed(t: FileTree, call: Call) {
    match call
    case CreateCall(p) => MayAdd(t, p)
    case MkdirCall(p) => MayAdd(t, p)
    case WriteCall(p, _, _) => IsRegular(t, p)
    case TruncateCall(p, _) => IsRegular(t, p)
    case SetMtimeCall(p, _) => p in t
    case UnlinkCall(p) => MayUnlink(t, p)
    case RmdirCall(p) => MayRmdir(t, p)
    case RenameCall(from, to) => MayRename(t, from, to)
  }

  /** Nothing but the bytes of the file at `p` has changed. */
  ghost predicate RewrittenFile(t: FileTree, p: Path, t': FileTree) {
    IsRegular(t', p) && t' == t[p := t'[p]]
  }

  /** What an allowed call does.  `content` is what the file at `path` holds when it is read. */
  ghost predicate Effect(t: FileTree, content: Bytes, call: Call, t': FileTree) {
    match call
    case CreateCall(p) => t' == t[p := Regular([])]
    case MkdirCall(p) => t' == t[p := Directory]
    case WriteCall(p, offset, data) => RewrittenFile(t, p, t') && Overlaid(content, offset, data, t'[p].bytes)
    case TruncateCall(p, len) => RewrittenFile(t, p, t') && CutOrPadded(content, len, t'[p].bytes)
    case SetMtimeCall(_, _) => t' == t
    case UnlinkCall(p) => t' == t - {p}
    case RmdirCall(p) => t' == t - {p}
    case RenameCall(from, to) => Renamed(t, from, to, t')
  }

  /** The error says what was wrong with the tree, or is one of the mount's own. */
  ghost predicate Justified(cfg: Config, w: World, t: FileTree, call: Call, e: Errno) {
    match e
    case EROFS => cfg.readOnly
    case EACCES => !Permitted(cfg, w, call)
    case ENAMETOOLONG => !Permitted(cfg, w, call)
    case EEXIST => call.path in t && (call.CreateCall? || call.MkdirCall?)
    case EBUSY => call.path == ROOT || (call.RenameCall? && call.to == ROOT)
    case EINVAL =>
      || call.path == ROOT
      || (call.RenameCall? && (call.to == ROOT || (IsDirectory(t, call.path) && Within(call.to, call.path))))
    case ENOENT =>
      || call.path !in t || call.path == ROOT
      || Parent(if call.RenameCall? then call.to else call.path) !in t
    case ENOTDIR =>
      || (call.RmdirCall? && IsRegular(t, call.path))
      || (call.RenameCall? && IsDirectory(t, call.path) && IsRegular(t, call.to))
      || IsRegular(t, Parent(if call.RenameCall? then call.to else call.path))
      || Reserved(Parent(if call.RenameCall? then call.to else call.path))
    case EISDIR => IsDirectory(t, call.path) || (call.RenameCall? && IsDirectory(t, call.to))
    case ENOTEMPTY =>
      || (call.RmdirCall? && IsDirectory(t, call.path) && !IsEmpty(t, call.path))
      || (call.RenameCall? && IsDirectory(t, call.to) && !IsEmpty(t, call.to))
    case EIO => (call.WriteCall? || call.TruncateCall?) && NeedsDownload(w, call.path)
  }

  predicate NeedsDownload(w: World, p: Path) {
    Live(w.db.rows, p) && !w.db.rows[p].hydrated && w.db.rows[p].remoteId.Some?
  }

  /** What reading the file yields: the mirror's bytes, or iCloud's when they are not there yet. */
  function Content(w: World, p: Path, env: Env): Bytes {
    if NeedsDownload(w, p) && w.db.rows[p].kind == File && env.fetched.Some? then env.fetched.value
    else if IsFile(w.disk, p) then w.disk[p].bytes
    else []
  }

  /** A placeholder can only be changed once it has been downloaded, and a download is
      discarded while a content operation is queued for the path. */
  ghost predicate ContentAvailable(w: World, call: Call, env: Env) {
    (call.WriteCall? || call.TruncateCall?) && NeedsDownload(w, call.path) && w.db.rows[call.path].kind == File ==>
      env.fetched.Some? && !PendingContent(w.db.ops, call.path)
  }

  /** Writes go to files that exist; the kernel has looked the path up. */
  predicate OnLiveFile(w: World, call: Call) {
    call.WriteCall? || call.TruncateCall? ==> Live(w.db.rows, call.path)
  }

  ghost predicate Refines(cfg: Config, w: World, call: Call, env: Env, o: Outcome) {
    var t, t' := Visible(w.disk), Visible(o.world.disk);
    && Coupled(o.world)
    && (o.error.Some? ==> o.world == w && Justified(cfg, w, t, call, o.error.value))
    && (o.error.None? ==> if SelfRename(call) then o.world == w else Effect(t, Content(w, call.path, env), call, t'))
    && (o.error.None? <==>
          Permitted(cfg, w, call) && (SelfRename(call) || Allowed(t, call)) && ContentAvailable(w, call, env))
  }

  /** Renaming a name to itself is accepted before anything is looked up, and does nothing. */
  predicate SelfRename(call: Call) {
    call.RenameCall? && call.path == call.to
  }

  // ---- facts about the coupling -------------------------------------------------------

  lemma CoupledAt(w: World, p: Path)
    requires Coupled(w) && !Reserved(p)
    ensures p in Visible(w.disk) <==> p in w.disk
    ensures p != ROOT ==> (p in w.disk <==> Live(w.db.rows, p))
    ensures IsDirectory(Visible(w.disk), p) <==> IsFolder(w.disk, p)
    ensures IsRegular(Visible(w.disk), p) <==> IsFile(w.disk, p)
    ensures Live(w.db.rows, p) ==> (IsDirectory(Visible(w.disk), p) <==> IsDir(w.db.rows[p].kind))
    ensures IsDirectory(Visible(w.disk), ROOT)
  {
  }

  lemma ParentNotReservedFolder(w: World, p: Path)
    requires Coupled(w)
    ensures IsDirectory(Visible(w.disk), Parent(p)) <==> RequireParentDir(w.disk, p).None?
    ensures RequireParentDir(w.disk, p) == Some(ENOENT) ==> Parent(p) !in Visible(w.disk)
    ensures RequireParentDir(w.disk, p) == Some(ENOTDIR) && !Reserved(Parent(p)) ==>
              IsRegular(Visible(w.disk), Parent(p))
    ensures RequireParentDir(w.disk, p).None? ==> IsFolder(w.disk, Parent(p))
  {
  }

  lemma OpenParent(w: World, p: Path)
    requires Coupled(w) && RequireParentDir(w.disk, p).None?
    ensures CreateDirAll(w.disk, Parent(p)) == Ok(w.disk)
  {
    ParentNotReservedFolder(w, p);
    ExistingFolder(w.disk, Parent(p));
  }

  // ---- create and mkdir -----------------------------------------------------------------

  lemma TreeWith(d: Disk, p: Path, node: Inode)
    requires Tree(d) && p != ROOT && !Reserved(p) && p !in d && IsFolder(d, Parent(p))
    ensures Tree(d[p := node])
  {
  }

  lemma RowsWith(rows: Rows, p: Path, mark: string, row: Row)
    requires FreshGrave(rows, p, mark) && !Live(rows, p) && p != ROOT
    ensures ROOT !in rows ==> ROOT !in BuryTombstone(rows, p, mark)[p := row]
    ensures forall q :: q != p ==> LiveRow(BuryTombstone(rows, p, mark)[p := row], q) == LiveRow(rows, q)
  {
    assert Grave(p, mark) != ROOT;
  }

  lemma VisibleWith(d: Disk, p: Path, node: Inode)
    requires !Reserved(p)
    ensures Visible(d[p := node]) == Visible(d)[p := if node.Dir? then Directory else Regular(node.bytes)]
  {
  }

  lemma AddingRefines(w: World, p: Path, mark: string, row: Row, node: Inode, ops: seq<Op>)
    requires Coupled(w) && FreshGrave(w.db.rows, p, mark)
    requires p != ROOT && !Reserved(p) && p !in w.disk && IsFolder(w.disk, Parent(p))
    requires !row.tombstone && (IsDir(row.kind) <==> node.Dir?)
    ensures Coupled(World(w.db.(rows := BuryTombstone(w.db.rows, p, mark)[p := row], ops := ops), w.disk[p := node]))
    ensures Visible(w.disk[p := node]) ==
            Visible(w.disk)[p := if node.Dir? then Directory else Regular(node.bytes)]
  {
    VisibleWith(w.disk, p, node);
    TreeWith(w.disk, p, node);
    RowsWith(w.db.rows, p, mark, row);
    var rows := BuryTombstone(w.db.rows, p, mark)[p := row];
    CoupledAgain(w, World(w.db.(rows := rows, ops := ops), w.disk[p := node]), p);
  }

  /** Rows and mirror change at one path only, and agree there. */
  lemma CoupledAgain(w: World, w': World, p: Path)
    requires Coupled(w) && Tree(w'.disk) && ROOT !in w'.db.rows && p != ROOT && !Reserved(p)
    requires forall q :: q != p ==> LiveRow(w'.db.rows, q) == LiveRow(w.db.rows, q)
    requires forall q :: q != p ==> (q in w.disk <==> q in w'.disk)
    requires forall q :: q != p && q in w.disk ==> w'.disk[q].Dir? == w.disk[q].Dir?
    requires p in w'.disk <==> Live(w'.db.rows, p)
    requires p in w'.disk ==> (IsDir(w'.db.rows[p].kind) <==> w'.disk[p].Dir?)
    ensures Coupled(w')
  {
    forall q | Live(w'.db.rows, q)
      ensures !Reserved(q) && q in w'.disk && (IsDir(w'.db.rows[q].kind) <==> w'.disk[q].Dir?)
    {
      if q != p {
        assert LiveRow(w'.db.rows, q) == LiveRow(w.db.rows, q);
      }
    }
    forall q | q in w'.disk && q != ROOT && !Reserved(q) ensures Live(w'.db.rows, q) {
      if q != p {
        assert LiveRow(w'.db.rows, q) == LiveRow(w.db.rows, q);
      }
    }
  }

  lemma CreateRefines(cfg: Config, w: World, p: Path, env: Env)
    requires Coupled(w) && FreshEnv(w, CreateCall(p), env)
    ensures Refines(cfg, w, CreateCall(p), env, Create(cfg, w, p, env))
  {
    ParentNotReservedFolder(w, p);
    if CheckCreation(cfg, w, p).None? {
      CoupledAt(w, p);
      OpenParent(w, p);
      if !Live(w.db.rows, p) {
        var d := w.disk[p := Data([], env.now)];
        assert CreateFile(w.disk, p, env.now) == Ok(d);
        AddingRefines(w, p, env.mark(p), LocalRow(p, File, env.now), Data([], env.now),
                      QueueOp(w.db.ops, CreateOp, p, None));
      }
    }
  }

  lemma MkdirRefines(cfg: Config, w: World, p: Path, env: Env)
    requires Coupled(w) && FreshEnv(w, MkdirCall(p), env)
    ensures Refines(cfg, w, MkdirCall(p), env, Mkdir(cfg, w, p, env))
  {
    ParentNotReservedFolder(w, p);
    if CheckCreation(cfg, w, p).None? {
      CoupledAt(w, p);
      if !Live(w.db.rows, p) {
        NewFolder(w.disk, p);
        AddingRefines(w, p, env.mark(p), LocalRow(p, Folder, env.now), Dir, QueueOp(w.db.ops, MkdirOp, p, None));
      }
    }
  }

  lemma NewFolder(d: Disk, p: Path)
    requires Tree(d) && p != ROOT && p !in d && IsFolder(d, Parent(p))
    ensures EnsureDir(d, p) == Ok(d[p := Dir])
  {
    OnlyLastMissing(d, p);
    assert d + map[p := Dir] == d[p := Dir];
  }

  lemma OnlyLastMissing(d: Disk, p: Path)
    requires Tree(d) && p != ROOT && p !in d && IsFolder(d, Parent(p))
    ensures Missing(d, p, |p| + 1) == map[p := Dir] && forall i :: 0 <= i <= |p| ==> !IsFile(d, p[..i])
  {
    forall i | 0 <= i < |p| ensures IsFolder(d, p[..i]) {
      assert p[..i] == Parent(p)[..i];
      AncestorsAreFolders(d, Parent(p), p[..i]);
    }
    assert p[..|p|] == p;
    assert Missing(d, p, |p|) == map[];
    MissingStep(d, p, |p|);
  }

  // ---- unlink and rmdir -------------------------------------------------------------------

  lemma TreeWithout(d: Disk, p: Path)
    requires Tree(d) && p != ROOT && !HasChild(d, p)
    ensures Tree(d - {p})
  {
    forall q | q in d && q != p && q != ROOT ensures Parent(q) != p {
      assert Within(q, Parent(q));
    }
  }

  lemma ForgottenRows(db: Db, p: Path)
    requires Live(db.rows, p)
    requires forall q :: Live(db.rows, q) && Within(q, p) ==> q == p
    ensures forall q :: q != p ==> LiveRow(Forget(db, p).rows, q) == LiveRow(db.rows, q)
    ensures !Live(Forget(db, p).rows, p)
    ensures ROOT !in db.rows ==> ROOT !in Forget(db, p).rows
  {
  }

  lemma ForgettingRefines(w: World, p: Path)
    requires Coupled(w) && Live(w.db.rows, p) && p in w.disk && !HasChild(w.disk, p)
    ensures Coupled(World(Forget(w.db, p), w.disk - {p}))
    ensures Visible(w.disk - {p}) == Visible(w.disk) - {p}
  {
    TreeWithout(w.disk, p);
    ForgottenRows(w.db, p);
    CoupledAgain(w, World(Forget(w.db, p), w.disk - {p}), p);
  }

  lemma UnlinkRefines(cfg: Config, w: World, p: Path, env: Env)
    requires Coupled(w)
    ensures Refines(cfg, w, UnlinkCall(p), env, Unlink(cfg, w, p))
  {
    if CheckMutation(cfg, p).None? {
      CoupledAt(w, p);
      if Live(w.db.rows, p) && !IsDir(w.db.rows[p].kind) {
        NothingBelowFile(w.disk, p);
        ForgettingRefines(w, p);
      }
    }
  }

  lemma NothingBelowFile(d: Disk, p: Path)
    requires Tree(d) && IsFile(d, p)
    ensures !HasChild(d, p)
  {
    forall k | k in d && k != p && Within(k, p) ensures false {
      AncestorsAreFolders(d, k, p);
    }
  }

  lemma EmptyFolder(d: Disk, p: Path)
    requires p != ROOT && p in d
    ensures HasChild(d, p) <==> !IsEmpty(Visible(d), p)
  {
    if HasChild(d, p) {
      var k :| k in d && k != p && Within(k, p);
      assert |k| > |p| >= 1;
      assert k in Visible(d);
    }
  }

  lemma RmdirVerdict(cfg: Config, w: World, p: Path)
    requires Coupled(w) && CheckMutation(cfg, p).None? && p != ROOT
    ensures Rmdir(cfg, w, p).error.None? <==> MayRmdir(Visible(w.disk), p)
    ensures Rmdir(cfg, w, p).error.None? ==>
              && Live(w.db.rows, p) && p in w.disk && !HasChild(w.disk, p)
              && Rmdir(cfg, w, p).world == World(Forget(w.db, p), w.disk - {p})
    ensures Rmdir(cfg, w, p).error.Some? ==>
              && Rmdir(cfg, w, p).world == w
              && Justified(cfg, w, Visible(w.disk), RmdirCall(p), Rmdir(cfg, w, p).error.value)
  {
    CoupledAt(w, p);
    if p in w.disk {
      EmptyFolder(w.disk, p);
    }
  }

  lemma RmdirRefines(cfg: Config, w: World, p: Path, env: Env)
    requires Coupled(w)
    ensures Refines(cfg, w, RmdirCall(p), env, Rmdir(cfg, w, p))
  {
    if CheckMutation(cfg, p).None? && p != ROOT {
      RmdirVerdict(cfg, w, p);
      if Rmdir(cfg, w, p).error.None? {
        ForgettingRefines(w, p);
      }
    }
  }

  // ---- write, truncate and utimens ----------------------------------------------------------

  /** A file keeps its place and gets new bytes. */
  lemma RewritingRefines(w: World, p: Path, rows: Rows, ops: seq<Op>, bytes: Bytes, mtime: int)
    requires Coupled(w) && Live(w.db.rows, p) && IsFile(w.disk, p)
    requires forall q :: q != p ==> LiveRow(rows, q) == LiveRow(w.db.rows, q)
    requires Live(rows, p) && rows[p].kind == w.db.rows[p].kind && ROOT !in rows
    ensures Coupled(World(w.db.(rows := rows, ops := ops), w.disk[p := Data(bytes, mtime)]))
    ensures Visible(w.disk[p := Data(bytes, mtime)]) == Visible(w.disk)[p := Regular(bytes)]
  {
    CoupledAgain(w, World(w.db.(rows := rows, ops := ops), w.disk[p := Data(bytes, mtime)]), p);
  }

  ghost predicate Downloaded(w: World, w': World, p: Path, bytes: Bytes) {
    && Live(w.db.rows, p)
    && w'.disk == w.disk[p := Data(bytes, ClampTime(w.db.rows[p].mtime))]
    && Coupled(w') && Live(w'.db.rows, p) && w'.db.rows[p].kind == File && w'.db.rows[p].hydrated
  }

  /** Committing a download into the mirror cannot fail, and keeps rows and mirror coupled. */
  lemma DownloadOutcome(w: World, p: Path, fetched: Option<Bytes>)
    requires Coupled(w) && NeedsDownload(w, p) && w.db.rows[p].kind == File
    ensures FetchContent(w, p, fetched).error.Some? <==> fetched.None?
    ensures fetched.None? || PendingContent(w.db.ops, p) ==> FetchContent(w, p, fetched).world == w
    ensures fetched.Some? && !PendingContent(w.db.ops, p) ==>
              Downloaded(w, FetchContent(w, p, fetched).world, p, fetched.value)
  {
    CoupledAt(w, p);
    ExistingFolder(w.disk, Parent(p));
    if fetched.Some? && !PendingContent(w.db.ops, p) {
      RewritingRefines(w, p, MarkHydrated(w.db.rows, p, |fetched.value|, ClampTime(w.db.rows[p].mtime)), w.db.ops,
                       fetched.value, ClampTime(w.db.rows[p].mtime));
    }
  }

  /** A file made here is in the mirror already, so making it sure changes the row only. */
  lemma LocalFileIsTheFile(w: World, p: Path, now: int)
    requires Coupled(w) && Live(w.db.rows, p) && w.db.rows[p].kind == File && w.db.rows[p].remoteId.None?
    ensures CreateFile(w.disk, p, now) == Ok(w.disk) && IsFile(w.disk, p)
    ensures var rows := MarkHydrated(w.db.rows, p, |w.disk[p].bytes|, w.disk[p].mtime);
            Coupled(w.(db := w.db.(rows := rows))) && Live(rows, p)
  {
    CoupledAt(w, p);
    ExistingFolder(w.disk, Parent(p));
    CoupledAgain(w, w.(db := w.db.(rows := MarkHydrated(w.db.rows, p, |w.disk[p].bytes|, w.disk[p].mtime))), p);
  }

  predicate MustFetch(w: World, p: Path) {
    NeedsDownload(w, p) && w.db.rows[p].kind == File
  }

  lemma ContentIsLocal(cfg: Config, w: World, p: Path, env: Env)
    requires Live(w.db.rows, p) && CheckMutation(cfg, p).None? && !MustFetch(w, p)
    ensures EnsureContent(cfg, w, p, env) == Done(w)
  {
    if NeedsDownload(w, p) {
      assert Hydrate(w, p, env.fetched, 3) == Done(w);
    }
  }

  lemma ContentIsFetched(cfg: Config, w: World, p: Path, env: Env)
    requires Coupled(w) && CheckMutation(cfg, p).None? && MustFetch(w, p)
    ensures env.fetched.None? || PendingContent(w.db.ops, p) ==> EnsureContent(cfg, w, p, env) == Fail(w, EIO)
    ensures env.fetched.Some? && !PendingContent(w.db.ops, p) ==>
              EnsureContent(cfg, w, p, env) == FetchContent(w, p, env.fetched)
  {
    HydrateGivesUp(w, p, env.fetched, MAX_HYDRATE_ATTEMPTS);
  }

  /** The file is ready to be changed: everything is as before, except that a placeholder
      may have become the file. */
  ghost predicate ContentReady(w: World, w': World, p: Path, bytes: Bytes) {
    && Live(w.db.rows, p)
    && Coupled(w') && Live(w'.db.rows, p) && w'.db.rows[p].kind == w.db.rows[p].kind
    && IsFile(w'.disk, p) && w'.disk[p].bytes == bytes
    && Visible(w'.disk) == Visible(w.disk)[p := Regular(bytes)]
  }

  lemma ContentOutcome(cfg: Config, w: World, p: Path, env: Env)
    requires Coupled(w) && Live(w.db.rows, p) && !IsDir(w.db.rows[p].kind) && CheckMutation(cfg, p).None?
    ensures var o := EnsureContent(cfg, w, p, env);
            && (o.error.Some? ==> o == Fail(w, EIO) && NeedsDownload(w, p))
            && (o.error.None? <==> (MustFetch(w, p) ==> env.fetched.Some? && !PendingContent(w.db.ops, p)))
            && (o.error.None? ==> ContentReady(w, o.world, p, Content(w, p, env)))
  {
    CoupledAt(w, p);
    if !MustFetch(w, p) {
      ContentIsLocal(cfg, w, p, env);
      assert Visible(w.disk) == Visible(w.disk)[p := Regular(w.disk[p].bytes)];
    } else {
      ContentIsFetched(cfg, w, p, env);
      DownloadOutcome(w, p, env.fetched);
      if env.fetched.Some? && !PendingContent(w.db.ops, p) {
        RewritingRefines(w, p, w.db.rows, w.db.ops, env.fetched.value, ClampTime(w.db.rows[p].mtime));
      }
    }
  }

  lemma {:induction false} HydrateGivesUp(w: World, p: Path, fetched: Option<Bytes>, attempts: nat)
    requires Coupled(w) && NeedsDownload(w, p) && w.db.rows[p].kind == File && attempts > 0
    ensures fetched.None? || PendingContent(w.db.ops, p) ==> Hydrate(w, p, fetched, attempts) == Fail(w, EIO)
    ensures fetched.Some? && !PendingContent(w.db.ops, p) ==>
              Hydrate(w, p, fetched, attempts) == FetchContent(w, p, fetched)
  {
    DownloadOutcome(w, p, fetched);
    if attempts > 1 {
      HydrateGivesUp(w, p, fetched, attempts - 1);
    }
  }

  lemma RewriteExisting(w: World, p: Path, change: Bytes -> Bytes, now: int)
    requires Coupled(w) && p != ROOT && IsFile(w.disk, p)
    ensures Rewrite(w.disk, p, change, now) == Ok(w.disk[p := Data(change(w.disk[p].bytes), now)])
  {
    ExistingFolder(w.disk, Parent(p));
  }

  function Recorded(w: World, p: Path, bytes: Bytes, now: int): World {
    World(w.db.(rows := MarkDirty(w.db.rows, p, Some(|bytes|), Some(now), Some(true)),
                ops := QueueOp(w.db.ops, UpdateOp, p, None)),
          w.disk[p := Data(bytes, now)])
  }

  lemma RecordedKeepsCoupling(w: World, p: Path, bytes: Bytes, now: int)
    requires Coupled(w) && Live(w.db.rows, p) && IsFile(w.disk, p)
    ensures Coupled(Recorded(w, p, bytes, now))
    ensures Visible(Recorded(w, p, bytes, now).disk) == Visible(w.disk)[p := Regular(bytes)]
  {
    RewritingRefines(w, p, MarkDirty(w.db.rows, p, Some(|bytes|), Some(now), Some(true)),
                     QueueOp(w.db.ops, UpdateOp, p, None), bytes, now);
  }

  /** Once the content is there, the change itself cannot fail. */
  lemma ChangeSucceeds(w1: World, p: Path, env: Env, edit: Bytes -> Bytes)
    requires Coupled(w1) && p != ROOT && IsFile(w1.disk, p)
    ensures var r := Rewrite(w1.disk, p, edit, env.now);
            && r.Ok?
            && RecordContentChange(w1.(disk := r.value), p, true, env)
               == Recorded(w1, p, edit(w1.disk[p].bytes), env.now)
  {
    RewriteExisting(w1, p, edit, env.now);
  }

  lemma ChangeUnfolds(cfg: Config, w: World, w1: World, p: Path, env: Env, change: Disk -> Result<Disk>,
                      edit: Bytes -> Bytes)
    requires Live(w.db.rows, p) && !IsDir(w.db.rows[p].kind) && CheckMutation(cfg, p).None?
    requires EnsureContent(cfg, w, p, env) == Done(w1)
    requires Coupled(w1) && p != ROOT && IsFile(w1.disk, p)
    requires change(w1.disk) == Rewrite(w1.disk, p, edit, env.now)
    ensures ChangeContent(cfg, w, p, env, change) == Done(Recorded(w1, p, edit(w1.disk[p].bytes), env.now))
  {
    ChangeSucceeds(w1, p, env, edit);
  }

  lemma UpdatedTwice<K, V>(m: map<K, V>, k: K, a: V, b: V)
    ensures m[k := a][k := b] == m[k := b]
  {
  }

  lemma ChangeAccepted(cfg: Config, w: World, p: Path, env: Env, change: Disk -> Result<Disk>, edit: Bytes -> Bytes)
    requires Coupled(w) && Live(w.db.rows, p) && !IsDir(w.db.rows[p].kind) && CheckMutation(cfg, p).None?
    requires forall d :: change(d) == Rewrite(d, p, edit, env.now)
    requires EnsureContent(cfg, w, p, env).error.None?
    ensures var o := ChangeContent(cfg, w, p, env, change);
            && o.error.None? && Coupled(o.world)
            && Visible(o.world.disk) == Visible(w.disk)[p := Regular(edit(Content(w, p, env)))]
  {
    ContentOutcome(cfg, w, p, env);
    var w1 := EnsureContent(cfg, w, p, env).world;
    var content := Content(w, p, env);
    ChangeUnfolds(cfg, w, w1, p, env, change, edit);
    RecordedKeepsCoupling(w1, p, edit(content), env.now);
    UpdatedTwice(Visible(w.disk), p, Regular(content), Regular(edit(content)));
  }

  lemma ChangeRefines(cfg: Config, w: World, p: Path, env: Env, change: Disk -> Result<Disk>, edit: Bytes -> Bytes)
    requires Coupled(w) && Live(w.db.rows, p)
    requires forall d :: change(d) == Rewrite(d, p, edit, env.now)
    ensures var o := ChangeContent(cfg, w, p, env, change);
            && Coupled(o.world)
            && (o.error.Some? ==> o.world == w)
            && (o.error.Some? && CheckMutation(cfg, p).None? ==>
                  || (o.error == Some(EISDIR) && IsDirectory(Visible(w.disk), p))
                  || (o.error == Some(EIO) && NeedsDownload(w, p)))
            && (o.error.Some? && CheckMutation(cfg, p).Some? ==> o.error == CheckMutation(cfg, p))
            && (o.error.None? <==>
                  && CheckMutation(cfg, p).None? && IsRegular(Visible(w.disk), p)
                  && (MustFetch(w, p) ==> env.fetched.Some? && !PendingContent(w.db.ops, p)))
            && (o.error.None? ==> Visible(o.world.disk) == Visible(w.disk)[p := Regular(edit(Content(w, p, env)))])
  {
    CoupledAt(w, p);
    if CheckMutation(cfg, p).None? && !IsDir(w.db.rows[p].kind) {
      ContentOutcome(cfg, w, p, env);
      if EnsureContent(cfg, w, p, env).error.None? {
        ChangeAccepted(cfg, w, p, env, change, edit);
      }
    }
  }

  lemma WriteRefines(cfg: Config, w: World, p: Path, offset: nat, data: Bytes, env: Env)
    requires Coupled(w) && Live(w.db.rows, p)
    ensures Refines(cfg, w, WriteCall(p, offset, data), env, Write(cfg, w, p, offset, data, env))
  {
    OverlayBytes(Content(w, p, env), offset, data);
    ChangeRefines(cfg, w, p, env, (d: Disk) => WriteAt(d, p, offset, data, env.now),
                  (b: Bytes) => Overlay(b, offset, data));
  }

  lemma TruncateRefines(cfg: Config, w: World, p: Path, len: nat, env: Env)
    requires Coupled(w) && Live(w.db.rows, p)
    ensures Refines(cfg, w, TruncateCall(p, len), env, FsSpec.Truncate(cfg, w, p, len, env))
  {
    ResizedBytes(Content(w, p, env), len);
    ChangeRefines(cfg, w, p, env, (d: Disk) => Files.Truncate(d, p, len, env.now), (b: Bytes) => Resized(b, len));
  }

  lemma SetMtimeRefines(cfg: Config, w: World, p: Path, mtime: int, env: Env)
    requires Coupled(w)
    ensures Refines(cfg, w, SetMtimeCall(p, mtime), env, FsSpec.SetMtime(cfg, w, p, mtime))
  {
    if CheckMutation(cfg, p).None? && p in w.disk {
      CoupledAt(w, p);
      var o := FsSpec.SetMtime(cfg, w, p, mtime);
      assert Visible(o.world.disk) == Visible(w.disk);
      if p != ROOT {
        CoupledAgain(w, o.world, p);
      }
    }
  }

  // ---- rename ---------------------------------------------------------------------------------

  lemma TreeCleared(d: Disk, to: Path)
    requires Tree(d) && to != ROOT
    ensures Tree(RemoveTree(d, to))
    ensures !HasChild(RemoveTree(d, to), to) && to !in RemoveTree(d, to)
  {
    forall q | q in d && !Within(q, to) && q != ROOT ensures !Within(Parent(q), to) {
      assert Within(q, Parent(q));
    }
  }

  lemma ParentMoved(d: Disk, d': Disk, from: Path, to: Path, j: Path)
    requires Tree(d) && Apart(from, to) && IsFolder(d, Parent(to)) && from in d
    requires forall i :: i in d' <==> if Within(i, to) then Rebase(i, to, from) in d else i in d && !Within(i, from)
    requires forall i :: i in d' ==> d'[i] == if Within(i, to) then d[Rebase(i, to, from)] else d[i]
    requires j in d' && j != ROOT
    ensures Parent(j) in d' && d'[Parent(j)].Dir?
  {
    if j == to {
      assert !Within(Parent(to), from) && !Within(Parent(to), to);
    } else if Within(j, to) {
      RebaseLands(j, to, from);
      RebaseParent(j, to, from);
      assert Within(Parent(j), to);
    } else {
      assert Within(j, Parent(j));
      assert !Within(Parent(j), to);
    }
  }

  lemma TreeMoved(d: Disk, from: Path, to: Path)
    requires Tree(d) && Apart(from, to) && from in d && IsFolder(d, Parent(to)) && !Reserved(to) && !Reserved(from)
    ensures Tree(MoveTree(d, from, to))
  {
    MoveTreeAt(d, from, to);
    var d' := MoveTree(d, from, to);
    forall j | j in d' && j != ROOT ensures Parent(j) in d' && d'[Parent(j)].Dir? {
      ParentMoved(d, d', from, to, j);
    }
    assert ROOT != to && ROOT != from;
    ReservedMoved(d, from, to);
  }

  lemma ReservedMoved(d: Disk, from: Path, to: Path)
    requires Tree(d) && Apart(from, to) && from in d && !Reserved(to) && !Reserved(from) && to != ROOT
    ensures forall j :: j in MoveTree(d, from, to) && Reserved(j) ==> MoveTree(d, from, to)[j].Data?
  {
    MoveTreeAt(d, from, to);
    forall j | j in MoveTree(d, from, to) && Reserved(j) ensures MoveTree(d, from, to)[j].Data? {
      assert Within(j, to) ==> j == to;
    }
  }

  lemma MoveIgnoresTarget(d: Disk, from: Path, to: Path)
    requires Apart(from, to)
    ensures MoveTree(RemoveTree(d, to), from, to) == MoveTree(d, from, to)
  {
    var a, b := MoveTree(RemoveTree(d, to), from, to), MoveTree(d, from, to);
    MoveTreeAt(RemoveTree(d, to), from, to);
    MoveTreeAt(d, from, to);
    forall j ensures (j in a <==> j in b) && (j in a ==> a[j] == b[j]) {
      if Within(j, to) {
        RebaseLands(j, to, from);
        ApartBelow(Rebase(j, to, from), from, to);
      }
    }
  }

  lemma RenameToFreeName(d: Disk, from: Path, to: Path)
    requires Tree(d) && Apart(from, to) && from in d && IsFolder(d, Parent(to))
    requires to !in d && !HasChild(d, to)
    ensures RenameDisk(d, from, to) == Ok(MoveTree(d, from, to))
  {
    ExistingFolder(d, Parent(to));
  }

  lemma NothingBelowNothing(d: Disk, p: Path)
    requires Tree(d) && p !in d
    ensures !HasChild(d, p)
  {
    forall k | k in d && Within(k, p) ensures false {
      AncestorsAreFolders(d, k, p);
    }
  }

  function Cleared(w: World, to: Path): Disk {
    if Live(w.db.rows, to) then RemoveTree(w.disk, to) else w.disk
  }

  /** The disk side of an accepted rename. */
  lemma AcceptedRenameOnDisk(w: World, from: Path, to: Path)
    requires Coupled(w) && Apart(from, to) && Live(w.db.rows, from) && IsFolder(w.disk, Parent(to))
    requires !Reserved(to) && to != ROOT
    ensures RenameDisk(Cleared(w, to), from, to) == Ok(MoveTree(w.disk, from, to))
  {
    CoupledAt(w, to);
    if Live(w.db.rows, to) {
      TreeCleared(w.disk, to);
      MoveIgnoresTarget(w.disk, from, to);
    } else {
      NothingBelowNothing(w.disk, to);
    }
    RenameToFreeName(Cleared(w, to), from, to);
  }

  /** Live rows after `rename_tree`: those under `from` are under `to`, the rest stay. */
  lemma LiveRowsMoved(rows: Rows, from: Path, to: Path, rootDirty: bool, updateSynced: bool, mark: Path -> string,
                      j: Path)
    requires Apart(from, to) && FreshMarks(rows, from, to, mark)
    requires Injective(RenamedKeys(rows, from, to, mark))
    ensures var rows' := RenamedRows(rows, from, to, rootDirty, updateSynced, mark);
            var source := if Within(j, to) then Rebase(j, to, from) else j;
            && (Live(rows', j) <==> Live(rows, source) && (Within(j, from) ==> Within(j, to)))
            && (Live(rows', j) ==> rows'[j].kind == rows[source].kind)
  {
    var rows' := RenamedRows(rows, from, to, rootDirty, updateSynced, mark);
    var source := if Within(j, to) then Rebase(j, to, from) else j;
    if Within(j, to) {
      RebaseLands(j, to, from);
      ApartBelow(source, from, to);
    }
    if source in rows && (Within(j, from) ==> Within(j, to)) {
      assert RenamedKey(source, from, to, mark) == j && Survives(source, rows[source], to);
      RenamedRowAt(rows, from, to, rootDirty, updateSynced, mark, source);
    }
    if Live(rows', j) {
      var k := RenamedRowFrom(rows, from, to, rootDirty, updateSynced, mark, j);
      LiveSource(rows, from, to, mark, k);
    }
  }

  /** A live row that was moved or kept came from its own place. */
  lemma LiveSource(rows: Rows, from: Path, to: Path, mark: Path -> string, k: Path)
    requires Apart(from, to) && k in rows && (Within(k, to) ==> Within(k, from))
    ensures var j := RenamedKey(k, from, to, mark);
            k == (if Within(j, to) then Rebase(j, to, from) else j) && (Within(j, from) ==> Within(j, to))
  {
    if Within(k, from) {
      RebaseLands(k, from, to);
    }
  }

  lemma NoRootRow(rows: Rows, from: Path, to: Path, rootDirty: bool, updateSynced: bool, mark: Path -> string)
    requires Injective(RenamedKeys(rows, from, to, mark))
    requires ROOT !in rows && to != ROOT
    ensures ROOT !in RenamedRows(rows, from, to, rootDirty, updateSynced, mark)
  {
    if ROOT in RenamedRows(rows, from, to, rootDirty, updateSynced, mark) {
      var k := RenamedRowFrom(rows, from, to, rootDirty, updateSynced, mark, ROOT);
      if Within(k, from) {
        RebaseLands(k, from, to);
      }
    }
  }

  lemma RenameKeepsCoupling(w: World, from: Path, to: Path, mark: Path -> string, db: Db)
    requires Coupled(w) && Apart(from, to) && Live(w.db.rows, from) && IsFolder(w.disk, Parent(to))
    requires !Reserved(to) && to != ROOT
    requires FreshMarks(w.db.rows, from, to, mark) && Injective(RenamedKeys(w.db.rows, from, to, mark))
    requires db.rows == RenamedRows(w.db.rows, from, to, true, false, mark)
    ensures Coupled(World(db, MoveTree(w.disk, from, to)))
  {
    var rows, d, rows', d' := w.db.rows, w.disk, db.rows, MoveTree(w.disk, from, to);
    TreeMoved(d, from, to);
    NoRootRow(rows, from, to, true, false, mark);
    forall j | j != ROOT
      ensures Live(rows', j) ==> !Reserved(j) && j in d' && (IsDir(rows'[j].kind) <==> d'[j].Dir?)
      ensures j in d' && !Reserved(j) ==> Live(rows', j)
    {
      LiveRowsMoved(rows, from, to, true, false, mark, j);
      MoveTreeAt(d, from, to);
      if Within(j, to) {
        RebaseLands(j, to, from);
        CoupledBelow(w, Rebase(j, to, from), from);
      } else {
        assert j in d' <==> j in d && !Within(j, from);
      }
    }
  }

  /** Below a live folder or file, rows and mirror agree at every path. */
  lemma CoupledBelow(w: World, p: Path, from: Path)
    requires Coupled(w) && Within(p, from) && Live(w.db.rows, from)
    ensures p != ROOT && !Reserved(p)
    ensures p in w.disk <==> Live(w.db.rows, p)
    ensures p in w.disk ==> (IsDir(w.db.rows[p].kind) <==> w.disk[p].Dir?)
  {
    assert Reserved(p) ==> from == p || from == ROOT;
  }

  lemma VisibleMoved(d: Disk, from: Path, to: Path)
    requires Apart(from, to) && !Reserved(from) && !Reserved(to) && to != ROOT && from != ROOT
    ensures Renamed(Visible(d), from, to, Visible(MoveTree(d, from, to)))
  {
    MoveTreeAt(d, from, to);
    var t, t' := Visible(d), Visible(MoveTree(d, from, to));
    forall j
      ensures j in t' <==> if Within(j, to) then Rebase(j, to, from) in t else j in t && !Within(j, from)
      ensures j in t' ==> t'[j] == if Within(j, to) then t[Rebase(j, to, from)] else t[j]
    {
      if Within(j, to) {
        RebaseLands(j, to, from);
        assert !Reserved(j) && !Reserved(Rebase(j, to, from)) by {
          NotReservedBelow(j, to);
          NotReservedBelow(Rebase(j, to, from), from);
        }
      }
    }
  }

  lemma NotReservedBelow(p: Path, q: Path)
    requires Within(p, q) && q != ROOT && !Reserved(q)
    ensures !Reserved(p)
  {
    assert Reserved(p) ==> p == q;
  }

  /** The checks of rename about the mount's own rules are those rules. */
  lemma RenamePermitted(cfg: Config, w: World, from: Path, to: Path)
    requires from != to
    ensures Permitted(cfg, w, RenameCall(from, to)) <==>
              && CheckMutation(cfg, from).None? && CheckMutation(cfg, to).None? && CheckName(to).None?
              && (Live(w.db.rows, from) && IsDir(w.db.rows[from].kind) ==> !SubtreeBlocked(cfg, w.db.rows, from, to))
  {
    forall k ensures CheckMutation(cfg, k).None? <==> MayChange(cfg, k) {
    }
  }

  lemma RenameVerdict(cfg: Config, w: World, from: Path, to: Path)
    requires Coupled(w) && from != to
    ensures CheckRename(cfg, w, from, to).None? <==>
              Permitted(cfg, w, RenameCall(from, to)) && MayRename(Visible(w.disk), from, to)
    ensures CheckRename(cfg, w, from, to).None? ==>
              && Live(w.db.rows, from) && IsFolder(w.disk, Parent(to)) && !Reserved(to) && to != ROOT
    ensures CheckRename(cfg, w, from, to).Some? ==>
              Justified(cfg, w, Visible(w.disk), RenameCall(from, to), CheckRename(cfg, w, from, to).value)
  {
    RenamePermitted(cfg, w, from, to);
    if CheckMutation(cfg, from).None? && CheckMutation(cfg, to).None? && CheckName(to).None? && from != ROOT {
      CoupledAt(w, from);
      CoupledAt(w, to);
      ParentNotReservedFolder(w, to);
      if to in w.disk {
        EmptyFolder(w.disk, to);
      }
    }
  }

  lemma AcceptedRename(cfg: Config, w: World, from: Path, to: Path, env: Env)
    requires Coupled(w) && FreshEnv(w, RenameCall(from, to), env)
    requires CheckRename(cfg, w, from, to).None? && from != to
    ensures Apart(from, to) && FreshMarks(w.db.rows, from, to, env.mark)
    ensures var db := RenameTree(w.db, from, to, true, false, env.mark);
            Rename(cfg, w, from, to, env) ==
            Done(World(db.(ops := QueueOp(db.ops, RenameOp, from, Some(to))), MoveTree(w.disk, from, to)))
  {
    AcceptedRenameIsApart(cfg, w, from, to);
    RenameVerdict(cfg, w, from, to);
    AcceptedRenameOnDisk(w, from, to);
  }

  lemma RenameRefines(cfg: Config, w: World, from: Path, to: Path, env: Env)
    requires Coupled(w) && FreshEnv(w, RenameCall(from, to), env)
    ensures Refines(cfg, w, RenameCall(from, to), env, Rename(cfg, w, from, to, env))
  {
    if from != to {
      RenameVerdict(cfg, w, from, to);
      if CheckRename(cfg, w, from, to).None? {
        AcceptedRename(cfg, w, from, to, env);
        RenamedKeysDistinct(w.db.rows, from, to, env.mark);
        assert from in Subtree(w.db.rows, from);
        RenameKeepsCoupling(w, from, to, env.mark, Rename(cfg, w, from, to, env).world.db);
        VisibleMoved(w.disk, from, to);
      }
    }
  }

  // ---- every call, every run --------------------------------------------------------------------

  /** Whatever the call, the outcome is the one POSIX describes, a refused call changes
      nothing at all, and rows and mirror still agree. */
  lemma EveryCallRefines(cfg: Config, w: World, call: Call, env: Env)
    requires Coupled(w) && FreshEnv(w, call, env) && OnLiveFile(w, call)
    ensures Refines(cfg, w, call, env, Exec(cfg, w, call, env))
  {
    match call
    case CreateCall(p) => CreateRefines(cfg, w, p, env);
    case MkdirCall(p) => MkdirRefines(cfg, w, p, env);
    case WriteCall(p, offset, data) => WriteRefines(cfg, w, p, offset, data, env);
    case TruncateCall(p, len) => TruncateRefines(cfg, w, p, len, env);
    case SetMtimeCall(p, mtime) => SetMtimeRefines(cfg, w, p, mtime, env);
    case UnlinkCall(p) => UnlinkRefines(cfg, w, p, env);
    case RmdirCall(p) => RmdirRefines(cfg, w, p, env);
    case RenameCall(from, to) => RenameRefines(cfg, w, from, to, env);
  }

  const EMPTY_MOUNT: World := World(Db(map[], [], map[]), map[ROOT := Dir])

  const OPEN_CONFIG := Config(false, true, SyncPolicy(None, []))

  /** On an empty mount a name that is not there is renamed to itself, and unlinking the root is
      answered as if it were missing. */
  lemma LenientCalls(env: Env)
    ensures Coupled(EMPTY_MOUNT) && ["x"] !in Visible(EMPTY_MOUNT.disk)
    ensures Rename(OPEN_CONFIG, EMPTY_MOUNT, ["x"], ["x"], env) == Done(EMPTY_MOUNT)
    ensures ROOT in Visible(EMPTY_MOUNT.disk) && Unlink(OPEN_CONFIG, EMPTY_MOUNT, ROOT) == Fail(EMPTY_MOUNT, ENOENT)
  {
    assert !Reserved(["x"]) by {
      assert "x"[0] != TRACKER_IGNORE[0];
    }
    assert Utf8Length("x") == 1 + Utf8Length("x"[1..]);
    assert IsValidName("x");
  }

  datatype Step = Step(call: Call, env: Env)

  /** A run: each call is made with fresh markers, writes going to files that exist. */
  ghost predicate IsRun(cfg: Config, w: World, steps: seq<Step>)
    requires Coupled(w)
    decreases |steps|
  {
    steps != [] ==>
      && FreshEnv(w, steps[0].call, steps[0].env) && OnLiveFile(w, steps[0].call)
      && (EveryCallRefines(cfg, w, steps[0].call, steps[0].env);
          IsRun(cfg, Exec(cfg, w, steps[0].call, steps[0].env).world, steps[1..]))
  }

  ghost function After(cfg: Config, w: World, steps: seq<Step>): World
    requires Coupled(w) && IsRun(cfg, w, steps)
    decreases |steps|
  {
    if steps == [] then w
    else
      EveryCallRefines(cfg, w, steps[0].call, steps[0].env);
      After(cfg, Exec(cfg, w, steps[0].call, steps[0].env).world, steps[1..])
  }

  /** The runs of the reference tree: each call is accepted or refused as `Refines` says. */
  ghost predicate PosixRun(cfg: Config, w: World, steps: seq<Step>, t: FileTree)
    requires Coupled(w) && IsRun(cfg, w, steps)
    decreases |steps|
  {
    if steps == [] then Visible(w.disk) == t
    else
      var o := Exec(cfg, w, steps[0].call, steps[0].env);
      && Refines(cfg, w, steps[0].call, steps[0].env, o)
      && PosixRun(cfg, o.world, steps[1..], t)
  }

  /** Over every run the mirror has a file or folder exactly where a live row of that kind
      is, and every step is a POSIX step. */
  lemma {:induction false} EveryRunRefines(cfg: Config, w: World, steps: seq<Step>)
    requires Coupled(w) && IsRun(cfg, w, steps)
    ensures Coupled(After(cfg, w, steps))
    ensures PosixRun(cfg, w, steps, Visible(After(cfg, w, steps).disk))
    decreases |steps|
  {
    if steps != [] {
      EveryCallRefines(cfg, w, steps[0].call, steps[0].env);
      EveryRunRefines(cfg, Exec(cfg, w, steps[0].call, steps[0].env).world, steps[1..]);
    }
  }
}
