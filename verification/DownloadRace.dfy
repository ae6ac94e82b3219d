/** Downloads running beside listings, local changes and edits on other devices.  A download
    remembers the identity and version it is for, stages the bytes without touching the
    mirror, and in one last step checks that they are still wanted and puts them in place. */
module DownloadRace {
  import opened Paths
  import opened Tables
  import opened Files
  import opened Search
  import opened FsSpec
  import opened Listing
  import C = Conflicts
  import Crawl
  import FsPosix

  /** Every change to an item on iCloud makes a new version; `history[id][v]` is the content
      of version `v`. */
  type History = map<string, seq<Bytes>>

  /** A download holds the lock of its path, so there is one at most. */
  datatype Download = Asked(id: string, etag: Option<string>) | Staged(id: string, etag: Option<string>, data: Bytes)

  datatype Race = Race(world: World, history: History, downloads: map<Path, Download>)

  datatype Step =
    | RemoteEdit(id: string, bytes: Bytes)
    | ListItem(path: Path, node: RemoteNode, version: nat, env: RemoteEnv)
    | SweepAway(doomed: set<Path>)
    | SweepCrawled(dead: set<Path>, vanished: set<Path>, orphans: set<Path>)
    | CreateLocal(p: Path, mtime: int, mark: string)
    | WriteLocal(p: Path, bytes: Bytes, mtime: int)
    | TouchLocal(p: Path, mtime: int)
    | DeleteLocal(p: Path)
    | RenameLocal(p: Path, to: Path, marks: Path -> string)
    | StartDownload(p: Path)
    | Fetch(p: Path)
    | FinishDownload(p: Path)
    | AbortDownload(p: Path)

  function Etag(version: nat): Option<string> {
    Some("e" + Decimal(version))
  }

  // ---- what the bytes in the mirror stand for ---------------------------------------------

  /** `etag` is a version of `id`. */
  ghost predicate IsVersion(h: History, id: string, etag: Option<string>) {
    id in h && exists v: nat :: v < |h[id]| && etag == Etag(v)
  }

  /** `bytes` are the content of `id` at the version `etag` names, or a later one. */
  ghost predicate NoOlder(h: History, id: string, etag: Option<string>, bytes: Bytes) {
    id in h && exists v: nat, u: nat :: v <= u < |h[id]| && etag == Etag(v) && h[id][u] == bytes
  }

  /** A live file row that has an identity names a version of it, and if its content is here
      and nobody changed it, the mirror's bytes are that version or a later one. */
  ghost predicate Good(w: World, h: History, q: Path)
    requires q in w.db.rows
  {
    var r := w.db.rows[q];
    && (r.tombstone ==> r.dirty)
    && (r.kind == File && !r.tombstone && r.remoteId.Some? ==> GoodFile(w, h, q))
  }

  ghost predicate GoodFile(w: World, h: History, q: Path)
    requires q in w.db.rows && w.db.rows[q].remoteId.Some?
  {
    var r := w.db.rows[q];
    && IsVersion(h, r.remoteId.value, r.etag)
    && (r.hydrated && !PendingContent(w.db.ops, q) ==>
          IsFile(w.disk, q) && NoOlder(h, r.remoteId.value, r.etag, w.disk[q].bytes))
  }

  ghost predicate DownloadGood(h: History, d: Download) {
    match d
    case Asked(id, etag) => IsVersion(h, id, etag)
    case Staged(id, etag, data) => NoOlder(h, id, etag, data)
  }

  ghost predicate Invariant(r: Race) {
    && Untargeted(r.world.db.ops) && ROOT !in r.world.db.rows
    && (forall q :: q in r.world.db.rows ==> Good(r.world, r.history, q))
    && (forall p :: p in r.downloads ==> DownloadGood(r.history, r.downloads[p]))
  }

  // ---- steps --------------------------------------------------------------------------------

  /** The item has not moved on iCloud nor changed its kind. */
  predicate Listable(w: World, path: Path, node: RemoteNode, env: RemoteEnv) {
    var known := FindById(w.db.rows, node.id, env);
    known.Some? ==> DirtyAt(w, known.value) || (known.value == path && w.db.rows[path].kind == node.kind)
  }

  predicate NeedsContent(w: World, p: Path) {
    && p in w.db.rows && w.db.rows[p].kind == File && !w.db.rows[p].tombstone
    && !(w.db.rows[p].hydrated && p in w.disk) && w.db.rows[p].remoteId.Some?
  }

  /** The staged bytes are still wanted: nobody wrote the file, and the row is live and names
      the identity and version they were fetched for. */
  predicate StillWanted(w: World, p: Path, d: Download) {
    && !PendingContent(w.db.ops, p) && p in w.db.rows && !w.db.rows[p].tombstone
    && w.db.rows[p].remoteId == Some(d.id) && w.db.rows[p].etag == d.etag
  }

  ghost predicate Enabled(r: Race, s: Step) {
    var w := r.world;
    match s
    case RemoteEdit(_, _) => true
    // iCloud's answer may be old by the time it is applied, but it was true once.  Applying it may
    // fail half way; the step is then what had been done.
    case ListItem(path, node, version, env) =>
      && node.id in r.history && version < |r.history[node.id]|
      && node.etag == Etag(version) && node.size == |r.history[node.id][version]|
      && path != ROOT && FreshFor(w, path, node, env) && Listable(w, path, node, env)
    case SweepAway(_) => true
    // The crawl's sweep decides from rows it read earlier.
    case SweepCrawled(_, _, _) => true
    case CreateLocal(p, _, mark) =>
      p != ROOT && !Live(w.db.rows, p) && FreshGrave(w.db.rows, p, mark) && !IsFolder(w.disk, p)
    case WriteLocal(p, _, _) => Live(w.db.rows, p) && (w.db.rows[p].hydrated || w.db.rows[p].remoteId.None?)
    case TouchLocal(p, _) => Live(w.db.rows, p)
    case DeleteLocal(p) => Live(w.db.rows, p)
    case RenameLocal(p, to, marks) => Live(w.db.rows, p) && Apart(p, to) && FreshMarks(w.db.rows, p, to, marks)
    case StartDownload(p) => p !in r.downloads && NeedsContent(w, p)
    case Fetch(p) =>
      && p in r.downloads && r.downloads[p].Asked?
      && r.downloads[p].id in r.history && r.history[r.downloads[p].id] != []
    case FinishDownload(p) => p in r.downloads && r.downloads[p].Staged?
    case AbortDownload(p) => p in r.downloads
  }

  ghost function Next(r: Race, s: Step): Race
    requires Enabled(r, s)
  {
    var w := r.world;
    match s
    case RemoteEdit(id, bytes) =>
      r.(history := r.history[id := (if id in r.history then r.history[id] else []) + [bytes]])
    case ListItem(path, node, _, env) => r.(world := ApplyItem(w, path, node, env).world)
    case SweepAway(doomed) => r.(world := Swept(w, doomed))
    case SweepCrawled(dead, vanished, orphans) => r.(world := Crawl.SweptRemote(w, dead, vanished, orphans))
    case CreateLocal(p, mtime, mark) => r.(world := Created(w, p, mtime, mark))
    case WriteLocal(p, bytes, mtime) => r.(world := Written(w, p, bytes, mtime))
    case TouchLocal(p, mtime) => r.(world := Touched(w, p, mtime))
    case DeleteLocal(p) => r.(world := World(Forget(w.db, p), w.disk - {p}))
    case RenameLocal(p, to, marks) => r.(world := Moved(w, p, to, marks))
    case StartDownload(p) =>
      r.(downloads := r.downloads[p := Asked(w.db.rows[p].remoteId.value, w.db.rows[p].etag)])
    case Fetch(p) =>
      var d := r.downloads[p];
      r.(downloads := r.downloads[p := Staged(d.id, d.etag, r.history[d.id][|r.history[d.id]| - 1])])
    case FinishDownload(p) => r.(world := Finished(w, p, r.downloads[p]), downloads := r.downloads - {p})
    case AbortDownload(p) => r.(downloads := r.downloads - {p})
  }

  function Created(w: World, p: Path, mtime: int, mark: string): World {
    var file := if IsFile(w.disk, p) then w.disk[p] else Data([], mtime);
    World(w.db.(rows := BuryTombstone(w.db.rows, p, mark)[p := LocalRow(p, File, mtime)],
                ops := QueueOp(w.db.ops, CreateOp, p, None)),
          w.disk[p := file])
  }

  function Written(w: World, p: Path, bytes: Bytes, mtime: int): World {
    World(w.db.(rows := MarkDirty(w.db.rows, p, Some(|bytes|), Some(mtime), Some(true)),
                ops := QueueOp(w.db.ops, UpdateOp, p, None)),
          w.disk[p := Data(bytes, mtime)])
  }

  function Touched(w: World, p: Path, mtime: int): World {
    World(w.db.(rows := MarkDirty(w.db.rows, p, None, Some(mtime), None)), Files.SetMtime(w.disk, p, mtime))
  }

  ghost function Moved(w: World, p: Path, to: Path, mark: Path -> string): World
    requires Apart(p, to) && FreshMarks(w.db.rows, p, to, mark)
  {
    var db := RenameTree(w.db, p, to, true, false, mark);
    World(db.(ops := QueueOp(db.ops, RenameOp, p, Some(to))), MoveTree(w.disk, p, to))
  }

  function Finished(w: World, p: Path, d: Download): World
    requires d.Staged?
  {
    if !StillWanted(w, p, d) then w
    else
      var mtime := ClampTime(w.db.rows[p].mtime);
      match Commit(w.disk, p, d.data, w.db.rows[p].mtime)
      case Err(_) => w
      case Ok(disk) => World(w.db.(rows := MarkHydrated(w.db.rows, p, |d.data|, mtime)), disk)
  }

  // ---- each step keeps the invariant ------------------------------------------------------------

  lemma LaterHistory(h: History, h': History, id: string, etag: Option<string>, bytes: Bytes)
    requires id in h ==> id in h' && h[id] <= h'[id]
    ensures IsVersion(h, id, etag) ==> IsVersion(h', id, etag)
    ensures NoOlder(h, id, etag, bytes) ==> NoOlder(h', id, etag, bytes)
  {
    if NoOlder(h, id, etag, bytes) {
      var v: nat, u: nat :| v <= u < |h[id]| && etag == Etag(v) && h[id][u] == bytes;
      assert h'[id][u] == bytes;
    }
  }

  /** A row that keeps its identity, version and hydration, with its file kept and its content
      operations not fewer, stays good. */
  lemma Undisturbed(w: World, w': World, h: History, q: Path, q': Path)
    requires q in w.db.rows && Good(w, h, q) && q' in w'.db.rows
    requires var r, r' := w.db.rows[q], w'.db.rows[q'];
             && r'.kind == r.kind && r'.tombstone == r.tombstone && r'.remoteId == r.remoteId && r'.etag == r.etag
             && (r'.hydrated ==> r.hydrated) && (r.dirty ==> r'.dirty)
    requires PendingContent(w.db.ops, q) ==> PendingContent(w'.db.ops, q')
    requires IsFile(w.disk, q) ==> IsFile(w'.disk, q') && w'.disk[q'].bytes == w.disk[q].bytes
    ensures Good(w', h, q')
  {
  }

  /** Dropping operations that name other paths keeps this one's content operations. */
  lemma PendingKept(ops: seq<Op>, keep: Op -> bool, q: Path)
    requires Untargeted(ops) && forall o: Op :: o.path == q && o.target.None? ==> keep(o)
    ensures PendingContent(ops, q) ==> PendingContent(KeepOps(ops, keep), q)
    ensures Untargeted(KeepOps(ops, keep))
  {
    if PendingContent(ops, q) {
      var o :| o in ops && o.path == q && o.kind in {CreateOp, UpdateOp, ConflictCopyOp};
      assert keep(o) && o in KeepOps(ops, keep);
    }
  }

  lemma QueueKeeps(ops: seq<Op>, kind: OpKind, p: Path, target: Option<Path>, q: Path)
    requires Untargeted(ops) && (kind == RenameOp || target.None?) && (kind == DeleteOp ==> q != p)
    ensures PendingContent(ops, q) ==> PendingContent(QueueOp(ops, kind, p, target), q)
    ensures Untargeted(QueueOp(ops, kind, p, target))
  {
    if kind == DeleteOp {
      PendingKept(ops, (o: Op) => o.path != p, q);
    }
  }

  lemma EditKeeps(r: Race, id: string, bytes: Bytes)
    requires Invariant(r)
    ensures Invariant(Next(r, RemoteEdit(id, bytes)))
  {
    var h, h' := r.history, Next(r, RemoteEdit(id, bytes)).history;
    forall q | q in r.world.db.rows ensures Good(r.world, h', q) {
      assert Good(r.world, h, q);
      var row := r.world.db.rows[q];
      if row.remoteId.Some? {
        var bytes := if IsFile(r.world.disk, q) then r.world.disk[q].bytes else [];
        LaterHistory(h, h', row.remoteId.value, row.etag, bytes);
      }
    }
    forall p | p in r.downloads ensures DownloadGood(h', r.downloads[p]) {
      assert DownloadGood(h, r.downloads[p]);
      var d := r.downloads[p];
      LaterHistory(h, h', d.id, d.etag, if d.Staged? then d.data else []);
    }
  }

  /** Every row of `w'` is good. */
  ghost predicate AllGood(w: World, h: History) {
    Untargeted(w.db.ops) && forall q :: q in w.db.rows ==> Good(w, h, q)
  }

  lemma CreateKeeps(w: World, h: History, p: Path, mtime: int, mark: string)
    requires !Live(w.db.rows, p) && AllGood(w, h) && FreshGrave(w.db.rows, p, mark)
    ensures AllGood(Created(w, p, mtime, mark), h)
  {
    var w' := Created(w, p, mtime, mark);
    QueueKeeps(w.db.ops, CreateOp, p, None, p);
    forall q | q in w'.db.rows ensures Good(w', h, q) {
      if q != p && q in w.db.rows {
        QueueKeeps(w.db.ops, CreateOp, p, None, q);
        Undisturbed(w, w', h, q, q);
      }
    }
  }

  lemma WriteKeeps(w: World, h: History, p: Path, bytes: Bytes, mtime: int)
    requires AllGood(w, h) && Live(w.db.rows, p)
    ensures AllGood(Written(w, p, bytes, mtime), h)
  {
    var w' := Written(w, p, bytes, mtime);
    UpdateQueued(w.db.ops, p);
    QueueKeeps(w.db.ops, UpdateOp, p, None, p);
    forall q | q in w'.db.rows ensures Good(w', h, q) {
      if q != p {
        QueueKeeps(w.db.ops, UpdateOp, p, None, q);
        Undisturbed(w, w', h, q, q);
      } else {
        assert Good(w, h, p);
      }
    }
  }

  lemma TouchKeeps(w: World, h: History, p: Path, mtime: int)
    requires AllGood(w, h) && Live(w.db.rows, p)
    ensures AllGood(Touched(w, p, mtime), h)
  {
    var w' := Touched(w, p, mtime);
    forall q | q in w'.db.rows ensures Good(w', h, q) {
      Undisturbed(w, w', h, q, q);
    }
  }

  lemma DeleteKeeps(w: World, h: History, p: Path)
    requires AllGood(w, h) && Live(w.db.rows, p)
    ensures AllGood(World(Forget(w.db, p), w.disk - {p}), h)
  {
    var w' := World(Forget(w.db, p), w.disk - {p});
    ForgetOps(w.db, p, []);
    forall q | q in w'.db.rows ensures Good(w', h, q) {
      if q != p {
        ForgetOps(w.db, p, q);
        Undisturbed(w, w', h, q, q);
      }
    }
  }

  lemma ForgetOps(db: Db, p: Path, q: Path)
    requires Untargeted(db.ops) && p in db.rows
    ensures Untargeted(Forget(db, p).ops)
    ensures q != p && q in Forget(db, p).rows ==> (PendingContent(db.ops, q) ==> PendingContent(Forget(db, p).ops, q))
  {
    if db.rows[p].remoteId.Some? {
      if q != p {
        QueueKeeps(db.ops, DeleteOp, p, None, q);
      } else {
        QueueKeeps(db.ops, DeleteOp, p, None, p + [""]);
      }
    } else if IsDir(db.rows[p].kind) {
      if !Within(q, p) {
        PendingKept(db.ops, (o: Op) => !MentionsBelow(o, p), q);
      } else {
        assert forall o :: o in KeepOps(db.ops, (o: Op) => !MentionsBelow(o, p)) ==> o in db.ops;
      }
    } else {
      if q != p {
        PendingKept(db.ops, (o: Op) => !Mentions(o, p), q);
      } else {
        assert forall o :: o in KeepOps(db.ops, (o: Op) => !Mentions(o, p)) ==> o in db.ops;
      }
    }
  }

  lemma SweepKeeps(w: World, h: History, doomed: set<Path>)
    requires AllGood(w, h)
    ensures AllGood(Swept(w, doomed), h)
  {
    var w' := Swept(w, doomed);
    forall q | q in w'.db.rows ensures Good(w', h, q) {
      PendingKept(w.db.ops, (o: Op) => !MentionsBelowAny(o, doomed), q);
      Undisturbed(w, w', h, q, q);
    }
    assert forall o :: o in w'.db.ops ==> o in w.db.ops;
  }

  lemma CrawlSweepKeeps(w: World, h: History, dead: set<Path>, vanished: set<Path>, orphans: set<Path>)
    requires AllGood(w, h)
    ensures AllGood(Crawl.SweptRemote(w, dead, vanished, orphans), h)
  {
    var w' := Crawl.SweptRemote(w, dead, vanished, orphans);
    var removed := dead + vanished;
    BelowMore(vanished, dead);
    forall q | q in w'.db.rows ensures Good(w', h, q) {
      if q !in orphans {
        PendingKept(w.db.ops, (o: Op) => !MentionsBelowAny(o, removed), q);
        Undisturbed(w, w', h, q, q);
      }
    }
    assert forall o :: o in w'.db.ops ==> o in w.db.ops;
  }

  lemma BelowMore(vanished: set<Path>, dead: set<Path>)
    ensures forall q :: BelowAny(q, vanished) ==> BelowAny(q, dead + vanished)
  {
  }

  lemma FinishKeeps(w: World, h: History, p: Path, d: Download)
    requires AllGood(w, h) && d.Staged? && DownloadGood(h, d)
    ensures AllGood(Finished(w, p, d), h)
  {
    var w' := Finished(w, p, d);
    if StillWanted(w, p, d) {
      forall q | q in w'.db.rows ensures Good(w', h, q) {
        assert Good(w, h, q);
        CommitElsewhere(w.disk, p, d.data, w.db.rows[p].mtime, q);
      }
    }
  }

  lemma CommitElsewhere(d: Disk, p: Path, data: Bytes, mtime: int, q: Path)
    ensures var c := Commit(d, p, data, mtime);
            c.Ok? ==>
              && IsFile(c.value, p) && c.value[p].bytes == data
              && (q != p && IsFile(d, q) ==> IsFile(c.value, q) && c.value[q] == d[q])
  {
  }

  // ---- moves ---------------------------------------------------------------------------------

  lemma RetargetKeeps(ops: seq<Op>, from: Path, to: Path, q: Path)
    requires Untargeted(ops)
    ensures var ops' := RenamedOps(ops, from, to);
            && Untargeted(ops')
            && (PendingContent(ops, q) ==> PendingContent(ops', if Within(q, from) then Rebase(q, from, to) else q))
  {
    var ops' := RenamedOps(ops, from, to);
    if PendingContent(ops, q) {
      var o :| o in ops && o.path == q && o.kind in {CreateOp, UpdateOp, ConflictCopyOp};
      var i :| 0 <= i < |ops| && ops[i] == o;
      assert ops'[i] == RenamedOp(o, from, to);
    }
  }

  lemma MoveKeeps(w: World, h: History, p: Path, to: Path, mark: Path -> string)
    requires AllGood(w, h) && p in w.db.rows && Apart(p, to) && FreshMarks(w.db.rows, p, to, mark)
    ensures AllGood(Moved(w, p, to, mark), h)
  {
    var w' := Moved(w, p, to, mark);
    assert p in Subtree(w.db.rows, p);
    RenamedKeysDistinct(w.db.rows, p, to, mark);
    RenamedRowsAt(w.db.rows, p, to, true, false, mark);
    MoveOps(w, p, to, mark, p);
    forall j | j in w'.db.rows ensures Good(w', h, j) {
      var k :| k in w.db.rows && Survives(k, w.db.rows[k], to) && RenamedKey(k, p, to, mark) == j;
      MovedRowGood(w, h, p, to, mark, k);
    }
  }

  lemma MoveOps(w: World, p: Path, to: Path, mark: Path -> string, q: Path)
    requires Untargeted(w.db.ops) && Apart(p, to) && FreshMarks(w.db.rows, p, to, mark) && Subtree(w.db.rows, p) != {}
    ensures var ops' := Moved(w, p, to, mark).db.ops;
            && Untargeted(ops')
            && (PendingContent(w.db.ops, q) ==> PendingContent(ops', if Within(q, p) then Rebase(q, p, to) else q))
  {
    RetargetKeeps(w.db.ops, p, to, q);
    QueueKeeps(RenamedOps(w.db.ops, p, to), RenameOp, p, Some(to), if Within(q, p) then Rebase(q, p, to) else q);
  }

  lemma MovedRowGood(w: World, h: History, p: Path, to: Path, mark: Path -> string, k: Path)
    requires AllGood(w, h) && Apart(p, to) && FreshMarks(w.db.rows, p, to, mark) && Subtree(w.db.rows, p) != {}
    requires k in w.db.rows && Survives(k, w.db.rows[k], to)
    requires RenamedKey(k, p, to, mark) in Moved(w, p, to, mark).db.rows
    requires Moved(w, p, to, mark).db.rows[RenamedKey(k, p, to, mark)] ==
             RenamedRow(k, w.db.rows[k], p, to, true, false)
    ensures Good(Moved(w, p, to, mark), h, RenamedKey(k, p, to, mark))
  {
    if Within(k, p) || !Within(k, to) {
      var j := RenamedKey(k, p, to, mark);
      MoveOps(w, p, to, mark, k);
      MoveTreeAt(w.disk, p, to);
      if Within(k, p) {
        RebaseLands(k, p, to);
      }
      Undisturbed(w, Moved(w, p, to, mark), h, k, j);
    }
  }

  // ---- listings ----------------------------------------------------------------------------

  lemma AppendKeeps(ops: seq<Op>, more: seq<Op>, q: Path)
    requires Untargeted(ops) && forall o :: o in more ==> o.target.None?
    ensures Untargeted(ops + more) && (PendingContent(ops, q) ==> PendingContent(ops + more, q))
  {
    if PendingContent(ops, q) {
      var o :| o in ops && o.path == q && o.kind in {CreateOp, UpdateOp, ConflictCopyOp};
      assert o in ops + more;
    }
  }

  /** Moving a file system subtree aside, making folders on the way, leaves other files alone. */
  lemma AsideElsewhere(d: Disk, p: Path, c: Path, q: Path)
    requires RenameDisk(d, p, c).Ok? && !Within(q, p) && q != c && IsFile(d, q)
    ensures IsFile(RenameDisk(d, p, c).value, q) && RenameDisk(d, p, c).value[q] == d[q]
  {
    var d' := CreateDirAll(d, Parent(c)).value;
    MoveTreeAt(d', p, c);
    assert p != c && Within(q, c) ==> HasChild(d', c);
  }

  /** A row of `rows'` is one of `rows` from outside `p`, or a detached copy at or below `c`. */
  predicate CameThrough(rows: Rows, rows': Rows, p: Path, c: Path, q: Path) {
    && (q in rows' && rows'[q].remoteId.Some? ==> !Within(q, p) && q in rows && rows'[q] == rows[q])
    && (q in rows && !Within(q, p) ==> q in rows' && rows'[q] == rows[q] && q != c)
    && (q in rows' && Within(q, p) ==> p == c)
    && (q in rows' && q !in rows ==> Within(q, c))
    && (q in rows' ==> rows'[q].remoteId.Some? || rows'[q].dirty || (q in rows && rows'[q] == rows[q]))
  }

  lemma DetachedCame(rows: Rows, p: Path, c: Path, q: Path)
    requires p in rows && (Apart(p, c) || p == c) && !Clash(rows, p, c)
    ensures CameThrough(rows, DetachedRows(rows, p, c), p, c, q)
  {
    if p == c {
      DetachedRowsHere(rows, p);
    } else {
      DetachedRowAt(rows, p, c, q);
      LandedCame(rows, DetachedRows(rows, p, c), p, c, q);
    }
  }

  lemma LandedCame(rows: Rows, rows': Rows, p: Path, c: Path, q: Path)
    requires p in rows && Apart(p, c) && !Clash(rows, p, c)
    requires q in rows' <==> Landed(rows, p, c, q) || (q in rows && !Within(q, p))
    requires q in rows' ==> rows'[q] == if Landed(rows, p, c, q)
                                        then Detached(rows[Rebase(q, c, p)]).(parentPath := Parent(q)) else rows[q]
    ensures CameThrough(rows, rows', p, c, q)
  {
    RebaseLands(p, p, c);
    if Within(q, c) {
      RebaseLands(q, c, p);
      ApartBelow(q, c, p);
    }
  }

  /** The rows a resolved conflict leaves. */
  lemma ResolvedRow(w: World, p: Path, env: RemoteEnv, q: Path)
    requires p in w.db.rows && p != ROOT && ResolveConflict(w, p, env).ok
    ensures CameThrough(w.db.rows, ResolveConflict(w, p, env).world.db.rows, p, ConflictPath(w, p, env.stamp(p)), q)
  {
    ConflictPathIsBeside(w, p, env.stamp(p));
    DetachedCame(w.db.rows, p, ConflictPath(w, p, env.stamp(p)), q);
  }

  /** Exactly the copies at or below the conflict path get an operation. */
  lemma ResolvedOps(w: World, p: Path, env: RemoteEnv, q: Path)
    requires Untargeted(w.db.ops) && ResolveConflict(w, p, env).ok
    ensures var c, db' := ConflictPath(w, p, env.stamp(p)), ResolveConflict(w, p, env).world.db;
            && Untargeted(db'.ops)
            && (PendingContent(db'.ops, q) <==> PendingContent(w.db.ops, q) || (q in db'.rows && Within(q, c)))
  {
    var c, db' := ConflictPath(w, p, env.stamp(p)), ResolveConflict(w, p, env).world.db;
    var keys := Subtree(db'.rows, c);
    var copies := env.order(keys);
    assert IsListing(copies, keys);
    AppendKeeps(w.db.ops, CopyOps(copies), q);
    if q in keys {
      var i :| 0 <= i < |copies| && copies[i] == q;
      assert CopyOps(copies)[i] == Op(ConflictCopyOp, q, None);
      assert Op(ConflictCopyOp, q, None) in db'.ops;
    }
    if PendingContent(db'.ops, q) && !PendingContent(w.db.ops, q) {
      var o :| o in db'.ops && o.path == q && o.kind in {CreateOp, UpdateOp, ConflictCopyOp};
      assert o in CopyOps(copies);
      var i :| 0 <= i < |copies| && CopyOps(copies)[i] == o;
      assert copies[i] == q;
    }
  }

  lemma ResolveKeeps(w: World, h: History, p: Path, env: RemoteEnv)
    requires AllGood(w, h) && p in w.db.rows && p != ROOT && ResolveConflict(w, p, env).ok
    ensures AllGood(ResolveConflict(w, p, env).world, h)
  {
    var c, w' := ConflictPath(w, p, env.stamp(p)), ResolveConflict(w, p, env).world;
    ResolvedOps(w, p, env, p);
    forall q | q in w'.db.rows ensures Good(w', h, q) {
      ResolvedRow(w, p, env, q);
      ResolvedOps(w, p, env, q);
      if w'.db.rows[q].remoteId.Some? {
        if p in w.disk && IsFile(w.disk, q) {
          AsideElsewhere(w.disk, p, c, q);
        }
        Undisturbed(w, w', h, q, q);
      } else if q in w.db.rows && w'.db.rows[q] == w.db.rows[q] {
        assert Good(w, h, q);
      }
    }
  }

  /** The listed item names a version of itself, and an empty file needs no download. */
  ghost predicate Reported(h: History, node: RemoteNode) {
    node.id in h && exists v: nat :: v < |h[node.id]| && node.etag == Etag(v) && node.size == |h[node.id][v]|
  }

  lemma EmptyIsCurrent(h: History, node: RemoteNode, bytes: Bytes)
    requires Reported(h, node)
    ensures IsVersion(h, node.id, node.etag)
    ensures node.size == 0 && bytes == [] ==> NoOlder(h, node.id, node.etag, bytes)
  {
    var v: nat :| v < |h[node.id]| && node.etag == Etag(v) && node.size == |h[node.id][v]|;
    assert node.size == 0 ==> h[node.id][v] == [];
  }

  lemma PlacedElsewhere(d: Disk, node: RemoteNode, path: Path, q: Path)
    requires q != path && IsFile(d, q) && (IsDir(node.kind) || !Within(q, path))
    ensures EnsureDir(d, path).Ok? ==> IsFile(EnsureDir(d, path).value, q) && EnsureDir(d, path).value[q] == d[q]
    ensures var p := Placeholder(d, path, node.size, node.modified);
            p.Ok? && !IsDir(node.kind) ==> IsFile(p.value, q) && p.value[q] == d[q]
  {
  }

  /** A downloaded file with an identity that nobody changed: its row claims content. */
  predicate Exposed(w: World, k: Path) {
    && k in w.db.rows && w.db.rows[k].kind == File && !w.db.rows[k].tombstone && w.db.rows[k].remoteId.Some?
    && w.db.rows[k].hydrated && !PendingContent(w.db.ops, k)
  }

  ghost predicate ExposedBelow(w: World, path: Path) {
    exists k :: k != path && Within(k, path) && Exposed(w, k)
  }

  /** Putting a placeholder there, with nothing in the way, takes files of rows away. */
  ghost predicate PlaceholderBares(w: World, path: Path, node: RemoteNode) {
    !IsDir(node.kind) && WayIsClear(w.disk, path) && ExposedBelow(w, path)
  }

  /** Putting a file where rows are cached below takes the files of those rows away. */
  lemma MaterializeExactly(w: World, h: History, path: Path, node: RemoteNode)
    requires AllGood(w, h) && Reported(h, node) && path != ROOT
    ensures AllGood(Materialize(w, path, node).world, h) <==> !PlaceholderBares(w, path, node)
  {
    var a := Materialize(w, path, node);
    ClearWay(w.disk, path);
    EmptyIsCurrent(h, node, []);
    if a.ok {
      forall q | q in a.world.db.rows
        ensures Good(a.world, h, q) <==> IsDir(node.kind) || q == path || !Within(q, path) || !Exposed(w, q)
      {
        if q != path {
          assert Good(w, h, q);
          if IsFile(w.disk, q) && (IsDir(node.kind) || !Within(q, path)) {
            PlacedElsewhere(w.disk, node, path, q);
          }
        }
      }
    }
  }

  // ---- a conflict that cannot be resolved ----------------------------------------------------

  /** The mirror moves the local version and the rows cannot follow: the database rolls back, the
      files do not. */
  ghost predicate Overruns(w: World, p: Path, env: RemoteEnv) {
    var c := ConflictPath(w, p, env.stamp(p));
    p != c && p in w.disk && CanTake(w.disk, p, c) && Clash(w.db.rows, p, c)
  }

  /** Rows and mirror both take the move. */
  ghost predicate Resolvable(w: World, p: Path, env: RemoteEnv) {
    var c := ConflictPath(w, p, env.stamp(p));
    && !Clash(w.db.rows, p, c)
    && (p in w.disk ==> if p == c then WayIsClear(w.disk, c) else CanTake(w.disk, p, c))
  }

  lemma ResolveOutcome(w: World, p: Path, env: RemoteEnv)
    requires p in w.db.rows && p != ROOT
    ensures var c, a := ConflictPath(w, p, env.stamp(p)), ResolveConflict(w, p, env);
            && (a.ok <==> Resolvable(w, p, env))
            && (!a.ok && !Overruns(w, p, env) ==> a.world == w)
            && (Overruns(w, p, env) ==>
                  !a.ok && CreateDirAll(w.disk, Parent(c)).Ok?
                  && a.world == w.(disk := MoveTree(CreateDirAll(w.disk, Parent(c)).value, p, c)))
  {
    var c := ConflictPath(w, p, env.stamp(p));
    ConflictPathIsBeside(w, p, env.stamp(p));
    if p == c {
      DetachedRowsHere(w.db.rows, p);
      ClearWay(w.disk, p);
    } else if p in w.disk {
      RenameTakes(w.disk, p, c);
    }
  }

  /** A downloaded file that the failed move takes from its row: one at or below the old place, or
      one at the new place, unless the bytes put there happen to be recent enough for it. */
  ghost predicate Stranded(w: World, h: History, p: Path, env: RemoteEnv, q: Path) {
    && Exposed(w, q)
    && (Within(q, p)
        || (q == ConflictPath(w, p, env.stamp(p))
            && !(IsFile(w.disk, p)
                 && NoOlder(h, w.db.rows[q].remoteId.value, w.db.rows[q].etag, w.disk[p].bytes))))
  }

  ghost predicate Strands(w: World, h: History, p: Path, env: RemoteEnv) {
    Overruns(w, p, env) && exists q :: Stranded(w, h, p, env, q)
  }

  lemma OverrunAt(w: World, h: History, p: Path, env: RemoteEnv, w': World, q: Path)
    requires q in w.db.rows && Good(w, h, q) && p in w.db.rows && p != ROOT && Overruns(w, p, env)
    requires w' == ResolveConflict(w, p, env).world
    ensures q in w'.db.rows && (Good(w', h, q) <==> !Stranded(w, h, p, env, q))
  {
    var c := ConflictPath(w, p, env.stamp(p));
    ResolveOutcome(w, p, env);
    ConflictPathIsBeside(w, p, env.stamp(p));
    var d' := CreateDirAll(w.disk, Parent(c)).value;
    MoveTreeAt(d', p, c);
    RebaseLands(c, c, p);
    if Exposed(w, q) {
      assert IsFile(w.disk, q) && d'[q] == w.disk[q];
      if Within(q, c) {
        ApartBelow(q, c, p);
        assert q != c ==> HasChild(w.disk, c);
      }
    }
  }

  lemma OverrunExactly(w: World, h: History, p: Path, env: RemoteEnv)
    requires AllGood(w, h) && p in w.db.rows && p != ROOT && Overruns(w, p, env)
    ensures AllGood(ResolveConflict(w, p, env).world, h) <==> !exists q :: Stranded(w, h, p, env, q)
  {
    var w' := ResolveConflict(w, p, env).world;
    ResolveOutcome(w, p, env);
    forall q | q in w.db.rows ensures q in w'.db.rows && (Good(w', h, q) <==> !Stranded(w, h, p, env, q)) {
      OverrunAt(w, h, p, env, w', q);
    }
  }

  lemma ResolveExactly(w: World, h: History, p: Path, env: RemoteEnv)
    requires AllGood(w, h) && p in w.db.rows && p != ROOT
    ensures AllGood(ResolveConflict(w, p, env).world, h) <==> !Strands(w, h, p, env)
  {
    ResolveOutcome(w, p, env);
    if ResolveConflict(w, p, env).ok {
      ResolveKeeps(w, h, p, env);
    } else if Overruns(w, p, env) {
      OverrunExactly(w, h, p, env);
    }
  }

  // ---- an item, exactly ------------------------------------------------------------------------

  /** Nothing below a place whose local version moved aside claims content any more. */
  lemma NothingExposedBelow(w: World, p: Path, env: RemoteEnv)
    requires p in w.db.rows && p != ROOT && ResolveConflict(w, p, env).ok
    ensures !ExposedBelow(ResolveConflict(w, p, env).world, p)
  {
    forall k ensures !(k != p && Within(k, p) && Exposed(ResolveConflict(w, p, env).world, k)) {
      ResolvedRow(w, p, env, k);
    }
  }

  ghost predicate UnknownBares(w: World, h: History, path: Path, node: RemoteNode, env: RemoteEnv) {
    if DirtyAt(w, path) then Strands(w, h, path, env) else PlaceholderBares(w, path, node)
  }

  lemma UnknownExactly(w: World, h: History, path: Path, node: RemoteNode, env: RemoteEnv)
    requires AllGood(w, h) && Reported(h, node) && path != ROOT
    ensures AllGood(ApplyUnknown(w, path, node, env).world, h) <==> !UnknownBares(w, h, path, node, env)
  {
    if DirtyAt(w, path) {
      ResolveExactly(w, h, path, env);
      if ResolveConflict(w, path, env).ok {
        ResolveOutcome(w, path, env);
        NothingExposedBelow(w, path, env);
        MaterializeExactly(ResolveConflict(w, path, env).world, h, path, node);
      }
    } else {
      MaterializeExactly(w, h, path, node);
    }
  }

  /** What is still exposed once the local version at `p` moved aside. */
  lemma ExposedAfterResolve(w: World, p: Path, env: RemoteEnv, k: Path)
    requires Untargeted(w.db.ops) && p in w.db.rows && p != ROOT && ResolveConflict(w, p, env).ok
    ensures var c, w1 := ConflictPath(w, p, env.stamp(p)), ResolveConflict(w, p, env).world;
            Exposed(w1, k) <==> Exposed(w, k) && !Within(k, p) && !Within(k, c)
  {
    ResolvedRow(w, p, env, k);
    ResolvedOps(w, p, env, k);
  }

  lemma DirtyAfterResolve(w: World, p: Path, env: RemoteEnv, path: Path)
    requires p in w.db.rows && p != ROOT && ResolveConflict(w, p, env).ok
    requires !Within(path, p) && !Within(path, ConflictPath(w, p, env.stamp(p)))
    ensures DirtyAt(ResolveConflict(w, p, env).world, path) <==> DirtyAt(w, path)
  {
    ResolvedRow(w, p, env, path);
  }

  /** Elsewhere a move aside changes no file. */
  lemma FilesElsewhere(d: Disk, p: Path, c: Path, k: Path)
    requires RenameDisk(d, p, c).Ok? && !Within(k, p) && !Within(k, c)
    ensures IsFile(RenameDisk(d, p, c).value, k) <==> IsFile(d, k)
  {
    MoveTreeAt(CreateDirAll(d, Parent(c)).value, p, c);
  }

  lemma WayAfterResolve(w: World, p: Path, env: RemoteEnv, path: Path)
    requires ResolveConflict(w, p, env).ok
    requires !Within(path, p) && !Within(path, ConflictPath(w, p, env.stamp(p)))
    ensures WayIsClear(ResolveConflict(w, p, env).world.disk, path) <==> WayIsClear(w.disk, path)
  {
    var c, d' := ConflictPath(w, p, env.stamp(p)), ResolveConflict(w, p, env).world.disk;
    forall i | 0 <= i < |path| ensures IsFile(d', path[..i]) <==> IsFile(w.disk, path[..i]) {
      assert Within(path, path[..i]);
      if p in w.disk {
        FilesElsewhere(w.disk, p, c, path[..i]);
      }
    }
  }

  /** A downloaded file below `path` that no conflict moves aside or marks for upload. */
  ghost predicate Bared(w: World, path: Path, node: RemoteNode, env: RemoteEnv, k: Path) {
    var known := FindById(w.db.rows, node.id, env);
    && k != path && Within(k, path) && Exposed(w, k)
    && (known.Some? && DirtyAt(w, known.value) ==>
          && Conflicts(w.db.rows[known.value], path, node) && Resolvable(w, known.value, env)
          && !Within(k, known.value) && !Within(k, ConflictPath(w, known.value, env.stamp(known.value))))
    && (known.Some? && !DirtyAt(w, known.value) ==> ContentChanged(w.db.rows[known.value], node, false))
  }

  /** A file is reported where rows are cached below a place without local changes, and takes a
      downloaded file among them away. */
  ghost predicate BaresBelow(w: World, path: Path, node: RemoteNode, env: RemoteEnv) {
    !IsDir(node.kind) && !DirtyAt(w, path) && WayIsClear(w.disk, path) && exists k :: Bared(w, path, node, env, k)
  }

  /** Moving a local version aside fails half way: that of the item itself, or that of whatever
      occupies `path` once the item's own is out of the way. */
  ghost predicate StrandsAside(w: World, h: History, path: Path, node: RemoteNode, env: RemoteEnv) {
    var known := FindById(w.db.rows, node.id, env);
    if known.None? then DirtyAt(w, path) && Strands(w, h, path, env)
    else
      DirtyAt(w, known.value) && Conflicts(w.db.rows[known.value], path, node) &&
      (Strands(w, h, known.value, env)
       || (Resolvable(w, known.value, env)
           && var w1 := ResolveConflict(w, known.value, env).world;
              DirtyAt(w1, path) && Strands(w1, h, path, env)))
  }

  /** The listing takes a downloaded file away from its row. */
  ghost predicate Bares(w: World, h: History, path: Path, node: RemoteNode, env: RemoteEnv) {
    BaresBelow(w, path, node, env) || StrandsAside(w, h, path, node, env)
  }

  /** What lies below `path` when the item's own version has moved aside, told in advance. */
  lemma BaredInAdvance(w: World, p: Path, path: Path, node: RemoteNode, env: RemoteEnv)
    requires Untargeted(w.db.ops) && ROOT !in w.db.rows
    requires FindById(w.db.rows, node.id, env) == Some(p) && DirtyAt(w, p) && Conflicts(w.db.rows[p], path, node)
    requires Resolvable(w, p, env)
    ensures var w1 := ResolveConflict(w, p, env).world;
            !DirtyAt(w1, path) && PlaceholderBares(w1, path, node) <==> BaresBelow(w, path, node, env)
  {
    ResolveOutcome(w, p, env);
    var c, w1 := ConflictPath(w, p, env.stamp(p)), ResolveConflict(w, p, env).world;
    forall k | k != path && Within(k, path)
      ensures Exposed(w1, k) && !DirtyAt(w1, path) && WayIsClear(w1.disk, path) <==>
              Bared(w, path, node, env, k) && !DirtyAt(w, path) && WayIsClear(w.disk, path)
    {
      ExposedAfterResolve(w, p, env, k);
      if !Within(k, p) && !Within(k, c) {
        DirtyAfterResolve(w, p, env, path);
        WayAfterResolve(w, p, env, path);
      }
    }
  }

  lemma ConflictExactly(w: World, h: History, p: Path, path: Path, node: RemoteNode, env: RemoteEnv)
    requires AllGood(w, h) && Reported(h, node) && path != ROOT && ROOT !in w.db.rows && FreshFor(w, path, node, env)
    requires FindById(w.db.rows, node.id, env) == Some(p) && DirtyAt(w, p) && Conflicts(w.db.rows[p], path, node)
    ensures AllGood(ApplyItem(w, path, node, env).world, h) <==> !Bares(w, h, path, node, env)
  {
    ResolveExactly(w, h, p, env);
    ResolveOutcome(w, p, env);
    if Resolvable(w, p, env) {
      UnknownExactly(ResolveConflict(w, p, env).world, h, path, node, env);
      BaredInAdvance(w, p, path, node, env);
    }
  }

  /** The item's own row after it was seen again. */
  lemma RefreshedIsGood(w: World, h: History, path: Path, node: RemoteNode)
    requires AllGood(w, h) && Reported(h, node) && path in w.db.rows && !w.db.rows[path].dirty
    requires w.db.rows[path].remoteId == Some(node.id) && w.db.rows[path].kind == node.kind
    requires UpdateClean(w, path, w.db.rows[path], node, false).ok
    ensures Good(UpdateClean(w, path, w.db.rows[path], node, false).world, h, path)
  {
    EmptyIsCurrent(h, node, []);
    assert Good(w, h, path);
  }

  lemma UpdatedElsewhere(w: World, h: History, path: Path, node: RemoteNode, q: Path)
    requires q in w.db.rows && q != path && Good(w, h, q) && path in w.db.rows
    requires UpdateClean(w, path, w.db.rows[path], node, false).ok
    ensures Good(UpdateClean(w, path, w.db.rows[path], node, false).world, h, q) <==>
              !(!IsDir(node.kind) && ContentChanged(w.db.rows[path], node, false) && Within(q, path) && Exposed(w, q))
  {
    if IsFile(w.disk, q) && (IsDir(node.kind) || !Within(q, path)) {
      PlacedElsewhere(w.disk, node, path, q);
    }
  }

  lemma UpdateExactly(w: World, h: History, path: Path, node: RemoteNode)
    requires AllGood(w, h) && Reported(h, node) && path in w.db.rows && !w.db.rows[path].dirty && path != ROOT
    requires w.db.rows[path].remoteId == Some(node.id) && w.db.rows[path].kind == node.kind
    ensures AllGood(UpdateClean(w, path, w.db.rows[path], node, false).world, h) <==>
              !ContentChanged(w.db.rows[path], node, false) || !PlaceholderBares(w, path, node)
  {
    var a := UpdateClean(w, path, w.db.rows[path], node, false);
    ClearWay(w.disk, path);
    if a.ok {
      RefreshedIsGood(w, h, path, node);
      forall q | q in w.db.rows && q != path
        ensures Good(a.world, h, q) <==>
                  !(!IsDir(node.kind) && ContentChanged(w.db.rows[path], node, false)
                    && Within(q, path) && Exposed(w, q))
      {
        UpdatedElsewhere(w, h, path, node, q);
      }
      assert a.world.db.rows.Keys == w.db.rows.Keys;
    }
  }

  /** Applying a listing, perhaps an old one, and perhaps only half way, leaves no row with content
      it does not have exactly when it neither puts a file over a place with downloaded files below
      nor moves a local version aside that the rows cannot follow, with downloaded files at stake. */
  lemma ListExactly(r: Race, path: Path, node: RemoteNode, version: nat, env: RemoteEnv)
    requires Invariant(r) && Enabled(r, ListItem(path, node, version, env))
    ensures AllGood(ApplyItem(r.world, path, node, env).world, r.history) <==>
              !Bares(r.world, r.history, path, node, env)
  {
    var w, h := r.world, r.history;
    assert Reported(h, node);
    var known := FindById(w.db.rows, node.id, env);
    if known.None? {
      UnknownExactly(w, h, path, node, env);
      assert forall k :: Bared(w, path, node, env, k) <==> k != path && Within(k, path) && Exposed(w, k);
    } else if DirtyAt(w, known.value) {
      if Conflicts(w.db.rows[known.value], path, node) {
        ConflictExactly(w, h, known.value, path, node, env);
      }
    } else {
      UpdateExactly(w, h, path, node);
      assert ContentChanged(w.db.rows[path], node, false) ==>
          forall k :: Bared(w, path, node, env, k) <==> k != path && Within(k, path) && Exposed(w, k);
    }
  }

  lemma WorldStepKeeps(r: Race, s: Step)
    requires Invariant(r) && Enabled(r, s) && !s.RemoteEdit?
    ensures AllGood(Next(r, s).world, r.history) <==> !StepBares(r, s)
  {
    match s
    case ListItem(path, node, version, env) => ListExactly(r, path, node, version, env);
    case SweepAway(doomed) => SweepKeeps(r.world, r.history, doomed);
    case SweepCrawled(dead, vanished, orphans) => CrawlSweepKeeps(r.world, r.history, dead, vanished, orphans);
    case CreateLocal(p, mtime, mark) => CreateKeeps(r.world, r.history, p, mtime, mark);
    case WriteLocal(p, bytes, mtime) => WriteKeeps(r.world, r.history, p, bytes, mtime);
    case TouchLocal(p, mtime) => TouchKeeps(r.world, r.history, p, mtime);
    case DeleteLocal(p) => DeleteKeeps(r.world, r.history, p);
    case RenameLocal(p, to, marks) => MoveKeeps(r.world, r.history, p, to, marks);
    case FinishDownload(p) =>
      assert DownloadGood(r.history, r.downloads[p]);
      FinishKeeps(r.world, r.history, p, r.downloads[p]);
    case _ =>
  }

  lemma DownloadsKept(r: Race, s: Step)
    requires Invariant(r) && Enabled(r, s) && !s.RemoteEdit?
    ensures var r' := Next(r, s);
            r'.history == r.history && forall p :: p in r'.downloads ==> DownloadGood(r'.history, r'.downloads[p])
  {
    match s
    case StartDownload(p) => assert Good(r.world, r.history, p);
    case Fetch(p) =>
      assert DownloadGood(r.history, r.downloads[p]);
    case _ =>
  }

  lemma RootStaysFree(r: Race, s: Step)
    requires ROOT !in r.world.db.rows && Enabled(r, s)
    ensures ROOT !in Next(r, s).world.db.rows
  {
    match s
    case ListItem(path, node, version, env) => ApplyKeepsRootFree(r.world, path, node, env);
    case CreateLocal(p, mtime, mark) => assert Grave(p, mark) != ROOT;
    case RenameLocal(p, to, marks) =>
      RenamedKeysDistinct(r.world.db.rows, p, to, marks);
      FsPosix.NoRootRow(r.world.db.rows, p, to, true, false, marks);
    case _ =>
  }

  /** The step is a listing that takes a downloaded file away from its row. */
  ghost predicate StepBares(r: Race, s: Step) {
    s.ListItem? && Bares(r.world, r.history, s.path, s.node, s.env)
  }

  /** Every step, of whoever, keeps the invariant, those listings excepted; they break it. */
  lemma StepExactly(r: Race, s: Step)
    requires Invariant(r) && Enabled(r, s)
    ensures Invariant(Next(r, s)) <==> !StepBares(r, s)
  {
    RootStaysFree(r, s);
    if s.RemoteEdit? {
      EditKeeps(r, s.id, s.bytes);
    } else {
      WorldStepKeeps(r, s);
      DownloadsKept(r, s);
    }
  }

  // ---- runs ------------------------------------------------------------------------------------

  ghost predicate IsRun(r: Race, steps: seq<Step>)
    decreases |steps|
  {
    steps == [] || (Enabled(r, steps[0]) && IsRun(Next(r, steps[0]), steps[1..]))
  }

  ghost function Run(r: Race, steps: seq<Step>): Race
    requires IsRun(r, steps)
    decreases |steps|
  {
    if steps == [] then r else Run(Next(r, steps[0]), steps[1..])
  }

  /** The invariant holds before, between and after the steps. */
  ghost predicate Throughout(r: Race, steps: seq<Step>)
    requires IsRun(r, steps)
    decreases |steps|
  {
    Invariant(r) && (steps != [] ==> Throughout(Next(r, steps[0]), steps[1..]))
  }

  ghost predicate BaresNothing(r: Race, steps: seq<Step>)
    requires IsRun(r, steps)
    decreases |steps|
  {
    steps != [] ==> !StepBares(r, steps[0]) && BaresNothing(Next(r, steps[0]), steps[1..])
  }

  /** In every interleaving no row ever claims content that is stale, somebody else's or not
      there, exactly as long as no listing takes a file away from its row. */
  lemma {:induction false} NoStaleContent(r: Race, steps: seq<Step>)
    requires Invariant(r) && IsRun(r, steps)
    ensures Throughout(r, steps) <==> BaresNothing(r, steps)
    ensures BaresNothing(r, steps) ==> Invariant(Run(r, steps))
    decreases |steps|
  {
    if steps != [] {
      StepExactly(r, steps[0]);
      if !StepBares(r, steps[0]) {
        NoStaleContent(Next(r, steps[0]), steps[1..]);
      }
    }
  }

  lemma OneStep(r: Race, s: Step, rest: seq<Step>)
    requires Enabled(r, s) && IsRun(Next(r, s), rest)
    ensures IsRun(r, [s] + rest) && Run(r, [s] + rest) == Run(Next(r, s), rest)
  {
    assert ([s] + rest)[1..] == rest;
  }

  /** The three steps of an undisturbed download, one by one. */
  lemma DownloadSteps(r: Race, p: Path) returns (r2: Race)
    requires Enabled(r, StartDownload(p)) && r.world.db.rows[p].remoteId.value in r.history
    requires r.history[r.world.db.rows[p].remoteId.value] != []
    ensures var row, latest := r.world.db.rows[p], r.history[r.world.db.rows[p].remoteId.value];
            && r2 == r.(downloads := r.downloads[p := Staged(row.remoteId.value, row.etag, latest[|latest| - 1])])
            && Enabled(r2, FinishDownload(p))
    ensures IsRun(r, [StartDownload(p)] + ([Fetch(p)] + ([FinishDownload(p)] + [])))
    ensures Run(r, [StartDownload(p)] + ([Fetch(p)] + ([FinishDownload(p)] + []))) == Next(r2, FinishDownload(p))
  {
    var r1 := Next(r, StartDownload(p));
    r2 := Next(r1, Fetch(p));
    OneStep(r2, FinishDownload(p), []);
    OneStep(r1, Fetch(p), [FinishDownload(p)] + []);
    OneStep(r, StartDownload(p), [Fetch(p)] + ([FinishDownload(p)] + []));
  }

  lemma FinishIsFetch(w: World, p: Path, data: Bytes)
    requires NeedsContent(w, p)
    ensures Finished(w, p, Staged(w.db.rows[p].remoteId.value, w.db.rows[p].etag, data)) ==
            FetchContent(w, p, Some(data)).world
  {
  }

  /** With nobody in between, the three steps of a download are the one attempt that `FsCore` and
      the uploader make. */
  lemma UndisturbedDownload(r: Race, p: Path)
    requires Enabled(r, StartDownload(p)) && r.world.db.rows[p].remoteId.value in r.history
    requires r.history[r.world.db.rows[p].remoteId.value] != []
    ensures var latest := r.history[r.world.db.rows[p].remoteId.value];
            var steps := [StartDownload(p), Fetch(p), FinishDownload(p)];
            IsRun(r, steps)
            && Run(r, steps).world == FetchContent(r.world, p, Some(latest[|latest| - 1])).world
  {
    var latest := r.history[r.world.db.rows[p].remoteId.value];
    var r2 := DownloadSteps(r, p);
    assert [StartDownload(p)] + ([Fetch(p)] + ([FinishDownload(p)] + []))
        == [StartDownload(p), Fetch(p), FinishDownload(p)];
    FinishIsFetch(r.world, p, latest[|latest| - 1]);
  }

  // ---- a download from start to end ---------------------------------------------------------------

  /** The download of `p` is neither finished nor given up: it holds the lock throughout. */
  ghost predicate Holding(steps: seq<Step>, p: Path) {
    forall i :: 0 <= i < |steps| ==> steps[i] != FinishDownload(p) && steps[i] != AbortDownload(p)
  }

  lemma {:induction false} DownloadRemembers(r: Race, steps: seq<Step>, p: Path)
    requires IsRun(r, steps) && Holding(steps, p) && p in r.downloads
    ensures var r' := Run(r, steps);
            p in r'.downloads && r'.downloads[p].id == r.downloads[p].id && r'.downloads[p].etag == r.downloads[p].etag
    decreases |steps|
  {
    if steps != [] {
      assert forall i :: 0 <= i < |steps[1..]| ==> steps[1..][i] == steps[i + 1];
      DownloadRemembers(Next(r, steps[0]), steps[1..], p);
    }
  }

  /** A download from its start to its commit, whatever happened in between: bytes reach the
      mirror only if the row is live, has no local change queued, and names the identity and
      version it had when the download started; and they are of that version or a later one. */
  lemma NothingResurrected(r: Race, steps: seq<Step>, p: Path)
    requires Invariant(r) && Enabled(r, StartDownload(p)) && IsRun(Next(r, StartDownload(p)), steps)
    requires Holding(steps, p) && BaresNothing(Next(r, StartDownload(p)), steps)
    requires Enabled(Run(Next(r, StartDownload(p)), steps), FinishDownload(p))
    ensures var r1 := Run(Next(r, StartDownload(p)), steps);
            var before, after, r' := r.world.db.rows[p], r1.world, Next(r1, FinishDownload(p));
            r'.world != after ==>
              && Live(after.db.rows, p) && !PendingContent(after.db.ops, p)
              && after.db.rows[p].remoteId == before.remoteId && after.db.rows[p].etag == before.etag
              && r'.world.db.rows[p].hydrated && IsFile(r'.world.disk, p)
              && NoOlder(r1.history, before.remoteId.value, before.etag, r'.world.disk[p].bytes)
  {
    var r0 := Next(r, StartDownload(p));
    StepExactly(r, StartDownload(p));
    NoStaleContent(r0, steps);
    DownloadRemembers(r0, steps, p);
    var r1 := Run(r0, steps);
    assert DownloadGood(r1.history, r1.downloads[p]);
    CommitElsewhere(r1.world.disk, p, r1.downloads[p].data,
                    if p in r1.world.db.rows then r1.world.db.rows[p].mtime else 0, p);
  }

  /** No live row and no file. */
  ghost predicate Absent(w: World, p: Path) {
    !Live(w.db.rows, p) && !IsFile(w.disk, p)
  }

  /** An item iCloud reported at `path`, no clean row standing for it, may come to `q`, or a local
      version that it moves aside. */
  ghost predicate UnknownBrings(w: World, path: Path, env: RemoteEnv, q: Path) {
    q == path || (DirtyAt(w, path) && Within(q, ConflictPath(w, path, env.stamp(path))))
  }

  ghost predicate ListingBrings(w: World, path: Path, node: RemoteNode, env: RemoteEnv, q: Path) {
    var known := FindById(w.db.rows, node.id, env);
    if known.None? then UnknownBrings(w, path, env, q)
    else if DirtyAt(w, known.value) then
      Conflicts(w.db.rows[known.value], path, node) &&
      (Within(q, ConflictPath(w, known.value, env.stamp(known.value)))
       || (Resolvable(w, known.value, env) && UnknownBrings(ResolveConflict(w, known.value, env).world, path, env, q)))
    else q == path
  }

  /** A step that can bring something to `p`: a create, a rename onto it or above it, a listing of
      that very path or one that moves a local version aside to it, a crawl's sweep that takes the
      row there for a changed one. */
  ghost predicate Brings(r: Race, s: Step, p: Path) {
    match s
    case CreateLocal(q, _, _) => q == p
    case RenameLocal(_, to, _) => Within(p, to)
    case ListItem(path, node, _, env) => ListingBrings(r.world, path, node, env, p)
    case SweepCrawled(_, _, orphans) => p in orphans && p in r.world.db.rows
    case _ => false
  }

  lemma StaysAbsent(r: Race, s: Step, p: Path)
    requires Enabled(r, s) && ROOT !in r.world.db.rows && Absent(r.world, p) && !Brings(r, s, p)
    ensures Absent(Next(r, s).world, p)
  {
    match s
    case RenameLocal(q, to, marks) => MoveLeavesAbsent(r.world, q, to, marks, p);
    case FinishDownload(q) => FinishLeavesAbsent(r.world, q, r.downloads[q], p);
    case DeleteLocal(q) => ForgetLeavesAbsent(r.world.db, q, p);
    case ListItem(path, node, _, env) => ListingLeavesAbsent(r.world, path, node, env, p);
    case _ =>
  }

  lemma NoFileBrought(d: Disk, p: Path, c: Path, q: Path)
    requires RenameDisk(d, p, c).Ok? && (p != c ==> !Within(q, c)) && !IsFile(d, q)
    ensures !IsFile(RenameDisk(d, p, c).value, q)
  {
    MoveTreeAt(CreateDirAll(d, Parent(c)).value, p, c);
  }

  lemma ResolveLeavesAbsent(w: World, p: Path, env: RemoteEnv, q: Path)
    requires p in w.db.rows && p != ROOT && Absent(w, q) && !Within(q, ConflictPath(w, p, env.stamp(p)))
    ensures Absent(ResolveConflict(w, p, env).world, q)
  {
    var c := ConflictPath(w, p, env.stamp(p));
    if p in w.disk && RenameDisk(w.disk, p, c).Ok? {
      NoFileBrought(w.disk, p, c, q);
    }
    if ResolveConflict(w, p, env).ok {
      ResolvedRow(w, p, env, q);
    }
  }

  lemma PlacingLeavesAbsent(d: Disk, path: Path, size: nat, mtime: int, q: Path)
    requires q != path && !IsFile(d, q)
    ensures EnsureDir(d, path).Ok? ==> !IsFile(EnsureDir(d, path).value, q)
    ensures Placeholder(d, path, size, mtime).Ok? ==> !IsFile(Placeholder(d, path, size, mtime).value, q)
  {
  }

  lemma UnknownLeavesAbsent(w: World, path: Path, node: RemoteNode, env: RemoteEnv, q: Path)
    requires path != ROOT && Absent(w, q) && !UnknownBrings(w, path, env, q)
    ensures Absent(ApplyUnknown(w, path, node, env).world, q)
  {
    if DirtyAt(w, path) {
      ResolveLeavesAbsent(w, path, env, q);
      PlacingLeavesAbsent(ResolveConflict(w, path, env).world.disk, path, node.size, node.modified, q);
    } else {
      PlacingLeavesAbsent(w.disk, path, node.size, node.modified, q);
    }
  }

  lemma ListingLeavesAbsent(w: World, path: Path, node: RemoteNode, env: RemoteEnv, q: Path)
    requires path != ROOT && ROOT !in w.db.rows && FreshFor(w, path, node, env) && Listable(w, path, node, env)
    requires Absent(w, q) && !ListingBrings(w, path, node, env, q)
    ensures Absent(ApplyItem(w, path, node, env).world, q)
  {
    var known := FindById(w.db.rows, node.id, env);
    if known.None? {
      UnknownLeavesAbsent(w, path, node, env, q);
    } else if DirtyAt(w, known.value) {
      if Conflicts(w.db.rows[known.value], path, node) {
        ResolveLeavesAbsent(w, known.value, env, q);
        ResolveOutcome(w, known.value, env);
        if Resolvable(w, known.value, env) {
          UnknownLeavesAbsent(ResolveConflict(w, known.value, env).world, path, node, env, q);
        }
      }
    } else {
      PlacingLeavesAbsent(w.disk, path, node.size, node.modified, q);
    }
  }

  lemma MoveLeavesAbsent(w: World, q: Path, to: Path, marks: Path -> string, p: Path)
    requires Apart(q, to) && FreshMarks(w.db.rows, q, to, marks) && Absent(w, p) && !Within(p, to)
    ensures Absent(Moved(w, q, to, marks), p)
  {
    RenamedKeysDistinct(w.db.rows, q, to, marks);
    FsPosix.LiveRowsMoved(w.db.rows, q, to, true, false, marks, p);
    MoveTreeAt(w.disk, q, to);
  }

  lemma FinishLeavesAbsent(w: World, q: Path, d: Download, p: Path)
    requires d.Staged? && Absent(w, p)
    ensures Absent(Finished(w, q, d), p)
  {
    if StillWanted(w, q, d) {
      CommitAbsent(w.disk, q, d.data, w.db.rows[q].mtime, p);
    }
  }

  lemma ForgetLeavesAbsent(db: Db, q: Path, p: Path)
    requires q in db.rows && !Live(db.rows, p)
    ensures !Live(Forget(db, q).rows, p)
  {
  }

  lemma CommitAbsent(d: Disk, p: Path, data: Bytes, mtime: int, q: Path)
    ensures var c := Commit(d, p, data, mtime); c.Ok? && q != p && !IsFile(d, q) ==> !IsFile(c.value, q)
  {
  }

  ghost predicate BringsNothing(r: Race, steps: seq<Step>, p: Path)
    requires IsRun(r, steps)
    decreases |steps|
  {
    steps != [] ==> !Brings(r, steps[0], p) && BringsNothing(Next(r, steps[0]), steps[1..], p)
  }

  lemma {:induction false} AbsentStaysAbsent(r: Race, steps: seq<Step>, p: Path)
    requires IsRun(r, steps) && ROOT !in r.world.db.rows && Absent(r.world, p) && BringsNothing(r, steps, p)
    ensures Absent(Run(r, steps).world, p)
    decreases |steps|
  {
    if steps != [] {
      RootStaysFree(r, steps[0]);
      StaysAbsent(r, steps[0], p);
      AbsentStaysAbsent(Next(r, steps[0]), steps[1..], p);
    }
  }

  /** A file deleted while its download is under way stays deleted through any number of commits,
      listings, edits elsewhere and on iCloud, until something of that name is made, or moved or
      listed there, or a crawl's sweep takes its row for one changed here. */
  lemma DeletedStaysDeleted(r: Race, steps: seq<Step>, p: Path)
    requires ROOT !in r.world.db.rows && Enabled(r, DeleteLocal(p)) && IsRun(Next(r, DeleteLocal(p)), steps)
    requires BringsNothing(Next(r, DeleteLocal(p)), steps, p)
    ensures Absent(Run(Next(r, DeleteLocal(p)), steps).world, p)
  {
    RootStaysFree(r, DeleteLocal(p));
    AbsentStaysAbsent(Next(r, DeleteLocal(p)), steps, p);
  }

  /** The bytes are here and wait to be uploaded. */
  ghost predicate Holds(w: World, p: Path, bytes: Bytes) {
    Untargeted(w.db.ops) && PendingContent(w.db.ops, p) && IsFile(w.disk, p) && w.disk[p].bytes == bytes
  }

  /** An item no clean row stands for moves the occupant of `path` aside with all that is below, or
      is put there, over a file or over everything below. */
  ghost predicate UnknownDisturbs(w: World, path: Path, node: RemoteNode, env: RemoteEnv, p: Path) {
    if DirtyAt(w, path) then Within(p, path) || p == ConflictPath(w, path, env.stamp(path))
    else if IsDir(node.kind) then p == path
    else Within(p, path)
  }

  /** A listing that has a conflict about `p`, or a folder above it, or puts something there.  One
      that finds the item unchanged under a local change does nothing. */
  ghost predicate ListingDisturbs(w: World, path: Path, node: RemoteNode, env: RemoteEnv, p: Path) {
    var known := FindById(w.db.rows, node.id, env);
    if known.None? then UnknownDisturbs(w, path, node, env, p)
    else if DirtyAt(w, known.value) then
      Conflicts(w.db.rows[known.value], path, node) &&
      (Within(p, known.value) || p == ConflictPath(w, known.value, env.stamp(known.value))
       || (Resolvable(w, known.value, env)
           && UnknownDisturbs(ResolveConflict(w, known.value, env).world, path, node, env, p)))
    else if IsDir(node.kind) then p == path
    else ContentChanged(w.db.rows[known.value], node, false) && Within(p, path)
  }

  /** A step of somebody who writes, removes or moves `p`, or a folder above it, or such a listing. */
  ghost predicate Disturbs(r: Race, s: Step, p: Path) {
    match s
    case WriteLocal(q, _, _) => q == p
    case DeleteLocal(q) => Within(p, q)
    case RenameLocal(q, to, _) => Within(p, q) || Within(p, to)
    case SweepAway(doomed) => BelowAny(p, doomed)
    case SweepCrawled(dead, vanished, _) => BelowAny(p, dead + vanished)
    case ListItem(path, node, _, env) => ListingDisturbs(r.world, path, node, env, p)
    case _ => false
  }

  lemma StaysHeld(r: Race, s: Step, p: Path, bytes: Bytes)
    requires Enabled(r, s) && ROOT !in r.world.db.rows && Holds(r.world, p, bytes) && !Disturbs(r, s, p)
    ensures Holds(Next(r, s).world, p, bytes)
  {
    match s
    case ListItem(path, node, _, env) => ListingLeavesHeld(r.world, path, node, env, p, bytes);
    case _ => LocalStepLeavesHeld(r, s, p, bytes);
  }

  lemma LocalStepLeavesHeld(r: Race, s: Step, p: Path, bytes: Bytes)
    requires Enabled(r, s) && !s.ListItem? && Holds(r.world, p, bytes) && !Disturbs(r, s, p)
    ensures Holds(Next(r, s).world, p, bytes)
  {
    var w := r.world;
    match s
    case CreateLocal(q, _, _) => QueueKeeps(w.db.ops, CreateOp, q, None, p);
    case WriteLocal(q, _, _) => QueueKeeps(w.db.ops, UpdateOp, q, None, p);
    case DeleteLocal(q) =>
      ForgetElsewhere(w.db, q, p);
    case RenameLocal(q, to, marks) =>
      assert q in Subtree(w.db.rows, q);
      MoveOps(w, q, to, marks, p);
      MoveTreeAt(w.disk, q, to);
    case SweepAway(doomed) => PendingKept(w.db.ops, (o: Op) => !MentionsBelowAny(o, doomed), p);
    case SweepCrawled(dead, vanished, _) =>
      BelowMore(vanished, dead);
      PendingKept(w.db.ops, (o: Op) => !MentionsBelowAny(o, dead + vanished), p);
    case FinishDownload(q) =>
      CommitElsewhere(w.disk, q, r.downloads[q].data, if q in w.db.rows then w.db.rows[q].mtime else 0, p);
    case _ =>
  }

  lemma ResolveLeavesHeld(w: World, m: Path, env: RemoteEnv, p: Path, bytes: Bytes)
    requires m in w.db.rows && m != ROOT && Holds(w, p, bytes)
    requires !Within(p, m) && p != ConflictPath(w, m, env.stamp(m))
    ensures Holds(ResolveConflict(w, m, env).world, p, bytes)
  {
    var c := ConflictPath(w, m, env.stamp(m));
    if m in w.disk && RenameDisk(w.disk, m, c).Ok? {
      AsideElsewhere(w.disk, m, c, p);
    }
    if ResolveConflict(w, m, env).ok {
      ResolvedOps(w, m, env, p);
    }
  }

  lemma UnknownLeavesHeld(w: World, path: Path, node: RemoteNode, env: RemoteEnv, p: Path, bytes: Bytes)
    requires path != ROOT && Holds(w, p, bytes) && !UnknownDisturbs(w, path, node, env, p)
    ensures Holds(ApplyUnknown(w, path, node, env).world, p, bytes)
  {
    if DirtyAt(w, path) {
      ResolveLeavesHeld(w, path, env, p, bytes);
      PlacedElsewhere(ResolveConflict(w, path, env).world.disk, node, path, p);
    } else {
      PlacedElsewhere(w.disk, node, path, p);
    }
  }

  lemma ListingLeavesHeld(w: World, path: Path, node: RemoteNode, env: RemoteEnv, p: Path, bytes: Bytes)
    requires path != ROOT && ROOT !in w.db.rows && FreshFor(w, path, node, env) && Listable(w, path, node, env)
    requires Holds(w, p, bytes) && !ListingDisturbs(w, path, node, env, p)
    ensures Holds(ApplyItem(w, path, node, env).world, p, bytes)
  {
    var known := FindById(w.db.rows, node.id, env);
    if known.None? {
      UnknownLeavesHeld(w, path, node, env, p, bytes);
    } else if DirtyAt(w, known.value) {
      if Conflicts(w.db.rows[known.value], path, node) {
        ResolveLeavesHeld(w, known.value, env, p, bytes);
        ResolveOutcome(w, known.value, env);
        if Resolvable(w, known.value, env) {
          UnknownLeavesHeld(ResolveConflict(w, known.value, env).world, path, node, env, p, bytes);
        }
      }
    } else if IsDir(node.kind) || ContentChanged(w.db.rows[path], node, false) {
      PlacedElsewhere(w.disk, node, path, p);
    }
  }

  lemma ForgetElsewhere(db: Db, p: Path, q: Path)
    requires Untargeted(db.ops) && p in db.rows && !Within(q, p)
    ensures Untargeted(Forget(db, p).ops) && (PendingContent(db.ops, q) ==> PendingContent(Forget(db, p).ops, q))
  {
    ForgetOps(db, p, q);
    if db.rows[p].remoteId.Some? {
      QueueKeeps(db.ops, DeleteOp, p, None, q);
    } else if IsDir(db.rows[p].kind) {
      PendingKept(db.ops, (o: Op) => !MentionsBelow(o, p), q);
    } else {
      PendingKept(db.ops, (o: Op) => !Mentions(o, p), q);
    }
  }

  ghost predicate Undisturbing(r: Race, steps: seq<Step>, p: Path)
    requires IsRun(r, steps)
    decreases |steps|
  {
    steps != [] ==> !Disturbs(r, steps[0], p) && Undisturbing(Next(r, steps[0]), steps[1..], p)
  }

  lemma {:induction false} HeldStaysHeld(r: Race, steps: seq<Step>, p: Path, bytes: Bytes)
    requires IsRun(r, steps) && ROOT !in r.world.db.rows && Holds(r.world, p, bytes) && Undisturbing(r, steps, p)
    ensures Holds(Run(r, steps).world, p, bytes)
    decreases |steps|
  {
    if steps != [] {
      RootStaysFree(r, steps[0]);
      StaysHeld(r, steps[0], p, bytes);
      HeldStaysHeld(Next(r, steps[0]), steps[1..], p, bytes);
    }
  }

  /** A file written while its download is under way keeps what was written through any number of
      commits and listings, until somebody writes, removes or moves it, or a listing has a
      conflict about it or puts something in its place. */
  lemma WrittenStaysWritten(r: Race, steps: seq<Step>, p: Path, bytes: Bytes, mtime: int)
    requires Invariant(r) && Enabled(r, WriteLocal(p, bytes, mtime))
    requires IsRun(Next(r, WriteLocal(p, bytes, mtime)), steps)
    requires Undisturbing(Next(r, WriteLocal(p, bytes, mtime)), steps, p)
    ensures Holds(Run(Next(r, WriteLocal(p, bytes, mtime)), steps).world, p, bytes)
  {
    UpdateQueued(r.world.db.ops, p);
    QueueKeeps(r.world.db.ops, UpdateOp, p, None, p);
    HeldStaysHeld(Next(r, WriteLocal(p, bytes, mtime)), steps, p, bytes);
  }

  // ---- a listing that takes content away ------------------------------------------------------------

  /** A folder with a downloaded file is cached. */
  const CACHED_FOLDER: Race :=
    Race(World(Db(map[["x"] := Row(Folder, ROOT, Some("D"), None, 0, 0, true, false, false, None, Some(["x"])),
                      ["x", "f"] :=
                        Row(File, ["x"], Some("F"), Etag(0), 1, 0, true, false, false, None, Some(["x", "f"]))],
                  [], map[]),
               map[ROOT := Dir, ["x"] := Dir, ["x", "f"] := Data([1], 0)]),
         map["F" := [[1]], "X" := [[2]]],
         map[])

  /** iCloud now reports a file of the folder's name: its placeholder replaces the folder, and the
      row of the file inside stays live, clean and hydrated with no file. */
  lemma FileOverFolderStrandsARow(env: RemoteEnv)
    ensures Invariant(CACHED_FOLDER)
    ensures var s := ListItem(["x"], RemoteNode("X", Etag(0), "x", File, 1, 0), 0, env);
            && Enabled(CACHED_FOLDER, s) && StepBares(CACHED_FOLDER, s)
            && var r' := Next(CACHED_FOLDER, s);
               && !Invariant(r') && Live(r'.world.db.rows, ["x", "f"]) && !r'.world.db.rows[["x", "f"]].dirty
               && r'.world.db.rows[["x", "f"]].hydrated && ["x", "f"] !in r'.world.disk
  {
    var r, node := CACHED_FOLDER, RemoteNode("X", Etag(0), "x", File, 1, 0);
    var w, s := r.world, ListItem(["x"], node, 0, env);
    assert NoOlder(r.history, "F", Etag(0), [1]) by {
      assert r.history["F"][0] == [1];
    }
    assert Invariant(r);
    assert FindById(w.db.rows, "X", env).None?;
    PlaceholderAtTop(w.disk, "x", 1, 0);
    assert Materialize(w, ["x"], node).ok;
    assert Bared(w, ["x"], node, env, ["x", "f"]);
    StepExactly(r, s);
  }

  lemma PlaceholderAtTop(d: Disk, name: string, size: nat, mtime: int)
    requires ROOT in d && d[ROOT].Dir?
    ensures Placeholder(d, [name], size, mtime).Ok?
  {
    assert Parent([name]) == ROOT;
    forall i | 0 <= i <= |ROOT| ensures !IsFile(d, ROOT[..i]) {
      assert ROOT[..i] == ROOT;
    }
  }

  // ---- a listing that fails half way ----------------------------------------------------------------

  /** The file at `p` was downloaded and touched, and changed on iCloud since; a local version `c`
      from an earlier conflict has the short name. */
  function TouchedAndListed(p: Path, c: Path): Race {
    Race(C.SecondConflict(p, c).(db := C.SecondConflict(p, c).db.(ops := [Op(ConflictCopyOp, c, None)])),
         map["A" := [[1], [3]]], map[])
  }

  lemma TouchedInvariant(p: Path, c: Path)
    requires |p| == 1 && |c| == 1 && p != c
    ensures Invariant(TouchedAndListed(p, c)) && Exposed(TouchedAndListed(p, c).world, p)
  {
    var r := TouchedAndListed(p, c);
    C.SecondConflictIsSound(p, c);
    assert Decimal(0) == "0" && "e" + "0" == "e0";
    assert r.world.db.rows[p].etag == Etag(0);
    assert NoOlder(r.history, "A", Etag(0), [1]) by {
      assert r.history["A"][0] == [1];
    }
    assert !PendingContent(r.world.db.ops, p);
  }

  /** The mirror moves the old version over the other file and the database rolls back. */
  lemma TouchedIsMoved(name: string, stamp: string, env: RemoteEnv)
    requires C.TooLong(name, stamp) && env.stamp([name]) == stamp
    ensures var p, w := [name], TouchedAndListed([name], ["conflict-" + stamp]).world;
            var a := ResolveConflict(w, p, env);
            && FindById(w.db.rows, "A", env) == Some(p) && DirtyAt(w, p)
            && !a.ok && a.world.db == w.db && p !in a.world.disk
  {
    var p, c := [name], ["conflict-" + stamp];
    var w := TouchedAndListed(p, c).world;
    C.SecondConflictIsSound(p, c);
    C.SecondIsFound(p, c, env);
    LongNamesFallBack(w, p, stamp);
    assert Fallback(p, stamp) == c;
    assert C.LocalWork(w, p) && C.LocalWork(w, c);
    C.FallbackOverwrites(w, p, env);
  }

  lemma TouchedConflicts(p: Path, c: Path, node: RemoteNode)
    requires p != c && node.etag == Etag(1)
    ensures Conflicts(TouchedAndListed(p, c).world.db.rows[p], p, node)
  {
    assert Decimal(1) == "1" && ("e" + "1")[1] != "e0"[1];
  }

  /** Whenever the short name is taken: iCloud's new version arrives, and the row stays live and
      hydrated with an identity, no queued write and no file. */
  lemma FailedListingStrandsARow(name: string, stamp: string, env: RemoteEnv)
    requires C.TooLong(name, stamp) && env.stamp([name]) == stamp
    ensures var p, c := [name], ["conflict-" + stamp];
            var r, s := TouchedAndListed(p, c), ListItem(p, RemoteNode("A", Etag(1), name, File, 1, 0), 1, env);
            && Invariant(r) && Enabled(r, s) && StepBares(r, s)
            && var r' := Next(r, s);
               && !Invariant(r') && Exposed(r'.world, p) && p !in r'.world.disk
  {
    var p, c := [name], ["conflict-" + stamp];
    var r, node := TouchedAndListed(p, c), RemoteNode("A", Etag(1), name, File, 1, 0);
    var s := ListItem(p, node, 1, env);
    assert p != c;
    TouchedInvariant(p, c);
    TouchedIsMoved(name, stamp, env);
    TouchedConflicts(p, c, node);
    assert Enabled(r, s);
    assert Exposed(Next(r, s).world, p) && p !in Next(r, s).world.disk;
    assert !Good(Next(r, s).world, r.history, p);
    StepExactly(r, s);
  }
}
