/** What one upload pass keeps, whichever calls fail, and what it achieves when none does. */
module Upload {
  import opened Paths
  import opened Tables
  import opened Files
  import opened FsSpec
  import opened Cloud
  import opened Search

  // ---- failure safety -------------------------------------------------------------------

  ghost predicate Tomb(db: Db, q: Path) {
    q in db.rows && db.rows[q].tombstone
  }

  /** A live row lies only below live folders. */
  ghost predicate Orderly(rows: Rows) {
    forall d, q :: d in rows && q in rows && !rows[q].tombstone && Within(q, d) && q != d ==>
      !rows[d].tombstone && IsDir(rows[d].kind)
  }

  /** `FsCore` keeps it so: where rows and mirror agree, the file tree orders the live rows. */
  lemma CoupledIsOrderly(w: World)
    requires Coupled(w)
    ensures Orderly(w.db.rows)
  {
    forall d, q | d in w.db.rows && Live(w.db.rows, q) && Within(q, d) && q != d
      ensures Live(w.db.rows, d) && IsDir(w.db.rows[d].kind)
    {
      AncestorsAreFolders(w.disk, q, d);
      assert d in w.disk && w.disk[d].Dir? && !Reserved(d);
    }
  }

  /** A changed file whose bytes iCloud does not have. */
  ghost predicate MustUpload(db: Db, q: Path) {
    AsksForUpload(db, q) && !IsDir(db.rows[q].kind)
  }

  /** A moment of a pass: the rows, the mirror, and what iCloud has reported done. */
  datatype Moment = Moment(db: Db, disk: Disk, done: seq<Event>)

  function FolderId(rows: Rows, p: Path): Option<string> {
    if p == ROOT then Some(ROOT_ID) else if p in rows then rows[p].remoteId else None
  }

  /** The file's own bytes, as they were at `a`, were received in the folder that its parent row
      stands for, by a call that asked for its name; if the name was taken the item is a numbered
      copy. */
  ghost predicate UploadedSince(a: Moment, b: Moment, q: Path) {
    && q != ROOT && IsFile(a.disk, q) && FolderId(b.db.rows, Parent(q)).Some?
    && exists i :: |a.done| <= i < |b.done|
                   && b.done[i] == Uploaded(FolderId(b.db.rows, Parent(q)).value, Last(q), a.disk[q].bytes)
  }

  predicate RemovedSince(a: Moment, b: Moment, id: string) {
    exists i :: |a.done| <= i < |b.done| && b.done[i] == Removed(id)
  }

  ghost predicate SameBytes(d: Disk, d': Disk) {
    && d'.Keys == d.Keys
    && forall p :: p in d ==> (d'[p].Dir? <==> d[p].Dir?) && (d[p].Data? ==> d'[p].bytes == d[p].bytes)
  }

  /** The log only grows, and no byte of the mirror changes. */
  ghost predicate Later(a: Moment, b: Moment) {
    a.done <= b.done && SameBytes(a.disk, b.disk)
  }

  // ---- folders whose identity a pass leaves alone -------------------------------------------

  /** There is no folder on iCloud for `f` and the pass cannot make one: `f` has no row, or one
      without an identity that is clean or itself in such a folder. */
  ghost predicate Unreachable(rows: Rows, f: Path)
    decreases |f|
  {
    && f != ROOT
    && (f !in rows || (rows[f].remoteId.None? && (!rows[f].dirty || Unreachable(rows, Parent(f)))))
  }

  /** The pass has nothing more to do about folder `f`: it is clean, or cannot be reached. */
  ghost predicate Settled(rows: Rows, f: Path) {
    f == ROOT || (f in rows && (!rows[f].dirty || Unreachable(rows, Parent(f))))
  }

  ghost predicate LiveFolders(rows: Rows, f: Path) {
    forall g :: g in rows && Within(f, g) ==> !rows[g].tombstone && IsDir(rows[g].kind)
  }

  /** Settled folders stay settled and keep standing for the same item. */
  ghost predicate FoldersStay(rows: Rows, rows': Rows) {
    forall f :: LiveFolders(rows, f) ==>
      LiveFolders(rows', f) && (Settled(rows, f) ==> Settled(rows', f) && FolderId(rows', f) == FolderId(rows, f))
  }

  ghost predicate SameBut(rows: Rows, rows': Rows, p: Path) {
    && rows'.Keys == rows.Keys
    && forall k :: k in rows && k != p ==>
         && rows'[k].dirty == rows[k].dirty && rows'[k].remoteId == rows[k].remoteId
         && rows'[k].tombstone == rows[k].tombstone && rows'[k].kind == rows[k].kind
  }

  /** `p` is about to be synced: it is dirty, and its parent is on iCloud. */
  ghost predicate InWork(rows: Rows, p: Path) {
    p in rows && rows[p].dirty && !Unreachable(rows, Parent(p))
  }

  lemma {:induction false} UnreachableStays(rows: Rows, rows': Rows, p: Path, f: Path)
    requires SameBut(rows, rows', p) && (!Within(f, p) || InWork(rows, p)) && Unreachable(rows, f)
    ensures Unreachable(rows', f)
    decreases |f|
  {
    if f in rows && rows[f].dirty {
      assert Within(Parent(f), p) ==> Within(f, p);
      UnreachableStays(rows, rows', p, Parent(f));
    }
  }

  /** Syncing one live folder, or changing one file row, leaves the settled folders alone. */
  lemma OneRowFoldersStay(rows: Rows, rows': Rows, p: Path)
    requires SameBut(rows, rows', p) && p in rows
    requires (InWork(rows, p) && !rows'[p].tombstone && IsDir(rows'[p].kind)) || !IsDir(rows[p].kind)
    ensures FoldersStay(rows, rows')
  {
    forall f | LiveFolders(rows, f)
      ensures LiveFolders(rows', f)
      ensures Settled(rows, f) ==> Settled(rows', f) && FolderId(rows', f) == FolderId(rows, f)
    {
      if Settled(rows, f) && f != ROOT && rows[f].dirty {
        assert Within(Parent(f), p) ==> Within(f, p);
        UnreachableStays(rows, rows', p, Parent(f));
      }
    }
  }

  // ---- one step, many steps ------------------------------------------------------------------

  /** Its upload succeeded, to a folder the pass is done with. */
  ghost predicate Received(a: Moment, b: Moment, q: Path) {
    UploadedSince(a, b, q) && LiveFolders(b.db.rows, Parent(q)) && Settled(b.db.rows, Parent(q))
  }

  /** Nothing to upload was forgotten: it is still to be uploaded, or its bytes were received, or
      its file was missing and the row became a pending delete. */
  ghost predicate Keeps(a: Moment, b: Moment) {
    && Later(a, b) && FoldersStay(a.db.rows, b.db.rows)
    && (forall q :: MustUpload(a.db, q) ==>
          MustUpload(b.db, q) || Received(a, b, q) || (Tomb(b.db, q) && q !in a.disk))
    && (forall q :: Tomb(a.db, q) ==> Tomb(b.db, q))
  }

  lemma ReceivedEarlier(a: Moment, b: Moment, c: Moment, q: Path)
    requires Later(a, b) && Received(b, c, q)
    ensures Received(a, c, q)
  {
  }

  lemma ReceivedStays(a: Moment, b: Moment, c: Moment, q: Path)
    requires Received(a, b, q) && b.done <= c.done && FoldersStay(b.db.rows, c.db.rows)
    ensures Received(a, c, q)
  {
    var i :| |a.done| <= i < |b.done|
             && b.done[i] == Uploaded(FolderId(b.db.rows, Parent(q)).value, Last(q), a.disk[q].bytes);
    assert c.done[i] == b.done[i];
  }

  lemma KeepsTwice(a: Moment, b: Moment, c: Moment)
    requires Keeps(a, b) && Keeps(b, c)
    ensures Keeps(a, c)
  {
    forall q | MustUpload(a.db, q)
      ensures MustUpload(c.db, q) || Received(a, c, q) || (Tomb(c.db, q) && q !in a.disk)
    {
      if Received(a, b, q) {
        ReceivedStays(a, b, c, q);
      } else if Received(b, c, q) {
        ReceivedEarlier(a, b, c, q);
      }
    }
  }

  /** What syncing a folder does to a row: of files and pending deletes only the bookkeeping
      changes. */
  predicate FolderStepRow(r: Row, r': Row) {
    && r'.kind == r.kind && r'.tombstone == r.tombstone
    && (!IsDir(r.kind) || r.tombstone ==> r' == r.(syncedPath := r'.syncedPath, lastSynced := r'.lastSynced))
  }

  ghost predicate FolderStep(db: Db, db': Db) {
    && db'.rows.Keys == db.rows.Keys
    && (forall q :: q in db.rows ==> FolderStepRow(db.rows[q], db'.rows[q]))
    && (forall q :: q in db.rows && !IsDir(db.rows[q].kind) ==>
          (PendingContent(db'.ops, q) <==> PendingContent(db.ops, q)))
    && (Untargeted(db.ops) ==> Untargeted(db'.ops))
  }

  /** Only `p` and the folders above it may have stopped being dirty or got an identity. */
  ghost predicate OnlyUpwards(rows: Rows, rows': Rows, p: Path) {
    forall k :: k in rows && !Within(p, k) ==>
      k in rows' && rows'[k].dirty == rows[k].dirty && rows'[k].remoteId == rows[k].remoteId
  }

  lemma OnlyUpwardsTwice(rows: Rows, rows1: Rows, rows2: Rows, p: Path)
    requires OnlyUpwards(rows, rows1, Parent(p)) && OnlyUpwards(rows1, rows2, p)
    ensures OnlyUpwards(rows, rows2, p)
  {
    forall k | k in rows && !Within(p, k) ensures !Within(Parent(p), k) {
      assert Within(Parent(p), k) ==> Within(p, k);
    }
  }

  lemma FolderStepKeeps(a: Moment, b: Moment)
    requires FolderStep(a.db, b.db) && FoldersStay(a.db.rows, b.db.rows) && Later(a, b)
    ensures Keeps(a, b) && (Orderly(a.db.rows) ==> Orderly(b.db.rows))
  {
  }

  lemma FolderStepOrderly(db: Db, db': Db)
    requires FolderStep(db, db') && Orderly(db.rows)
    ensures Orderly(db'.rows)
  {
  }

  lemma FolderStepTwice(db: Db, db1: Db, db2: Db)
    requires FolderStep(db, db1) && FolderStep(db1, db2)
    ensures FolderStep(db, db2)
  {
    forall q | q in db.rows ensures FolderStepRow(db.rows[q], db2.rows[q]) {
      assert FolderStepRow(db.rows[q], db1.rows[q]) && FolderStepRow(db1.rows[q], db2.rows[q]);
    }
  }

  lemma CleanFolderStep(db: Db, p: Path, node: RemoteNode, now: int)
    requires p in db.rows && IsDir(db.rows[p].kind) && !db.rows[p].tombstone && Untargeted(db.ops)
    ensures FolderStep(db, MarkClean(db, p, node, now))
  {
    var db' := MarkClean(db, p, node, now);
    forall q | q in db.rows && !IsDir(db.rows[q].kind)
      ensures PendingContent(db'.ops, q) <==> PendingContent(db.ops, q)
    {
      OpsKept(db.ops, p, q);
    }
  }

  /** Cleaning one path does not touch another's content operations. */
  lemma OpsKept(ops: seq<Op>, p: Path, q: Path)
    requires Untargeted(ops) && p != q
    ensures PendingContent(KeepOps(ops, (o: Op) => !Mentions(o, p)), q) <==> PendingContent(ops, q)
  {
    var kept := KeepOps(ops, (o: Op) => !Mentions(o, p));
    if PendingContent(ops, q) {
      var o :| o in ops && o.path == q && o.kind in {CreateOp, UpdateOp, ConflictCopyOp};
      assert IsContentOp(o) && o in kept;
    }
  }

  lemma SubtreeFolderStep(db: Db, p: Path, now: int)
    requires p in db.rows && IsDir(db.rows[p].kind) && !db.rows[p].tombstone
    ensures FolderStep(db, db.(rows := MarkSyncedSubtree(db.rows, p, now)))
  {
  }

  /** Syncing a folder iCloud has: its subtree adopts its paths, and if it moved it adopts the
      fresh record too. */
  lemma SubtreeSynced(db: Db, p: Path, now: int)
    requires p in db.rows && IsDir(db.rows[p].kind) && !db.rows[p].tombstone && Untargeted(db.ops) && Orderly(db.rows)
    requires InWork(db.rows, p)
    ensures var db' := db.(rows := MarkSyncedSubtree(db.rows, p, now));
            && FolderStep(db, db') && OnlyUpwards(db.rows, db'.rows, p) && Orderly(db'.rows)
            && FoldersStay(db.rows, db'.rows) && SameBut(db.rows, db'.rows, p) && !db'.rows[p].dirty
  {
    SubtreeFolderStep(db, p, now);
    OneRowFoldersStay(db.rows, MarkSyncedSubtree(db.rows, p, now), p);
    FolderStepOrderly(db, db.(rows := MarkSyncedSubtree(db.rows, p, now)));
  }

  lemma FolderCleaned(db: Db, p: Path, node: RemoteNode, now: int)
    requires p in db.rows && IsDir(db.rows[p].kind) && !db.rows[p].tombstone && Untargeted(db.ops) && Orderly(db.rows)
    ensures var db' := MarkClean(db, p, node, now);
            && FolderStep(db, db') && OnlyUpwards(db.rows, db'.rows, p) && Orderly(db'.rows) && Untargeted(db'.ops)
            && SameBut(db.rows, db'.rows, p) && !db'.rows[p].dirty
            && (InWork(db.rows, p) ==> FoldersStay(db.rows, db'.rows))
  {
    CleanFolderStep(db, p, node, now);
    if InWork(db.rows, p) {
      OneRowFoldersStay(db.rows, MarkClean(db, p, node, now).rows, p);
    }
    FolderStepOrderly(db, MarkClean(db, p, node, now));
  }

  lemma FolderMovedClean(db: Db, p: Path, node: RemoteNode, now: int)
    requires p in db.rows && IsDir(db.rows[p].kind) && !db.rows[p].tombstone && Untargeted(db.ops) && Orderly(db.rows)
    requires InWork(db.rows, p)
    ensures var db' := MarkClean(db.(rows := MarkSyncedSubtree(db.rows, p, now)), p, node, now);
            && FolderStep(db, db') && OnlyUpwards(db.rows, db'.rows, p) && Orderly(db'.rows) && Untargeted(db'.ops)
            && FoldersStay(db.rows, db'.rows) && !db'.rows[p].dirty
  {
    var mid := db.(rows := MarkSyncedSubtree(db.rows, p, now));
    SubtreeSynced(db, p, now);
    FolderCleaned(mid, p, node, now);
    FolderStepTwice(db, mid, MarkClean(mid, p, node, now));
    OneRowFoldersStay(db.rows, MarkClean(mid, p, node, now).rows, p);
  }

  /** A live row lies below live folders only. */
  lemma FoldersAbove(rows: Rows, p: Path)
    requires Orderly(rows) && p in rows && !rows[p].tombstone && p != ROOT
    ensures LiveFolders(rows, Parent(p))
  {
    forall g | g in rows && Within(Parent(p), g) ensures !rows[g].tombstone && IsDir(rows[g].kind) {
      assert Within(p, g) && g != p;
    }
  }

  /** The file's own row after a successful upload, or when there was nothing to upload. */
  lemma UploadedKeeps(a: Moment, b: Moment, p: Path, node: RemoteNode, now: int)
    requires Later(a, b) && b.db == MarkClean(a.db, p, node, now) && p != ROOT
    requires p in a.db.rows && !a.db.rows[p].tombstone && !IsDir(a.db.rows[p].kind)
    requires Untargeted(a.db.ops) && Orderly(a.db.rows)
    requires MustUpload(a.db, p) ==>
               UploadedSince(a, Moment(a.db, b.disk, b.done), p) && Settled(a.db.rows, Parent(p))
    ensures Keeps(a, b) && Untargeted(b.db.ops) && Orderly(b.db.rows)
  {
    OneRowFoldersStay(a.db.rows, b.db.rows, p);
    FoldersAbove(a.db.rows, p);
    forall q | MustUpload(a.db, q) ensures MustUpload(b.db, q) || Received(a, b, q) {
      if q != p {
        OpsKept(a.db.ops, p, q);
      } else {
        ReceivedStays(a, Moment(a.db, b.disk, b.done), b, p);
      }
    }
  }

  lemma MissingKeeps(a: Moment, b: Moment, p: Path)
    requires Later(a, b) && b.db == a.db.(rows := MarkTombstone(a.db.rows, p))
    requires p in a.db.rows && !IsDir(a.db.rows[p].kind) && Orderly(a.db.rows) && p !in a.disk
    ensures Keeps(a, b) && Orderly(b.db.rows)
  {
    OneRowFoldersStay(a.db.rows, b.db.rows, p);
  }

  /** A download changes only whether the content is here. */
  ghost predicate Downloaded(db: Db, db': Db, p: Path) {
    && db'.ops == db.ops && p in db.rows
    && exists hydrated, size: nat, mtime ::
         db'.rows == db.rows[p := db.rows[p].(hydrated := hydrated, size := size, mtime := mtime)]
  }

  lemma DownloadedKeeps(a: Moment, b: Moment, p: Path)
    requires Later(a, b) && Downloaded(a.db, b.db, p) && !IsDir(a.db.rows[p].kind)
    ensures Keeps(a, b) && (Orderly(a.db.rows) ==> Orderly(b.db.rows))
    ensures p in b.db.rows && b.db.rows[p].tombstone == a.db.rows[p].tombstone
            && b.db.rows[p].remoteId == a.db.rows[p].remoteId && b.db.rows[p].kind == a.db.rows[p].kind
    ensures MustUpload(a.db, p) ==> MustUpload(b.db, p)
  {
    OneRowFoldersStay(a.db.rows, b.db.rows, p);
  }

  /** Before an upload, a download attempt finds the file there: it never changes the mirror. */
  lemma AttemptBeforeUpload(w: World, p: Path, fetched: Option<Bytes>, now: int)
    requires p in w.db.rows
    ensures var w' := EnsureLocal(w, p, fetched, now).world;
            && Downloaded(w.db, w'.db, p)
            && (Rooted(w.disk) && p in w.disk && (w.db.rows[p].remoteId.None? || PendingContent(w.db.ops, p)) ==>
                  w'.disk == w.disk)
            && (w.db.rows[p].hydrated && p in w.disk ==> w' == w)
  {
    var r := w.db.rows[p];
    assert w.db.rows == w.db.rows[p := r.(hydrated := r.hydrated, size := r.size, mtime := r.mtime)];
    if Rooted(w.disk) && p in w.disk {
      AncestorsAreFolders(w.disk, p, Parent(p));
      ExistingFolder(w.disk, Parent(p));
    }
  }

  // ---- deletes ------------------------------------------------------------------------------

  /** The delete of `d` went through, or iCloud never had it and none was needed. */
  ghost predicate Gone(a: Moment, b: Moment, d: Path) {
    Tomb(a.db, d) && (a.db.rows[d].remoteId.Some? ==> RemovedSince(a, b, a.db.rows[d].remoteId.value))
  }

  /** A pending delete is still there, or its own or an ancestor's delete went through. */
  ghost predicate Released(a: Moment, b: Moment, q: Path) {
    || (q in a.db.rows && q in b.db.rows && b.db.rows[q] == a.db.rows[q])
    || exists d :: Gone(a, b, d) && Within(q, d)
  }

  /** Deletes leave everything live alone. */
  ghost predicate DeleteStep(a: Moment, b: Moment) {
    && Later(a, b)
    && (forall q :: q in a.db.rows && !a.db.rows[q].tombstone ==>
          && q in b.db.rows && b.db.rows[q] == a.db.rows[q]
          && (PendingContent(b.db.ops, q) <==> PendingContent(a.db.ops, q)))
    && (forall q :: q in b.db.rows ==> q in a.db.rows && b.db.rows[q] == a.db.rows[q])
    && (forall q :: Tomb(a.db, q) ==> Released(a, b, q))
    && (Untargeted(a.db.ops) ==> Untargeted(b.db.ops))
  }

  lemma GoneTwice(a: Moment, b: Moment, c: Moment, d: Path)
    requires Later(a, b) && Later(b, c)
    ensures Gone(a, b, d) ==> Gone(a, c, d)
    ensures Gone(b, c, d) && d in a.db.rows && a.db.rows[d] == b.db.rows[d] ==> Gone(a, c, d)
  {
    if Gone(a, b, d) && a.db.rows[d].remoteId.Some? {
      var i :| |a.done| <= i < |b.done| && b.done[i] == Removed(a.db.rows[d].remoteId.value);
      assert c.done[i] == b.done[i];
    }
  }

  lemma ReleasedTwice(a: Moment, b: Moment, c: Moment, q: Path)
    requires DeleteStep(a, b) && DeleteStep(b, c) && Tomb(a.db, q)
    ensures Released(a, c, q)
  {
    assert Released(a, b, q);
    if q in b.db.rows {
      assert Released(b, c, q);
      if q !in c.db.rows || c.db.rows[q] != b.db.rows[q] {
        var d :| Gone(b, c, d) && Within(q, d);
        GoneTwice(a, b, c, d);
      }
    } else {
      var d :| Gone(a, b, d) && Within(q, d);
      GoneTwice(a, b, c, d);
    }
  }

  lemma DeleteStepTwice(a: Moment, b: Moment, c: Moment)
    requires DeleteStep(a, b) && DeleteStep(b, c)
    ensures DeleteStep(a, c)
  {
    forall q | Tomb(a.db, q) ensures Released(a, c, q) {
      ReleasedTwice(a, b, c, q);
    }
  }

  lemma RemovedTombstone(a: Moment, b: Moment, p: Path)
    requires Later(a, b) && b.db == RemoveSubtree(a.db, p)
    requires Orderly(a.db.rows) && Untargeted(a.db.ops) && Gone(a, b, p)
    ensures DeleteStep(a, b)
  {
    forall q | q in a.db.rows && !a.db.rows[q].tombstone
      ensures q in b.db.rows && (PendingContent(b.db.ops, q) <==> PendingContent(a.db.ops, q))
    {
      assert !Within(q, p);
      if PendingContent(a.db.ops, q) {
        var o :| o in a.db.ops && o.path == q && o.kind in {CreateOp, UpdateOp, ConflictCopyOp};
        assert IsContentOp(o) && o in b.db.ops;
      }
    }
    forall q | Tomb(a.db, q) ensures Released(a, b, q) {
      assert Within(q, p) ==> Gone(a, b, p);
    }
  }

  /** What a whole pass promises, whichever calls fail: no byte of the mirror changes; a change
      is still to be uploaded, or its bytes were received under its name in its parent's folder,
      or its file was missing when the pass began and it became a pending delete; a pending
      delete is still one, or its own or an ancestor's delete was reported done. */
  ghost predicate PassSafe(a: Moment, b: Moment) {
    && SameBytes(a.disk, b.disk)
    && (forall q :: MustUpload(a.db, q) ==>
          MustUpload(b.db, q) || UploadedSince(a, b, q) || (Tomb(b.db, q) && q !in a.disk))
    && (forall q :: Tomb(a.db, q) ==> Tomb(b.db, q) || exists d :: Gone(a, b, d) && Within(q, d))
  }

  lemma DeletesThenUploads(a: Moment, b: Moment, c: Moment)
    requires DeleteStep(a, b) && Keeps(b, c) && a.disk == b.disk
    ensures PassSafe(a, c)
  {
    forall q | MustUpload(a.db, q)
      ensures MustUpload(c.db, q) || UploadedSince(a, c, q) || (Tomb(c.db, q) && q !in a.disk)
    {
      assert MustUpload(b.db, q);
      if Received(b, c, q) {
        ReceivedEarlier(a, b, c, q);
      }
    }
    forall q | Tomb(a.db, q) && !Tomb(c.db, q) ensures exists d :: Gone(a, c, d) && Within(q, d) {
      assert Released(a, b, q);
      var d :| Gone(a, b, d) && Within(q, d);
      GoneTwice(a, b, c, d);
    }
  }

  /** Folders before files, shallow before deep. */
  predicate Sooner(rows: Rows, a: Path, b: Path)
    requires a in rows && b in rows
  {
    if IsDir(rows[a].kind) != IsDir(rows[b].kind) then IsDir(rows[a].kind) else |a| < |b|
  }

  // ---- the additive pass ----------------------------------------------------------------------

  datatype Stand = Stand(db: Db, disk: Disk, items: Items, nextId: nat)

  function Dirty(rows: Rows): set<Path> {
    set k | k in rows && rows[k].dirty
  }

  /** The row stands for the item of the same name in the folder its parent stands for. */
  ghost predicate Linked(rows: Rows, items: Items, k: Path)
    requires k in rows && k != ROOT
  {
    && rows[k].remoteId.Some? && rows[k].remoteId.value in items
    && FolderId(rows, Parent(k)).Some?
    && var item := items[rows[k].remoteId.value];
       item.name == Last(k) && item.kind == rows[k].kind && item.parent == FolderId(rows, Parent(k))
  }

  /** A row for something made here that iCloud has never had, with its content in the mirror. */
  ghost predicate LocalOnly(s: Stand, k: Path)
    requires k in s.db.rows && k != ROOT
  {
    var r := s.db.rows[k];
    && r.remoteId.None? && r.syncedPath.None? && !r.tombstone && r.kind in {File, Folder}
    && (r.kind == File ==> r.hydrated && IsFile(s.disk, k))
    && (Parent(k) == ROOT || (Parent(k) in s.db.rows && IsDir(s.db.rows[Parent(k)].kind)))
  }

  ghost predicate NameFree(s: Stand, k: Path)
    requires k != ROOT
  {
    var folder := FolderId(s.db.rows, Parent(k));
    folder.Some? ==> !Taken(s.items, folder.value, Last(k))
  }

  /** Ids are handed out in order, and nothing lies in a folder that does not exist. */
  ghost predicate Sane(items: Items, nextId: nat) {
    && ROOT_ID in items && items[ROOT_ID].parent.None?
    && (forall kind, n: nat :: n > nextId ==> ItemId(kind, n) !in items)
    && (forall id :: id in items && items[id].parent.Some? ==>
          items[id].parent.value in items || items[id].parent.value == "TRASH")
  }

  /** Clean rows stand for their items; dirty rows are all local-only and their names free. */
  ghost predicate Additive(s: Stand) {
    && Sane(s.items, s.nextId) && ROOT !in s.db.rows
    && (forall k :: k in s.db.rows && !s.db.rows[k].dirty ==> !s.db.rows[k].tombstone && Linked(s.db.rows, s.items, k))
    && (forall k :: k in s.db.rows && s.db.rows[k].dirty ==> LocalOnly(s, k) && NameFree(s, k))
  }

  ghost predicate IsNumbered(s: Stand, p: Path, kind: Kind, n: nat) {
    FolderId(s.db.rows, p) == Some(ItemId(kind, n))
  }

  /** The item was made between the two moments, and after that of the folder it is in if that
      one was made then too: ids are handed out in order. */
  ghost predicate MadeInOrder(s: Stand, s': Stand, k: Path, n: nat)
    requires k in s.db.rows && k in s'.db.rows
  {
    && s.nextId < n <= s'.nextId && s'.db.rows[k].remoteId == Some(ItemId(s.db.rows[k].kind, n))
    && (Parent(k) in s.db.rows && s.db.rows[Parent(k)].dirty ==>
          exists m: nat :: IsNumbered(s', Parent(k), s.db.rows[Parent(k)].kind, m) && s.nextId < m < n)
  }

  /** The item a row came to stand for. */
  ghost predicate Sent(s: Stand, s': Stand, k: Path)
    requires ROOT !in s.db.rows && k in s.db.rows && k in s'.db.rows
  {
    && (exists n: nat :: MadeInOrder(s, s', k, n))
    && !s'.db.rows[k].dirty && s'.db.rows[k].kind == s.db.rows[k].kind && Linked(s'.db.rows, s'.items, k)
    && s'.db.rows[k].remoteId.value !in s.items
    && (IsFile(s.disk, k) && s.db.rows[k].kind == File ==>
          s'.items[s'.db.rows[k].remoteId.value].data == s.disk[k].bytes)
  }

  ghost predicate NewItemOf(s: Stand, s': Stand, id: string) {
    exists k ::
      && k in s.db.rows && k in s'.db.rows && s.db.rows[k].dirty
      && !s'.db.rows[k].dirty && s'.db.rows[k].remoteId == Some(id)
  }

  /** Between two moments of the pass some dirty rows were sent, one new item each, and nothing
      else changed. */
  ghost predicate Grew(s: Stand, s': Stand) {
    && ROOT !in s.db.rows && s'.db.rows.Keys == s.db.rows.Keys && SameBytes(s.disk, s'.disk)
    && (forall k :: k in s.db.rows && !s.db.rows[k].dirty ==> s'.db.rows[k] == s.db.rows[k])
    && (forall k :: k in s.db.rows && s.db.rows[k].dirty ==> s'.db.rows[k] == s.db.rows[k] || Sent(s, s', k))
    && (forall id :: id in s.items ==> id in s'.items && s'.items[id] == s.items[id])
    && (forall id :: id in s'.items && id !in s.items ==> NewItemOf(s, s', id))
    && s.nextId <= s'.nextId && s'.nextId - s.nextId == |Dirty(s.db.rows)| - |Dirty(s'.db.rows)|
  }

  lemma GrewTwice(s: Stand, s1: Stand, s2: Stand)
    requires Grew(s, s1) && Grew(s1, s2) && Additive(s1)
    ensures Grew(s, s2)
  {
    forall k | k in s.db.rows && s.db.rows[k].dirty ensures s2.db.rows[k] == s.db.rows[k] || Sent(s, s2, k) {
      SentLater(s, s1, s2, k);
    }
    forall id | id in s2.items && id !in s.items ensures NewItemOf(s, s2, id) {
      NewItemLater(s, s1, s2, id);
    }
  }

  lemma StaysClean(s: Stand, s': Stand, done: set<Path>)
    requires Grew(s, s') && forall k :: k in done ==> k in s.db.rows && !s.db.rows[k].dirty
    ensures forall k :: k in done ==> k in s'.db.rows && !s'.db.rows[k].dirty
  {
  }

  /** A folder with an identity keeps it. */
  lemma FolderStays(s: Stand, s': Stand, p: Path)
    requires Additive(s) && Grew(s, s') && p in s.db.rows && p != ROOT
    ensures FolderId(s.db.rows, p).Some? ==> !s.db.rows[p].dirty && FolderId(s'.db.rows, p) == FolderId(s.db.rows, p)
    ensures !s.db.rows[p].dirty ==> s'.db.rows[p] == s.db.rows[p]
  {
    assert s.db.rows[p].dirty ==> LocalOnly(s, p);
  }

  lemma OrderStays(s: Stand, s1: Stand, s2: Stand, k: Path, n: nat)
    requires Grew(s, s1) && Grew(s1, s2) && Additive(s1) && k in s.db.rows && MadeInOrder(s, s1, k, n)
    ensures MadeInOrder(s, s2, k, n)
  {
    FolderStays(s1, s2, k);
    if Parent(k) in s.db.rows && s.db.rows[Parent(k)].dirty {
      var m: nat :| IsNumbered(s1, Parent(k), s.db.rows[Parent(k)].kind, m) && s.nextId < m < n;
      FolderStays(s1, s2, Parent(k));
      assert IsNumbered(s2, Parent(k), s.db.rows[Parent(k)].kind, m);
    }
  }

  lemma OrderLater(s: Stand, s1: Stand, s2: Stand, k: Path, n: nat)
    requires Grew(s, s1) && Grew(s1, s2) && Additive(s1) && k in s.db.rows && s1.db.rows[k] == s.db.rows[k]
    requires MadeInOrder(s1, s2, k, n)
    ensures MadeInOrder(s, s2, k, n)
  {
    var p := Parent(k);
    if p in s.db.rows && s.db.rows[p].dirty {
      if s1.db.rows[p].dirty {
        var m: nat :| IsNumbered(s2, p, s1.db.rows[p].kind, m) && s1.nextId < m < n;
        assert s1.db.rows[p] == s.db.rows[p];
        assert IsNumbered(s2, p, s.db.rows[p].kind, m);
      } else {
        assert Sent(s, s1, p);
        var m: nat :| MadeInOrder(s, s1, p, m);
        FolderStays(s1, s2, p);
        assert IsNumbered(s2, p, s.db.rows[p].kind, m);
      }
    }
  }

  lemma SentLater(s: Stand, s1: Stand, s2: Stand, k: Path)
    requires Grew(s, s1) && Grew(s1, s2) && Additive(s1) && k in s.db.rows && s.db.rows[k].dirty
    ensures s2.db.rows[k] == s.db.rows[k] || Sent(s, s2, k)
  {
    if s1.db.rows[k] != s.db.rows[k] {
      SentStays(s, s1, s2, k);
    } else if s2.db.rows[k] != s1.db.rows[k] {
      assert Sent(s1, s2, k);
      var n: nat :| MadeInOrder(s1, s2, k, n);
      OrderLater(s, s1, s2, k, n);
      assert IsFile(s.disk, k) ==> s1.disk[k].bytes == s.disk[k].bytes;
    }
  }

  lemma SentStays(s: Stand, s1: Stand, s2: Stand, k: Path)
    requires Grew(s, s1) && Grew(s1, s2) && Additive(s1) && k in s.db.rows && Sent(s, s1, k)
    ensures Sent(s, s2, k)
  {
    LinkedLater(s1, s2, k);
    var n: nat :| MadeInOrder(s, s1, k, n);
    OrderStays(s, s1, s2, k, n);
  }

  lemma LinkedLater(s: Stand, s': Stand, k: Path)
    requires Additive(s) && Grew(s, s') && k in s.db.rows && !s.db.rows[k].dirty
    ensures s'.db.rows[k] == s.db.rows[k] && Linked(s'.db.rows, s'.items, k)
  {
    assert Linked(s.db.rows, s.items, k);
    assert Parent(k) != ROOT ==> !s.db.rows[Parent(k)].dirty;
  }

  lemma NewItemLater(s: Stand, s1: Stand, s2: Stand, id: string)
    requires Grew(s, s1) && Grew(s1, s2) && id in s2.items && id !in s.items
    ensures NewItemOf(s, s2, id)
  {
    if id in s1.items {
      assert NewItemOf(s, s1, id);
    } else {
      assert NewItemOf(s1, s2, id);
    }
  }

  // ---- sending one row -------------------------------------------------------------------------

  lemma FolderLinked(s: Stand, p: Path)
    requires Additive(s) && p != ROOT && FolderId(s.db.rows, p).Some?
    ensures p in s.db.rows && !s.db.rows[p].dirty && Linked(s.db.rows, s.items, p)
  {
    assert s.db.rows[p].dirty ==> LocalOnly(s, p);
  }

  lemma SameItem(rows: Rows, items: Items, a: Path, b: Path)
    requires a in rows && b in rows && a != ROOT && b != ROOT && Linked(rows, items, a) && Linked(rows, items, b)
    requires rows[a].remoteId == rows[b].remoteId
    ensures Last(a) == Last(b)
    ensures FolderId(rows, Parent(a)).Some? && FolderId(rows, Parent(a)) == FolderId(rows, Parent(b))
  {
  }

  lemma Whole(p: Path)
    requires p != ROOT
    ensures p == Parent(p) + [Last(p)]
  {
  }

  /** Folders that stand for one item are in folders that do, under one name. */
  lemma SameFolder(s: Stand, a: Path, b: Path)
    requires Additive(s) && FolderId(s.db.rows, a).Some? && FolderId(s.db.rows, a) == FolderId(s.db.rows, b) && a != b
    ensures a != ROOT && b != ROOT && Last(a) == Last(b) && FolderId(s.db.rows, Parent(a)).Some?
    ensures FolderId(s.db.rows, Parent(a)) == FolderId(s.db.rows, Parent(b))
  {
    if a != ROOT { FolderLinked(s, a); }
    if b != ROOT { FolderLinked(s, b); }
    if a != ROOT && b != ROOT {
      SameItem(s.db.rows, s.items, a, b);
    }
  }

  /** Different folders stand for different items. */
  lemma {:induction false} FolderIdInjective(s: Stand, a: Path, b: Path)
    requires Additive(s) && FolderId(s.db.rows, a).Some? && FolderId(s.db.rows, a) == FolderId(s.db.rows, b)
    ensures a == b
    decreases |a|
  {
    if a != b {
      SameFolder(s, a, b);
      FolderIdInjective(s, Parent(a), Parent(b));
      Whole(a);
      Whole(b);
    }
  }

  lemma FolderExists(s: Stand, p: Path)
    requires Additive(s) && FolderId(s.db.rows, p).Some?
    ensures FolderId(s.db.rows, p).value in s.items
  {
    if p != ROOT {
      FolderLinked(s, p);
    }
  }

  lemma IdLength(kind: Kind, n: nat)
    ensures ItemId(kind, n) != "TRASH"
  {
    assert |"::com.apple.CloudDocs::"| == 23;
    assert |ItemId(kind, n)| >= 23;
    assert |"TRASH"| == 5;
  }

  /** After row `k` was sent. */
  ghost function After(s: Stand, k: Path, data: Bytes, modified: int, now: int, ops: seq<Op>, disk: Disk): Stand
    requires k in s.db.rows && k != ROOT && FolderId(s.db.rows, Parent(k)).Some?
  {
    var kind, n := s.db.rows[k].kind, s.nextId + 1;
    var items := Created(s.items, n, FolderId(s.db.rows, Parent(k)).value, Last(k), kind, data, modified);
    var node := Node(ItemId(kind, n), items[ItemId(kind, n)]);
    Stand(s.db.(rows := s.db.rows[k := CleanRow(k, s.db.rows[k], node, now)], ops := ops), disk, items, n)
  }

  ghost predicate Sendable(s: Stand, k: Path, data: Bytes, disk: Disk) {
    && Additive(s) && k in s.db.rows && s.db.rows[k].dirty && FolderId(s.db.rows, Parent(k)).Some?
    && SameBytes(s.disk, disk) && (s.db.rows[k].kind == File ==> IsFile(s.disk, k) && data == s.disk[k].bytes)
  }

  lemma AfterItems(s: Stand, k: Path, data: Bytes, modified: int, now: int, ops: seq<Op>, disk: Disk)
    requires Sendable(s, k, data, disk)
    ensures var s' := After(s, k, data, modified, now, ops, disk);
            var id := ItemId(s.db.rows[k].kind, s.nextId + 1);
            && id !in s.items && id != "TRASH" && FolderId(s.db.rows, Parent(k)).value in s.items
            && s'.items ==
               s.items[id := Item(FolderId(s.db.rows, Parent(k)), Last(k), s.db.rows[k].kind, data, 1, modified)]
            && Sane(s'.items, s'.nextId)
  {
    IdLength(s.db.rows[k].kind, s.nextId + 1);
    FolderExists(s, Parent(k));
    assert NameFree(s, k);
    var s', id := After(s, k, data, modified, now, ops, disk), ItemId(s.db.rows[k].kind, s.nextId + 1);
    forall kind, n: nat | n > s'.nextId ensures ItemId(kind, n) !in s'.items {
      if ItemId(kind, n) == id {
        IdsDiffer(kind, n, s.db.rows[k].kind, s.nextId + 1);
      }
    }
  }

  /** Sending a row keeps the pass additive. */
  lemma AfterAdditive(s: Stand, k: Path, data: Bytes, modified: int, now: int, ops: seq<Op>, disk: Disk)
    requires Sendable(s, k, data, disk)
    ensures Additive(After(s, k, data, modified, now, ops, disk))
  {
    AfterItems(s, k, data, modified, now, ops, disk);
    var s' := After(s, k, data, modified, now, ops, disk);
    forall j | j in s'.db.rows
      ensures !s'.db.rows[j].dirty ==> !s'.db.rows[j].tombstone && Linked(s'.db.rows, s'.items, j)
      ensures s'.db.rows[j].dirty ==> LocalOnly(s', j) && NameFree(s', j)
    {
      if s'.db.rows[j].dirty {
        AfterLocalOnly(s, k, data, modified, now, ops, disk, j);
        AfterNameFree(s, k, data, modified, now, ops, disk, j);
      } else {
        AfterLinked(s, k, data, modified, now, ops, disk, j);
      }
    }
  }

  lemma AfterLinked(s: Stand, k: Path, data: Bytes, modified: int, now: int, ops: seq<Op>, disk: Disk, j: Path)
    requires Sendable(s, k, data, disk) && j in s.db.rows && (j == k || !s.db.rows[j].dirty)
    ensures var s' := After(s, k, data, modified, now, ops, disk);
            Linked(s'.db.rows, s'.items, j) && !s'.db.rows[j].dirty && !s'.db.rows[j].tombstone
  {
    AfterItems(s, k, data, modified, now, ops, disk);
    assert s.db.rows[k].remoteId.None?;
    assert FolderId(s.db.rows, Parent(j)).Some? ==> Parent(j) != k || Parent(j) == ROOT;
  }

  lemma AfterLocalOnly(s: Stand, k: Path, data: Bytes, modified: int, now: int, ops: seq<Op>, disk: Disk, j: Path)
    requires Sendable(s, k, data, disk) && j in s.db.rows && j != k && s.db.rows[j].dirty
    ensures LocalOnly(After(s, k, data, modified, now, ops, disk), j)
  {
    assert LocalOnly(s, j);
  }

  lemma DistinctPlaces(s: Stand, k: Path, j: Path)
    requires Additive(s) && k != ROOT && j != ROOT && j != k && FolderId(s.db.rows, Parent(k)).Some?
    ensures FolderId(s.db.rows, Parent(j)) == FolderId(s.db.rows, Parent(k)) ==> Last(j) != Last(k)
  {
    if FolderId(s.db.rows, Parent(j)) == FolderId(s.db.rows, Parent(k)) {
      FolderIdInjective(s, Parent(j), Parent(k));
      Whole(j);
      Whole(k);
    }
  }

  lemma NameStaysFree(s: Stand, s': Stand, k: Path, j: Path, id: string, item: Item, r: Row)
    requires k != ROOT && j != ROOT && ROOT !in s.db.rows && Sane(s.items, s.nextId) && NameFree(s, j)
    requires s'.db.rows == s.db.rows[k := r] && r.remoteId == Some(id) && s'.items == s.items[id := item]
    requires id !in s.items && id != "TRASH" && item.parent.Some? && item.parent.value in s.items
    requires FolderId(s.db.rows, Parent(j)) == item.parent ==> Last(j) != item.name
    ensures NameFree(s', j)
  {
    if Parent(j) == k {
      NothingInside(s, id, item, Last(j));
    } else if FolderId(s'.db.rows, Parent(j)).Some? {
      StillFree(s.items, id, item, FolderId(s.db.rows, Parent(j)).value, Last(j));
    }
  }

  lemma AfterNameFree(s: Stand, k: Path, data: Bytes, modified: int, now: int, ops: seq<Op>, disk: Disk, j: Path)
    requires Sendable(s, k, data, disk) && j in s.db.rows && j != k && s.db.rows[j].dirty
    ensures NameFree(After(s, k, data, modified, now, ops, disk), j)
  {
    AfterItems(s, k, data, modified, now, ops, disk);
    var s', id := After(s, k, data, modified, now, ops, disk), ItemId(s.db.rows[k].kind, s.nextId + 1);
    var item := Item(FolderId(s.db.rows, Parent(k)), Last(k), s.db.rows[k].kind, data, 1, modified);
    DistinctPlaces(s, k, j);
    assert NameFree(s, j);
    NameStaysFree(s, s', k, j, id, item, s'.db.rows[k]);
  }

  lemma StillFree(items: Items, id: string, item: Item, folder: string, name: string)
    requires !Taken(items, folder, name) && !(item.parent == Some(folder) && item.name == name)
    ensures !Taken(items[id := item], folder, name)
  {
  }

  lemma NothingInside(s: Stand, id: string, item: Item, name: string)
    requires Sane(s.items, s.nextId) && id !in s.items && id != "TRASH"
    requires item.parent.Some? && item.parent.value in s.items
    ensures !Taken(s.items[id := item], id, name)
  {
  }

  lemma AfterGrew(s: Stand, k: Path, data: Bytes, modified: int, now: int, ops: seq<Op>, disk: Disk)
    requires Sendable(s, k, data, disk)
    ensures Grew(s, After(s, k, data, modified, now, ops, disk))
  {
    AfterItems(s, k, data, modified, now, ops, disk);
    AfterLinked(s, k, data, modified, now, ops, disk, k);
    var s', id := After(s, k, data, modified, now, ops, disk), ItemId(s.db.rows[k].kind, s.nextId + 1);
    assert Dirty(s'.db.rows) == Dirty(s.db.rows) - {k};
    if Parent(k) != ROOT {
      FolderLinked(s, Parent(k));
    }
    assert MadeInOrder(s, s', k, s.nextId + 1);
    assert Sent(s, s', k);
    assert NewItemOf(s, s', id);
  }

  /** The service made the item for row `k`, and asking for the name returned `meta`. */
  ghost predicate Made(s: Stand, s': Stand, k: Path, data: Bytes, modified: int, meta: RemoteNode)
    requires k in s.db.rows && k != ROOT && FolderId(s.db.rows, Parent(k)).Some?
  {
    var folder := FolderId(s.db.rows, Parent(k)).value;
    && s'.db == s.db && s'.disk == s.disk && s'.nextId == s.nextId + 1
    && s'.items == Created(s.items, s'.nextId, folder, Last(k), s.db.rows[k].kind, data, modified)
    && meta.id in s'.items && s'.items[meta.id].parent == Some(folder) && meta.name == Last(k)
    && meta == Node(meta.id, s'.items[meta.id])
  }

  /** Asking for the name again finds what was just made. */
  lemma FindsNewItem(s: Stand, k: Path, data: Bytes, modified: int)
    requires Sendable(s, k, data, s.disk)
    ensures var folder, id := FolderId(s.db.rows, Parent(k)).value, ItemId(s.db.rows[k].kind, s.nextId + 1);
            var items := Created(s.items, s.nextId + 1, folder, Last(k), s.db.rows[k].kind, data, modified);
            && folder in s.items && folder in items && Taken(items, folder, Last(k))
            && forall i :: i in items && items[i].parent == Some(folder) && items[i].name == Last(k) ==> i == id
  {
    AfterItems(s, k, data, modified, 0, [], s.disk);
    assert NameFree(s, k);
    var id := ItemId(s.db.rows[k].kind, s.nextId + 1);
    var folder := FolderId(s.db.rows, Parent(k)).value;
    var items := Created(s.items, s.nextId + 1, folder, Last(k), s.db.rows[k].kind, data, modified);
    assert items[id].name == Last(k);
  }

  /** After an item was made, asking for its name finds something. */
  lemma CreatedIsThere(items: Items, n: nat, folder: string, name: string, kind: Kind, data: Bytes, modified: int)
    ensures folder in items && ItemId(kind, n) !in items ==>
              var items' := Created(items, n, folder, name, kind, data, modified);
              && folder in items' && Taken(items', folder, name)
              && forall id :: id in items ==> id in items' && items'[id] == items[id]
  {
    var items', id := Created(items, n, folder, name, kind, data, modified), ItemId(kind, n);
    if Taken(items, folder, name) && id !in items {
      var other :| other in items && items[other].parent == Some(folder) && items[other].name == name;
      assert items'[other] == items[other];
    } else if id !in items {
      assert items'[id].name == name && items'[id].parent == Some(folder);
    }
  }

  /** There is room for the item of row `k`: its folder is there and its number is new. */
  lemma RoomForItem(s: Stand, k: Path, data: Bytes, disk: Disk)
    requires Sendable(s, k, data, disk)
    ensures FolderId(s.db.rows, Parent(k)).value in s.items && ItemId(s.db.rows[k].kind, s.nextId + 1) !in s.items
  {
    FolderExists(s, Parent(k));
  }

  ghost function WithItem(s: Stand, f: Path, name: string, kind: Kind, data: Bytes, modified: int): Stand
    requires FolderId(s.db.rows, f).Some?
  {
    s.(items := Created(s.items, s.nextId + 1, FolderId(s.db.rows, f).value, name, kind, data, modified),
       nextId := s.nextId + 1)
  }

  /** The row adopts the new item and is clean: the pass stays additive and has moved on. */
  lemma SentStep(s: Stand, made: Stand, s': Stand, k: Path, data: Bytes, modified: int, meta: RemoteNode, now: int)
    requires Sendable(s, k, data, s'.disk) && Made(s, made, k, data, modified, meta)
    requires s'.items == made.items && s'.nextId == made.nextId && s'.db == MarkClean(s.db, k, meta, now)
    ensures Additive(s') && Grew(s, s') && !s'.db.rows[k].dirty
  {
    FindsNewItem(s, k, data, modified);
    assert s' == After(s, k, data, modified, now, s'.db.ops, s'.disk);
    AfterAdditive(s, k, data, modified, now, s'.db.ops, s'.disk);
    AfterGrew(s, k, data, modified, now, s'.db.ops, s'.disk);
  }

  // ---- what a complete pass leaves ---------------------------------------------------------------

  /** Every item iCloud has belongs to a row. */
  ghost predicate NothingElse(s: Stand) {
    forall id :: id in s.items && id != ROOT_ID ==>
      exists k :: k in s.db.rows && !s.db.rows[k].dirty && s.db.rows[k].remoteId == Some(id)
  }

  /** The remote tree is the rows: each row stands for one item of its name and kind in its
      parent's folder, no two for the same, and there are no other items. */
  ghost predicate RemoteEqualsRows(s: Stand) {
    && ROOT !in s.db.rows
    && (forall k :: k in s.db.rows ==> !s.db.rows[k].dirty && !s.db.rows[k].tombstone && Linked(s.db.rows, s.items, k))
    && (forall j, k :: j in s.db.rows && k in s.db.rows && s.db.rows[j].remoteId == s.db.rows[k].remoteId ==> j == k)
    && NothingElse(s)
  }

  lemma CompletePass(s: Stand, s': Stand)
    requires Additive(s') && Grew(s, s') && Dirty(s'.db.rows) == {} && NothingElse(s)
    ensures RemoteEqualsRows(s')
  {
    forall k | k in s'.db.rows ensures !s'.db.rows[k].dirty {
      assert k !in Dirty(s'.db.rows);
    }
    forall j, k | j in s'.db.rows && k in s'.db.rows && s'.db.rows[j].remoteId == s'.db.rows[k].remoteId
      ensures j == k
    {
      assert Linked(s'.db.rows, s'.items, j);
      FolderIdInjective(s', j, k);
    }
    forall id | id in s'.items && id != ROOT_ID
      ensures exists k :: k in s'.db.rows && !s'.db.rows[k].dirty && s'.db.rows[k].remoteId == Some(id)
    {
      if id in s.items {
        var k :| k in s.db.rows && !s.db.rows[k].dirty && s.db.rows[k].remoteId == Some(id);
        assert s'.db.rows[k] == s.db.rows[k];
      } else {
        assert NewItemOf(s, s', id);
      }
    }
  }

  /** And every file that was sent has the mirror's bytes. */
  lemma SentBytes(s: Stand, s': Stand, k: Path)
    requires Additive(s) && Grew(s, s') && Dirty(s'.db.rows) == {} && k in Dirty(s.db.rows) && s.db.rows[k].kind == File
    ensures IsFile(s'.disk, k) && s'.db.rows[k].remoteId.Some? && s'.db.rows[k].remoteId.value in s'.items
    ensures s'.items[s'.db.rows[k].remoteId.value].data == s'.disk[k].bytes
  {
    assert LocalOnly(s, k) && k !in Dirty(s'.db.rows);
    assert Sent(s, s', k);
  }

  /** Each new folder was made before what went into it. */
  lemma FoldersBeforeContents(s: Stand, s': Stand, k: Path)
    requires Additive(s) && Grew(s, s') && Dirty(s'.db.rows) == {}
    requires k in Dirty(s.db.rows) && Parent(k) in Dirty(s.db.rows)
    ensures exists m: nat, n: nat ::
      && IsNumbered(s', Parent(k), s.db.rows[Parent(k)].kind, m) && IsNumbered(s', k, s.db.rows[k].kind, n)
      && s.nextId < m < n <= s'.nextId
  {
    assert LocalOnly(s, k) && k !in Dirty(s'.db.rows);
    assert Sent(s, s', k);
    var n: nat :| MadeInOrder(s, s', k, n);
    assert IsNumbered(s', k, s.db.rows[k].kind, n);
  }
}
