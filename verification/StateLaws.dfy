/** What the multi-row transactions of the state database mean, row by row. */
module StateLaws {
  import opened Paths
  import opened Rekeying
  import opened Tables

  /** The `parent_path` column agrees with the key. */
  ghost predicate ParentColumn(rows: Rows) {
    forall k :: k in rows ==> rows[k].parentPath == Parent(k)
  }

  /** Only the key, the parent, the synced path and possibly the dirty flag differ. */
  predicate SameItem(r: Row, r': Row) {
    && r.kind == r'.kind && r.remoteId == r'.remoteId && r.etag == r'.etag && r.size == r'.size
    && r.mtime == r'.mtime && r.hydrated == r'.hydrated && r.lastSynced == r'.lastSynced
  }

  /** `rename_tree` between unrelated paths: where every row ends up, and that there is
      nothing else. */
  lemma RenameTreeMoves(db: Db, from: Path, to: Path, rootDirty: bool, updateSynced: bool, mark: Path -> string)
    requires Apart(from, to) && FreshMarks(db.rows, from, to, mark) && Subtree(db.rows, from) != {}
    ensures var rows, rows' := db.rows, RenameTree(db, from, to, rootDirty, updateSynced, mark).rows;
            && (forall k :: k in rows ==> WentRight(rows, rows', from, to, rootDirty, updateSynced, mark, k))
            && (forall j :: j in rows' ==> CameRight(rows, from, to, mark, j))
            && MarkersForgotten(db.listings, RenameTree(db, from, to, rootDirty, updateSynced, mark).listings, from)
  {
    var rows := db.rows;
    RenamedKeysDistinct(rows, from, to, mark);
    var rows' := RenamedRows(rows, from, to, rootDirty, updateSynced, mark);
    forall k | k in rows ensures WentRight(rows, rows', from, to, rootDirty, updateSynced, mark, k) {
      RowWentRight(rows, from, to, rootDirty, updateSynced, mark, k);
    }
    forall j | j in rows' ensures CameRight(rows, from, to, mark, j) {
      var k := RenamedRowFrom(rows, from, to, rootDirty, updateSynced, mark, j);
      if Within(k, from) { ApartBelow(k, from, to); }
    }
  }

  /** Folders at or below `p` count as never listed; the others as before. */
  ghost predicate MarkersForgotten(listings: map<Path, int>, listings': map<Path, int>, p: Path) {
    && (forall k :: k in listings' <==> k in listings && !Within(k, p))
    && (forall k :: k in listings' ==> listings'[k] == listings[k])
  }

  /** Removing a subtree takes its rows, the operations that name them and its listing markers, and
      leaves everything else. */
  lemma SubtreeIsRemoved(db: Db, p: Path)
    ensures var db' := RemoveSubtree(db, p);
            && (forall k :: k in db'.rows <==> k in db.rows && !Within(k, p))
            && (forall k :: k in db'.rows ==> db'.rows[k] == db.rows[k])
            && (forall o :: o in db'.ops <==>
                  o in db.ops && !Within(o.path, p) && (o.target.Some? ==> !Within(o.target.value, p)))
            && MarkersForgotten(db.listings, db'.listings, p)
  {
  }

  /** A row whose change reached iCloud says what iCloud says, is known there where it is, since now, and
      asks for nothing; no operation that names it is left, and no other was dropped. */
  lemma RowIsCleaned(db: Db, p: Path, node: RemoteNode, now: int)
    requires p in db.rows
    ensures var db', r := MarkClean(db, p, node, now), db.rows[p];
            && db'.rows == db.rows[p := Row(r.kind, r.parentPath, Some(node.id),
                                            if node.etag.Some? then node.etag else r.etag, node.size, node.modified,
                                            r.kind != File || r.hydrated, false, false, Some(now), Some(p))]
            && (forall o :: o in db'.ops <==> o in db.ops && o.path != p && o.target != Some(p))
            && db'.listings == db.listings
  {
  }

  /** A changed row asks for attention, live again if it was deleted meanwhile, with the size, time and
      hydration given. */
  lemma RowIsDirtied(rows: Rows, p: Path, size: Option<nat>, mtime: Option<int>, hydrated: Option<bool>)
    requires p in rows
    ensures var r := rows[p];
            MarkDirty(rows, p, size, mtime, hydrated) ==
            rows[p := Row(r.kind, r.parentPath, r.remoteId, r.etag, if size.Some? then size.value else r.size,
                          if mtime.Some? then mtime.value else r.mtime,
                          if hydrated.Some? then hydrated.value else r.hydrated, true, false,
                          r.lastSynced, r.syncedPath)]
  {
  }

  /** A folder and all below it are known to iCloud where they are; only the folder itself has
      nothing left to do. */
  lemma SubtreeIsKnown(rows: Rows, p: Path, now: int, k: Path)
    requires k in rows
    ensures var rows' := MarkSyncedSubtree(rows, p, now);
            && rows'.Keys == rows.Keys
            && (!Within(k, p) ==> rows'[k] == rows[k])
            && (Within(k, p) ==>
                  && SameItem(rows[k].(lastSynced := Some(now)), rows'[k]) && rows'[k].syncedPath == Some(k)
                  && (k != p ==> rows'[k].dirty == rows[k].dirty && rows'[k].tombstone == rows[k].tombstone))
            && (k == p ==> !rows'[k].dirty && !rows'[k].tombstone)
  {
  }

  /** Where row `k` should be. */
  ghost predicate WentRight(rows: Rows, rows': Rows, from: Path, to: Path, rootDirty: bool, updateSynced: bool,
                            mark: Path -> string, k: Path)
    requires k in rows
  {
    if Within(k, from) then
      k !in rows' && Rebase(k, from, to) in rows'
      && MovedRight(k, rows[k], rows'[Rebase(k, from, to)], from, to, rootDirty, updateSynced)
    else if Within(k, to) then
      rows[k].remoteId.Some? ==> Grave(k, mark(k)) in rows' && BuriedRight(k, rows[k], rows'[Grave(k, mark(k))])
    else k in rows' && rows'[k] == rows[k]
  }

  /** Where row `j` should have come from. */
  ghost predicate CameRight(rows: Rows, from: Path, to: Path, mark: Path -> string, j: Path) {
    || (exists k :: k in rows && Within(k, from) && Rebase(k, from, to) == j)
    || (exists q :: q in rows && Within(q, to) && rows[q].remoteId.Some? && Grave(q, mark(q)) == j)
    || (j in rows && !Within(j, from) && !Within(j, to))
  }

  /** Remote fields kept, the parent right, only the root newly dirty, the synced path following a
      move made on iCloud. */
  ghost predicate MovedRight(k: Path, r: Row, r': Row, from: Path, to: Path, rootDirty: bool, updateSynced: bool)
    requires Within(k, from)
  {
    && SameItem(r, r') && r'.tombstone == r.tombstone && r'.parentPath == Parent(Rebase(k, from, to))
    && (r'.dirty <==> r.dirty || (rootDirty && k == from))
    && (if updateSynced then SyncedFollows(r.syncedPath, r'.syncedPath, from, to) else r'.syncedPath == r.syncedPath)
  }

  /** The place iCloud knows the item at moves along if it is in the moved folder. */
  ghost predicate SyncedFollows(synced: Option<Path>, synced': Option<Path>, from: Path, to: Path) {
    && (forall rest: Path :: synced == Some(from + rest) ==> synced' == Some(to + rest))
    && ((forall rest: Path :: synced != Some(from + rest)) ==> synced' == synced)
  }

  lemma SyncedPathFollows(synced: Option<Path>, from: Path, to: Path)
    ensures SyncedFollows(synced, RenamedSynced(synced, from, to, true), from, to)
  {
    forall rest: Path | synced == Some(from + rest)
      ensures RenamedSynced(synced, from, to, true) == Some(to + rest)
    {
      assert (from + rest)[..|from|] == from && (from + rest)[|from|..] == rest;
    }
    if synced.Some? && Within(synced.value, from) {
      assert synced.value == from + synced.value[|from|..];
    }
  }

  /** A pending delete naming the old identity. */
  predicate BuriedRight(q: Path, r: Row, r': Row) {
    && SameItem(r, r') && r'.tombstone && r'.dirty && r'.parentPath == r.parentPath
    && r'.syncedPath == Some(Coalesce(r.syncedPath, q))
  }

  lemma RowWentRight(rows: Rows, from: Path, to: Path, rootDirty: bool, updateSynced: bool, mark: Path -> string,
                     k: Path)
    requires Apart(from, to) && FreshMarks(rows, from, to, mark) && Injective(RenamedKeys(rows, from, to, mark))
    requires k in rows
    ensures WentRight(rows, RenamedRows(rows, from, to, rootDirty, updateSynced, mark), from, to, rootDirty,
                      updateSynced, mark, k)
  {
    if Within(k, from) {
      SyncedPathFollows(rows[k].syncedPath, from, to);
      ApartBelow(k, from, to);
      MovedKeyIsGone(rows, from, to, rootDirty, updateSynced, mark, k);
    }
    if Survives(k, rows[k], to) {
      RenamedRowAt(rows, from, to, rootDirty, updateSynced, mark, k);
    }
  }

  lemma MovedKeyIsGone(rows: Rows, from: Path, to: Path, rootDirty: bool, updateSynced: bool, mark: Path -> string,
                       k: Path)
    requires Apart(from, to) && FreshMarks(rows, from, to, mark) && Injective(RenamedKeys(rows, from, to, mark))
    requires k in rows && Within(k, from)
    ensures k !in RenamedRows(rows, from, to, rootDirty, updateSynced, mark)
  {
    ApartBelow(k, from, to);
    if k in RenamedRows(rows, from, to, rootDirty, updateSynced, mark) {
      var j := RenamedRowFrom(rows, from, to, rootDirty, updateSynced, mark, k);
      NotThere(rows, from, to, mark, j, k);
    }
  }

  lemma NotThere(rows: Rows, from: Path, to: Path, mark: Path -> string, j: Path, k: Path)
    requires Apart(from, to) && FreshMarks(rows, from, to, mark) && !Within(k, to)
    requires k in rows && Within(k, from) && j in rows && Survives(j, rows[j], to)
    ensures RenamedKey(j, from, to, mark) != k
  {
    if Within(j, from) {
      RebaseLands(j, from, to);
    } else if Within(j, to) {
      assert j in GraveKeys(rows, to, mark);
    }
  }

  lemma RenamedRowsParents(rows: Rows, from: Path, to: Path, rootDirty: bool, updateSynced: bool, mark: Path -> string)
    requires Injective(RenamedKeys(rows, from, to, mark)) && ParentColumn(rows) && to != ROOT
    ensures ParentColumn(RenamedRows(rows, from, to, rootDirty, updateSynced, mark))
  {
    var rows' := RenamedRows(rows, from, to, rootDirty, updateSynced, mark);
    forall j | j in rows' ensures rows'[j].parentPath == Parent(j) {
      var k := RenamedRowFrom(rows, from, to, rootDirty, updateSynced, mark, j);
      RenamedParent(k, rows[k], from, to, rootDirty, updateSynced, mark);
    }
  }

  lemma RenameKeepsParentColumn(db: Db, from: Path, to: Path, rootDirty: bool, updateSynced: bool, mark: Path -> string)
    requires Apart(from, to) && FreshMarks(db.rows, from, to, mark)
    requires ParentColumn(db.rows) && to != ROOT
    ensures ParentColumn(RenameTree(db, from, to, rootDirty, updateSynced, mark).rows)
  {
    RenamedKeysDistinct(db.rows, from, to, mark);
    RenamedRowsParents(db.rows, from, to, rootDirty, updateSynced, mark);
  }

  lemma RenamedParent(k: Path, r: Row, from: Path, to: Path, rootDirty: bool, updateSynced: bool, mark: Path -> string)
    requires r.parentPath == Parent(k) && to != ROOT
    ensures RenamedRow(k, r, from, to, rootDirty, updateSynced).parentPath == Parent(RenamedKey(k, from, to, mark))
  {
    if !Within(k, from) && Within(k, to) {
      assert Grave(k, mark(k))[..|k| - 1] == k[..|k| - 1];
    }
  }

  /** Queued content operations follow the file, and nothing is queued under the old name. */
  lemma RenameCarriesContentOps(db: Db, from: Path, to: Path, rootDirty: bool, updateSynced: bool,
                                mark: Path -> string, q: Path)
    requires Apart(from, to) && FreshMarks(db.rows, from, to, mark) && Subtree(db.rows, from) != {}
    ensures var ops, ops' := db.ops, RenameTree(db, from, to, rootDirty, updateSynced, mark).ops;
      && (Within(q, from) ==> !PendingContent(ops', q))
      && (Within(q, to) ==>
            (PendingContent(ops', q) <==> PendingContent(ops, q) || PendingContent(ops, Rebase(q, to, from))))
      && (!Within(q, from) && !Within(q, to) ==> (PendingContent(ops', q) <==> PendingContent(ops, q)))
  {
    var ops, ops' := db.ops, RenameTree(db, from, to, rootDirty, updateSynced, mark).ops;
    forall i | 0 <= i < |ops| ensures !Within(ops'[i].path, from) {
      if Within(ops[i].path, from) {
        RebaseLands(ops[i].path, from, to);
        ApartBelow(ops'[i].path, to, from);
      }
    }
    if Within(q, to) {
      RebaseLands(q, to, from);
      ApartBelow(q, to, from);
      if PendingContent(ops', q) {
        var i :| 0 <= i < |ops'| && ops'[i].path == q && ops'[i].kind in {CreateOp, UpdateOp, ConflictCopyOp};
        if Within(ops[i].path, from) {
          RebaseLands(ops[i].path, from, to);
        }
        assert ops[i] in ops;
      }
      ContentOpMoves(ops, ops', from, to, q);
      ContentOpMoves(ops, ops', from, to, Rebase(q, to, from));
    }
    if !Within(q, from) && !Within(q, to) {
      ContentOpMoves(ops, ops', from, to, q);
      if PendingContent(ops', q) {
        var i :| 0 <= i < |ops'| && ops'[i].path == q && ops'[i].kind in {CreateOp, UpdateOp, ConflictCopyOp};
        if Within(ops[i].path, from) {
          RebaseLands(ops[i].path, from, to);
        }
        assert ops[i] in ops;
      }
    }
  }

  /** Every queued operation follows the files it names, in place: its path and, for a rename, its target. */
  lemma QueuedOpsFollow(db: Db, from: Path, to: Path, rootDirty: bool, updateSynced: bool, mark: Path -> string, i: nat)
    requires Apart(from, to) && FreshMarks(db.rows, from, to, mark) && Subtree(db.rows, from) != {} && i < |db.ops|
    ensures var ops, ops' := db.ops, RenameTree(db, from, to, rootDirty, updateSynced, mark).ops;
            && |ops'| == |ops| && ops'[i].kind == ops[i].kind
            && SyncedFollows(Some(ops[i].path), Some(ops'[i].path), from, to)
            && SyncedFollows(ops[i].target, ops'[i].target, from, to)
  {
    SyncedPathFollows(Some(db.ops[i].path), from, to);
    SyncedPathFollows(db.ops[i].target, from, to);
  }

  lemma ContentOpMoves(ops: seq<Op>, ops': seq<Op>, from: Path, to: Path, q: Path)
    requires |ops'| == |ops| && forall i :: 0 <= i < |ops| ==> ops'[i] == RenamedOp(ops[i], from, to)
    ensures PendingContent(ops, q) ==> PendingContent(ops', if Within(q, from) then Rebase(q, from, to) else q)
  {
    if PendingContent(ops, q) {
      var i :| 0 <= i < |ops| && ops[i].path == q && ops[i].kind in {CreateOp, UpdateOp, ConflictCopyOp};
      assert ops'[i] in ops';
    }
  }

  /** The key a row gets when it moves from `from` to a free `to`, and back. */
  lemma KeyThereAndBack(k: Path, from: Path, to: Path, mark: Path -> string)
    requires Apart(from, to) && !Within(k, to)
    ensures RenamedKey(RenamedKey(k, from, to, mark), to, from, mark) == k
    ensures !Within(RenamedKey(k, from, to, mark), from)
  {
    if Within(k, from) {
      RebaseLands(k, from, to);
      ApartBelow(Rebase(k, from, to), to, from);
    }
  }

  lemma RowThereAndBack(k: Path, r: Row, from: Path, to: Path)
    requires Apart(from, to) && !Within(k, to) && r.parentPath == Parent(k)
    ensures var j := if Within(k, from) then Rebase(k, from, to) else k;
            RenamedRow(j, RenamedRow(k, r, from, to, true, false), to, from, true, false)
            == if k == from then r.(dirty := true) else r
  {
    if Within(k, from) {
      RebaseLands(k, from, to);
    }
  }

  lemma BackKeysDistinct(rows: Rows, from: Path, to: Path, mark: Path -> string)
    requires Apart(from, to) && Subtree(rows, to) == {}
    requires Injective(RenamedKeys(rows, from, to, mark))
    ensures Injective(RenamedKeys(RenamedRows(rows, from, to, true, false, mark), to, from, mark))
    ensures forall j :: j in RenamedRows(rows, from, to, true, false, mark) ==>
              RenamedKey(j, to, from, mark) in rows && !Within(j, from)
              && RenamedKey(RenamedKey(j, to, from, mark), from, to, mark) == j
  {
    var there := RenamedRows(rows, from, to, true, false, mark);
    forall j | j in there
      ensures RenamedKey(j, to, from, mark) in rows && !Within(j, from)
      ensures RenamedKey(RenamedKey(j, to, from, mark), from, to, mark) == j
    {
      var k := RenamedRowFrom(rows, from, to, true, false, mark, j);
      assert k !in Subtree(rows, to);
      KeyThereAndBack(k, from, to, mark);
    }
  }

  lemma RowIsBack(rows: Rows, from: Path, to: Path, mark: Path -> string, k: Path)
    requires Apart(from, to) && k in rows && rows[k].parentPath == Parent(k) && !Within(k, to)
    requires Injective(RenamedKeys(rows, from, to, mark))
    requires Injective(RenamedKeys(RenamedRows(rows, from, to, true, false, mark), to, from, mark))
    ensures var back := RenamedRows(RenamedRows(rows, from, to, true, false, mark), to, from, true, false, mark);
            k in back && back[k] == if k == from then rows[k].(dirty := true) else rows[k]
  {
    var there := RenamedRows(rows, from, to, true, false, mark);
    KeyThereAndBack(k, from, to, mark);
    RowThereAndBack(k, rows[k], from, to);
    RenamedRowAt(rows, from, to, true, false, mark, k);
    var j := RenamedKey(k, from, to, mark);
    assert j in there && Survives(j, there[j], from);
    RenamedRowAt(there, to, from, true, false, mark, j);
  }

  lemma NothingElseIsBack(rows: Rows, from: Path, to: Path, mark: Path -> string, k: Path)
    requires Apart(from, to) && Subtree(rows, to) == {}
    requires Injective(RenamedKeys(rows, from, to, mark))
    requires Injective(RenamedKeys(RenamedRows(rows, from, to, true, false, mark), to, from, mark))
    requires k in RenamedRows(RenamedRows(rows, from, to, true, false, mark), to, from, true, false, mark)
    ensures k in rows
  {
    BackKeysDistinct(rows, from, to, mark);
    var j := RenamedRowFrom(RenamedRows(rows, from, to, true, false, mark), to, from, true, false, mark, k);
  }

  function ThereAndBackRow(rows: Rows, from: Path, k: Path): Row
    requires k in rows
  {
    if k == from then rows[k].(dirty := true) else rows[k]
  }

  /** Every row is back, and nothing else is there. */
  ghost predicate IsBack(rows: Rows, from: Path, back: Rows) {
    && (forall k :: k in rows ==> k in back && back[k] == ThereAndBackRow(rows, from, k))
    && (forall k :: k in back ==> k in rows)
  }

  lemma EveryRowIsBack(rows: Rows, from: Path, to: Path, mark: Path -> string, back: Rows)
    requires Apart(from, to) && ParentColumn(rows) && Subtree(rows, to) == {}
    requires Injective(RenamedKeys(rows, from, to, mark))
    requires Injective(RenamedKeys(RenamedRows(rows, from, to, true, false, mark), to, from, mark))
    requires back == RenamedRows(RenamedRows(rows, from, to, true, false, mark), to, from, true, false, mark)
    ensures forall k :: k in rows ==> k in back && back[k] == ThereAndBackRow(rows, from, k)
  {
    forall k | k in rows ensures k in back && back[k] == ThereAndBackRow(rows, from, k) {
      assert k !in Subtree(rows, to);
      RowIsBack(rows, from, to, mark, k);
    }
  }

  lemma NoOtherIsBack(rows: Rows, from: Path, to: Path, mark: Path -> string, back: Rows)
    requires Apart(from, to) && Subtree(rows, to) == {}
    requires Injective(RenamedKeys(rows, from, to, mark))
    requires Injective(RenamedKeys(RenamedRows(rows, from, to, true, false, mark), to, from, mark))
    requires back == RenamedRows(RenamedRows(rows, from, to, true, false, mark), to, from, true, false, mark)
    ensures forall k :: k in back ==> k in rows
  {
    forall k | k in back ensures k in rows {
      NothingElseIsBack(rows, from, to, mark, k);
    }
  }

  lemma BackIsUpdate(rows: Rows, from: Path, back: Rows)
    requires from in rows && IsBack(rows, from, back)
    ensures back == rows[from := rows[from].(dirty := true)]
  {
    SameMap(back, rows[from := rows[from].(dirty := true)]);
  }

  /** Moving a subtree to a free place and back restores every row, the dirty flag of its
      root apart. */
  lemma RenameThereAndBack(rows: Rows, from: Path, to: Path, mark: Path -> string)
    requires Apart(from, to) && ParentColumn(rows)
    requires Subtree(rows, to) == {} && from in rows
    requires Injective(RenamedKeys(rows, from, to, mark))
    ensures var there := RenamedRows(rows, from, to, true, false, mark);
      && Injective(RenamedKeys(there, to, from, mark))
      && RenamedRows(there, to, from, true, false, mark) == rows[from := rows[from].(dirty := true)]
  {
    BackKeysDistinct(rows, from, to, mark);
    var back := RenamedRows(RenamedRows(rows, from, to, true, false, mark), to, from, true, false, mark);
    EveryRowIsBack(rows, from, to, mark, back);
    NoOtherIsBack(rows, from, to, mark, back);
    BackIsUpdate(rows, from, back);
  }

  lemma SameMap(m: Rows, m': Rows)
    requires forall k :: k in m ==> k in m'
    requires forall k :: k in m' ==> k in m && m[k] == m'[k]
    ensures m == m'
  {
  }
}
