/** A pass in which no call fails: what it has to find so that every pending delete and every
    changed file arrives, and that each of its steps leaves the rest so. */
module Delivery {
  import opened Paths
  import opened Tables
  import opened Files
  import opened Policy
  import opened FsSpec
  import opened Cloud
  import opened Search
  import opened Upload
  import opened Runs

  // ---- what the uploads start from -----------------------------------------------------------

  predicate LiveFolder(rows: Rows, g: Path) {
    Live(rows, g) && IsDir(rows[g].kind)
  }

  /** A changed file that iCloud has; its item may be deleted to make room for the new content. */
  predicate ChangedFile(rows: Rows, j: Path) {
    Live(rows, j) && rows[j].dirty && !IsDir(rows[j].kind) && rows[j].remoteId.Some?
  }

  /** A folder iCloud has under another path. */
  predicate MovedFolder(rows: Rows, g: Path) {
    && LiveFolder(rows, g) && rows[g].dirty && rows[g].remoteId.Some?
    && rows[g].syncedPath.Some? && rows[g].syncedPath.value != g
  }

  predicate InFolder(rows: Rows, k: Path) {
    k != ROOT && (Parent(k) == ROOT || LiveFolder(rows, Parent(k)))
  }

  /** Live rows sit in live folders.  The folders of `way`, and those they are in, are on iCloud if they
      have an identity, and have one but for new ones. */
  ghost predicate FoldersKnown(rows: Rows, items: Items, way: set<Path>) {
    && ROOT_ID in items
    && (forall k :: Live(rows, k) ==> InFolder(rows, k))
    && (forall g :: g in way ==>
          && LiveFolder(rows, g) && (Parent(g) == ROOT || Parent(g) in way)
          && if rows[g].remoteId.Some? then rows[g].remoteId.value in items else rows[g].dirty)
  }

  /** A changed folder that iCloud has. */
  predicate ChangedFolder(rows: Rows, g: Path) {
    LiveFolder(rows, g) && rows[g].dirty && rows[g].remoteId.Some?
  }

  /** The item of folder `g` is where `synced` says, as far as a move from there to `g` leaves that
      alone: in the folder of `g` if only the name changed, under its name if only the folder did. */
  ghost predicate PlacedAt(rows: Rows, items: Items, g: Path, synced: Path)
    requires g in rows && rows[g].remoteId.Some? && g != ROOT
  {
    var id := rows[g].remoteId.value;
    && id in items
    && (Parent(synced) == Parent(g) ==>
          && FolderId(rows, Parent(g)).Some? && items[id].parent == FolderId(rows, Parent(g))
          && !MovedFolder(rows, Parent(g)))
    && (synced != ROOT && Last(synced) == Last(g) ==> items[id].name == Last(g))
  }

  ghost predicate InOldPlace(rows: Rows, items: Items, g: Path)
    requires MovedFolder(rows, g) && g != ROOT
  {
    PlacedAt(rows, items, g, rows[g].syncedPath.value)
  }

  /** Of the folders of `way` those that moved are where they moved from; no two changed folders share
      an item. */
  ghost predicate MovesKnown(rows: Rows, items: Items, way: set<Path>) {
    && (forall g :: g in way && g != ROOT && MovedFolder(rows, g) ==> InOldPlace(rows, items, g))
    && (forall g, g' :: ChangedFolder(rows, g) && ChangedFolder(rows, g') && g != g' ==>
          rows[g].remoteId != rows[g'].remoteId)
  }

  /** Changed files and folders are different items under different names, nothing is inside a
      changed file's item, and no two changed files share one. */
  ghost predicate FilesApart(rows: Rows, items: Items) {
    forall j :: ChangedFile(rows, j) ==>
      && rows[j].remoteId.value != ROOT_ID && rows[j].remoteId.value != "TRASH"
      && (forall x :: x in items ==> items[x].parent != rows[j].remoteId)
      && (forall j' :: ChangedFile(rows, j') && j' != j ==> rows[j'].remoteId != rows[j].remoteId)
      && (forall g :: LiveFolder(rows, g) ==> ApartFrom(rows, items, j, g))
  }

  ghost predicate ApartFrom(rows: Rows, items: Items, j: Path, g: Path)
    requires ChangedFile(rows, j) && LiveFolder(rows, g)
  {
    var id := rows[j].remoteId.value;
    && rows[g].remoteId != Some(id)
    && (rows[g].dirty && g != ROOT && j != ROOT ==> Last(g) != Last(j) && (id in items ==> items[id].name != Last(g)))
  }

  /** Ids are handed out in order, and rows only name ids that were. */
  ghost predicate IdsInOrder(rows: Rows, items: Items, nextId: nat) {
    && (forall kind, n: nat :: n > nextId ==> ItemId(kind, n) !in items)
    && (forall k, kind, n: nat :: k in rows && rows[k].remoteId == Some(ItemId(kind, n)) ==> n <= nextId)
  }

  /** What a pass needs to find for an upload into a folder of `way` to arrive. */
  ghost predicate Steady(s: Stand, way: set<Path>) {
    && ROOT !in s.db.rows && Untargeted(s.db.ops)
    && FoldersKnown(s.db.rows, s.items, way) && MovesKnown(s.db.rows, s.items, way)
    && FilesApart(s.db.rows, s.items) && IdsInOrder(s.db.rows, s.items, s.nextId)
  }

  /** A changed file whose bytes iCloud does not have, and the mirror does. */
  ghost predicate Uploadable(s: Stand, q: Path) {
    && MustUpload(s.db, q) && s.db.rows[q].hydrated && IsFile(s.disk, q)
    && (s.db.rows[q].remoteId.Some? && s.db.rows[q].syncedPath.Some? && s.db.rows[q].syncedPath.value != q ==>
          s.db.rows[q].remoteId.value in s.items)
  }

  /** What steps of a pass leave to folders: none begins to ask for a move, one that asked for none
      stands for the item it stood for, and changed items are touched on the way to `top` only. */
  ghost predicate FoldersWait(s: Stand, s': Stand, top: Path) {
    MovesWait(s, s', top) && IdsStay(s, s', {})
  }

  ghost predicate MovesWait(s: Stand, s': Stand, top: Path) {
    && (forall g :: MovedFolder(s'.db.rows, g) ==>
          && MovedFolder(s.db.rows, g) && s'.db.rows[g].remoteId == s.db.rows[g].remoteId
          && s'.db.rows[g].syncedPath == s.db.rows[g].syncedPath)
    && (forall k :: LiveFolder(s.db.rows, k) ==> FolderWaits(s, s', top, k))
  }

  ghost predicate FolderWaits(s: Stand, s': Stand, top: Path, k: Path)
    requires LiveFolder(s.db.rows, k)
  {
    var id := s.db.rows[k].remoteId;
    && LiveFolder(s'.db.rows, k)
    && (s.db.rows[k].dirty && !Within(top, k) ==>
          && s'.db.rows[k].dirty && s'.db.rows[k].remoteId == id
          && (id.Some? && id.value in s.items ==> id.value in s'.items && s'.items[id.value] == s.items[id.value]))
  }

  ghost predicate IdsStay(s: Stand, s': Stand, but: set<Path>) {
    forall f :: FolderId(s.db.rows, f).Some? && !MovedFolder(s.db.rows, f) && f !in but ==>
      FolderId(s'.db.rows, f) == FolderId(s.db.rows, f)
  }

  /** Syncing the folder `top` and those above it: the state stays steady, every file that could be
      uploaded still can be, and no item goes. */
  ghost predicate FolderOnward(s: Stand, s': Stand, top: Path, way: set<Path>) {
    && Steady(s', way) && (forall q :: Uploadable(s, q) ==> Uploadable(s', q))
    && (forall id :: id in s.items ==> id in s'.items)
    && FoldersWait(s, s', top) && FilesWait(s.db.rows, s'.db.rows)
  }

  /** Rows of files keep what they say, the path iCloud knows them under apart. */
  ghost predicate FilesWait(rows: Rows, rows': Rows) {
    forall k :: k in rows && !IsDir(rows[k].kind) ==>
      k in rows' && rows'[k] == rows[k].(syncedPath := rows'[k].syncedPath, lastSynced := rows'[k].lastSynced)
  }

  /** Syncing the file `p`: all other files wait, the clean ones clean. */
  ghost predicate FileOnward(s: Stand, s': Stand, p: Path, way: set<Path>) {
    && Steady(s', way) && (forall q :: q != p && Uploadable(s, q) ==> Uploadable(s', q))
    && (forall q :: q != p && CleanFile(s.db.rows, q) ==> CleanFile(s'.db.rows, q))
  }

  predicate CleanFile(rows: Rows, q: Path) {
    q in rows && !IsDir(rows[q].kind) && !rows[q].dirty
  }

  lemma ParentIsNoFile(s: Stand, f: Path, way: set<Path>)
    requires Steady(s, way) && (f == ROOT || LiveFolder(s.db.rows, f)) && FolderId(s.db.rows, f).Some?
    ensures forall j :: ChangedFile(s.db.rows, j) ==> s.db.rows[j].remoteId != FolderId(s.db.rows, f)
  {
    forall j | ChangedFile(s.db.rows, j) ensures s.db.rows[j].remoteId != FolderId(s.db.rows, f) {
      assert f != ROOT ==> ApartFrom(s.db.rows, s.items, j, f);
    }
  }

  predicate Known(f: Path, way: set<Path>) {
    f == ROOT || f in way
  }

  /** Is the folder of `k` on iCloud? */
  ghost predicate HasRoom(s: Stand, k: Path) {
    FolderId(s.db.rows, Parent(k)).Some? && FolderId(s.db.rows, Parent(k)).value in s.items
  }

  /** Making an item in a folder. */
  lemma CreatedSteady(s: Stand, f: Path, name: string, kind: Kind, data: Bytes, modified: int, way: set<Path>)
    requires Steady(s, way) && (f == ROOT || LiveFolder(s.db.rows, f))
    requires FolderId(s.db.rows, f).Some? && FolderId(s.db.rows, f).value in s.items
    ensures var s' := WithItem(s, f, name, kind, data, modified);
            Steady(s', way) && forall id :: id in s.items ==> id in s'.items && s'.items[id] == s.items[id]
  {
    ParentIsNoFile(s, f, way);
    var s', added := WithItem(s, f, name, kind, data, modified), ItemId(kind, s.nextId + 1);
    CreatedIsThere(s.items, s'.nextId, FolderId(s.db.rows, f).value, name, kind, data, modified);
    forall k: Kind, m: nat | m > s'.nextId ensures ItemId(k, m) !in s'.items {
      IdsDiffer(k, m, kind, s'.nextId);
    }
    forall g | g in way && g != ROOT && MovedFolder(s.db.rows, g) ensures InOldPlace(s.db.rows, s'.items, g) {
      assert InOldPlace(s.db.rows, s.items, g);
    }
    CreatedFilesApart(s, s', added, way);
  }

  lemma CreatedFilesApart(s: Stand, s': Stand, added: string, way: set<Path>)
    requires Steady(s, way) && s'.db == s.db && added !in s.items && added in s'.items
    requires forall id :: id in s.items ==> id in s'.items && s'.items[id] == s.items[id]
    requires forall id :: id in s'.items && id != added ==> id in s.items
    requires forall j :: ChangedFile(s.db.rows, j) ==>
               s.db.rows[j].remoteId != s'.items[added].parent && s.db.rows[j].remoteId != Some(added)
    ensures FilesApart(s.db.rows, s'.items)
  {
    forall j, g | ChangedFile(s.db.rows, j) && LiveFolder(s.db.rows, g) ensures ApartFrom(s.db.rows, s'.items, j, g) {
      assert ApartFrom(s.db.rows, s.items, j, g);
    }
  }

  /** Deleting the item of a changed file removes nothing else. */
  lemma DeletedIsOne(s: Stand, j: Path, way: set<Path>)
    requires Steady(s, way) && ChangedFile(s.db.rows, j)
    ensures Without(s.items, s.db.rows[j].remoteId.value) == s.items - {s.db.rows[j].remoteId.value}
  {
    var top := s.db.rows[j].remoteId.value;
    forall id | id in s.items && id != top ensures !Inside(s.items, id, top, |s.items|) {
      NothingInside(s.items, top, id, |s.items|);
    }
  }

  lemma {:induction false} NothingInside(items: Items, top: string, id: string, steps: nat)
    requires (forall x :: x in items ==> items[x].parent != Some(top)) && id != top
    ensures !Inside(items, id, top, steps)
    decreases steps
  {
    if steps > 0 && id in items && items[id].parent.Some? {
      NothingInside(items, top, items[id].parent.value, steps - 1);
    }
  }

  lemma DeletedSteady(s: Stand, j: Path, way: set<Path>)
    requires Steady(s, way) && ChangedFile(s.db.rows, j)
    ensures Steady(s.(items := Without(s.items, s.db.rows[j].remoteId.value)), way)
  {
    DeletedIsOne(s, j, way);
    var s' := s.(items := Without(s.items, s.db.rows[j].remoteId.value));
    forall g | LiveFolder(s.db.rows, g) ensures s.db.rows[g].remoteId != s.db.rows[j].remoteId {
      assert ApartFrom(s.db.rows, s.items, j, g);
    }
    assert FoldersKnown(s'.db.rows, s'.items, way);
    forall g | g in way && g != ROOT && MovedFolder(s.db.rows, g) ensures InOldPlace(s.db.rows, s'.items, g) {
      assert InOldPlace(s.db.rows, s.items, g);
    }
    FewerFilesApart(s.db.rows, s.items, s'.items);
  }

  lemma FewerFilesApart(rows: Rows, items: Items, items': Items)
    requires FilesApart(rows, items) && forall id :: id in items' ==> id in items && items'[id] == items[id]
    ensures FilesApart(rows, items')
  {
    forall j, g | ChangedFile(rows, j) && LiveFolder(rows, g) ensures ApartFrom(rows, items', j, g) {
      assert ApartFrom(rows, items, j, g);
    }
  }

  /** A row that is about to move its item: a folder or a changed file. */
  ghost predicate Mover(rows: Rows, k: Path) {
    k != ROOT && (ChangedFolder(rows, k) || ChangedFile(rows, k))
  }

  /** Only where and under which name `k`'s item is changes, to the place and name of `k`. */
  ghost predicate ItemRelocated(rows: Rows, items: Items, items': Items, k: Path)
    requires Mover(rows, k) && rows[k].remoteId.value in items
  {
    var id := rows[k].remoteId.value;
    && items'.Keys == items.Keys && (forall x :: x in items && x != id ==> items'[x] == items[x])
    && (items'[id].parent == items[id].parent
        || (items'[id].parent.Some? && items'[id].parent == FolderId(rows, Parent(k))))
    && (items'[id].name == items[id].name || items'[id].name == Last(k))
  }

  lemma RelocatedFilesApart(s: Stand, items': Items, k: Path, way: set<Path>)
    requires Steady(s, way) && Mover(s.db.rows, k) && s.db.rows[k].remoteId.value in s.items
    requires ItemRelocated(s.db.rows, s.items, items', k)
    ensures FilesApart(s.db.rows, items')
  {
    var rows := s.db.rows;
    assert InFolder(rows, k);
    forall j | ChangedFile(rows, j)
      ensures forall x :: x in items' ==> items'[x].parent != rows[j].remoteId
      ensures forall g :: LiveFolder(rows, g) ==> ApartFrom(rows, items', j, g)
    {
      if FolderId(rows, Parent(k)).Some? {
        ParentIsNoFile(s, Parent(k), way);
      }
      forall g | LiveFolder(rows, g) ensures ApartFrom(rows, items', j, g) {
        assert ApartFrom(rows, s.items, j, g);
        if LiveFolder(rows, k) {
          assert ApartFrom(rows, s.items, j, k);
        }
      }
    }
  }

  /** Moving or renaming the item of `k` leaves the others as they were; of `k` itself what the
      move has still to do stays possible. */
  lemma RelocatedSteady(s: Stand, items': Items, k: Path, way: set<Path>)
    requires Steady(s, way) && Mover(s.db.rows, k) && s.db.rows[k].remoteId.value in s.items
    requires ItemRelocated(s.db.rows, s.items, items', k)
    requires k in way && MovedFolder(s.db.rows, k) ==> InOldPlace(s.db.rows, items', k)
    ensures Steady(s.(items := items'), way)
  {
    var rows := s.db.rows;
    RelocatedFilesApart(s, items', k, way);
    forall g | g in way && g != ROOT && MovedFolder(rows, g) ensures InOldPlace(rows, items', g) {
      assert InOldPlace(rows, s.items, g);
      if g != k && ChangedFile(rows, k) {
        assert ApartFrom(rows, s.items, k, g);
      }
    }
  }

  // ---- rows ---------------------------------------------------------------------------------------

  ghost predicate NoChangedFile(s: Stand, id: string) {
    forall j :: ChangedFile(s.db.rows, j) ==> s.db.rows[j].remoteId != Some(id)
  }

  /** What has the name of a changed folder is not a changed file. */
  lemma NameIsNoFile(s: Stand, p: Path, id: string, way: set<Path>)
    requires Steady(s, way) && LiveFolder(s.db.rows, p) && s.db.rows[p].dirty
    requires id in s.items && s.items[id].name == Last(p)
    ensures NoChangedFile(s, id)
  {
    forall j | ChangedFile(s.db.rows, j) ensures s.db.rows[j].remoteId != Some(id) {
      assert ApartFrom(s.db.rows, s.items, j, p);
    }
  }

  /** Row `p` was cleaned for an item that is on iCloud and not a changed file's. */
  lemma AdoptedSteady(s: Stand, p: Path, node: RemoteNode, now: int, way: set<Path>)
    requires Steady(s, way) && Live(s.db.rows, p) && node.id in s.items
    requires LiveFolder(s.db.rows, p) ==>
               && NoChangedFile(s, node.id)
               && (s.db.rows[p].remoteId.Some? ==> forall g :: MovedFolder(s.db.rows, g) && Within(g, p) ==> g == p)
    ensures Steady(s.(db := MarkClean(s.db, p, node, now)), way)
  {
    AdoptedMovesKnown(s, p, node, now, way);
    AdoptedFilesApart(s, p, node, now, way);
    var rows, rows' := s.db.rows, MarkClean(s.db, p, node, now).rows;
    assert rows' == rows[p := CleanRow(p, rows[p], node, now)];
    AdoptedIdsInOrder(s, p, rows'[p], way);
    forall k | Live(rows', k) ensures InFolder(rows', k) {
      assert Live(rows, k) && InFolder(rows, k);
    }
    assert FoldersKnown(rows', s.items, way);
  }

  lemma AdoptedIdsInOrder(s: Stand, p: Path, r: Row, way: set<Path>)
    requires Steady(s, way) && r.remoteId.Some? && r.remoteId.value in s.items
    ensures IdsInOrder(s.db.rows[p := r], s.items, s.nextId)
  {
  }

  lemma AdoptedMovesKnown(s: Stand, p: Path, node: RemoteNode, now: int, way: set<Path>)
    requires Steady(s, way) && Live(s.db.rows, p) && node.id in s.items
    requires LiveFolder(s.db.rows, p) && s.db.rows[p].remoteId.Some? ==>
               forall g :: MovedFolder(s.db.rows, g) && Within(g, p) ==> g == p
    ensures MovesKnown(MarkClean(s.db, p, node, now).rows, s.items, way)
  {
    var rows, rows' := s.db.rows, MarkClean(s.db, p, node, now).rows;
    assert rows' == rows[p := CleanRow(p, rows[p], node, now)];
    forall g | g in way && g != ROOT && MovedFolder(rows', g) ensures InOldPlace(rows', s.items, g) {
      assert MovedFolder(rows, g) && InOldPlace(rows, s.items, g);
      assert Parent(g) == p ==> Within(g, p);
    }
  }

  lemma AdoptedFilesApart(s: Stand, p: Path, node: RemoteNode, now: int, way: set<Path>)
    requires Steady(s, way) && Live(s.db.rows, p) && node.id in s.items
    requires LiveFolder(s.db.rows, p) ==> NoChangedFile(s, node.id)
    ensures FilesApart(MarkClean(s.db, p, node, now).rows, s.items)
  {
    var rows, rows' := s.db.rows, MarkClean(s.db, p, node, now).rows;
    assert forall k :: k != p ==> (k in rows <==> k in rows') && (k in rows ==> rows'[k] == rows[k]);
    forall j, g | ChangedFile(rows', j) && LiveFolder(rows', g) ensures ApartFrom(rows', s.items, j, g) {
      assert j != p && ChangedFile(rows, j) && LiveFolder(rows, g);
      assert ApartFrom(rows, s.items, j, g);
    }
  }

  /** Rows keep their kind and identity; some are clean now, some files no longer live, some known
      at their own path. */
  ghost predicate LessToDo(rows: Rows, rows': Rows) {
    && rows'.Keys == rows.Keys
    && forall k :: k in rows ==>
         && rows'[k].kind == rows[k].kind && rows'[k].remoteId == rows[k].remoteId
         && (rows'[k].dirty ==> rows[k].dirty) && (rows'[k].syncedPath in {rows[k].syncedPath, Some(k)})
         && (Live(rows', k) ==> Live(rows, k)) && (LiveFolder(rows, k) ==> Live(rows', k))
         && (rows[k].remoteId.None? ==> rows'[k].dirty == rows[k].dirty)
  }

  lemma LessMovesKnown(rows: Rows, rows': Rows, items: Items, way: set<Path>)
    requires MovesKnown(rows, items, way) && LessToDo(rows, rows')
    ensures MovesKnown(rows', items, way)
  {
    forall g | g in way && g != ROOT && MovedFolder(rows', g) ensures InOldPlace(rows', items, g) {
      assert MovedFolder(rows, g) && InOldPlace(rows, items, g);
    }
  }

  lemma LessFilesApart(rows: Rows, rows': Rows, items: Items)
    requires FilesApart(rows, items) && LessToDo(rows, rows')
    ensures FilesApart(rows', items)
  {
    forall j, g | ChangedFile(rows', j) && LiveFolder(rows', g) ensures ApartFrom(rows', items, j, g) {
      assert ChangedFile(rows, j) && LiveFolder(rows, g);
      assert ApartFrom(rows, items, j, g);
    }
  }

  lemma LessSteady(s: Stand, rows': Rows, way: set<Path>)
    requires Steady(s, way) && LessToDo(s.db.rows, rows')
    ensures Steady(s.(db := s.db.(rows := rows')), way)
  {
    LessMovesKnown(s.db.rows, rows', s.items, way);
    LessFilesApart(s.db.rows, rows', s.items);
  }

  /** A folder and its subtree adopted their paths. */
  lemma SubtreeSteady(s: Stand, p: Path, now: int, way: set<Path>)
    requires Steady(s, way) && LiveFolder(s.db.rows, p) && s.db.rows[p].remoteId.Some?
    ensures Steady(s.(db := s.db.(rows := MarkSyncedSubtree(s.db.rows, p, now))), way)
    ensures forall g :: Within(g, p) ==> !MovedFolder(MarkSyncedSubtree(s.db.rows, p, now), g)
  {
    LessSteady(s, MarkSyncedSubtree(s.db.rows, p, now), way);
  }

  // ---- steps ----------------------------------------------------------------------------------------

  /** Of the other rows only bookkeeping changes, and no content operation of theirs is dropped. */
  lemma OpsOfOthers(db: Db, p: Path, node: RemoteNode, now: int, q: Path)
    requires Untargeted(db.ops) && p in db.rows && q != p
    ensures var db' := MarkClean(db, p, node, now);
            && (q in db'.rows <==> q in db.rows) && (q in db.rows ==> db'.rows[q] == db.rows[q])
            && (PendingContent(db'.ops, q) <==> PendingContent(db.ops, q))
  {
    OpsKept(db.ops, p, q);
  }

  /** A folder row adopted what iCloud has under its name. */
  lemma FolderAdopted(s: Stand, p: Path, node: RemoteNode, now: int, way: set<Path>)
    requires Steady(s, way) && LiveFolder(s.db.rows, p)
    requires node.id in s.items && NoChangedFile(s, node.id)
    requires s.db.rows[p].remoteId.Some? ==> forall g :: MovedFolder(s.db.rows, g) && Within(g, p) ==> g == p
    ensures var s' := s.(db := MarkClean(s.db, p, node, now));
            && Steady(s', way) && (forall q :: Uploadable(s, q) ==> Uploadable(s', q))
            && !s'.db.rows[p].dirty && s'.db.rows[p].remoteId == Some(node.id)
            && s'.db.rows == s.db.rows[p := s'.db.rows[p]]
  {
    AdoptedSteady(s, p, node, now, way);
    var s' := s.(db := MarkClean(s.db, p, node, now));
    forall q | Uploadable(s, q) ensures Uploadable(s', q) {
      OpsOfOthers(s.db, p, node, now, q);
    }
  }

  lemma FolderOnwardTwice(s: Stand, s1: Stand, s2: Stand, p: Path, way: set<Path>)
    requires FolderOnward(s, s1, Parent(p), way) && FolderOnward(s1, s2, p, way)
    ensures FolderOnward(s, s2, p, way)
  {
    MovesWaitTwice(s, s1, s2, p);
  }

  /** An item was made on iCloud. */
  lemma ItemMade(s: Stand, k: Path, kind: Kind, data: Bytes, modified: int, way: set<Path>)
    requires Steady(s, way) && Live(s.db.rows, k) && HasRoom(s, k)
    ensures k != ROOT
    ensures var s' := WithItem(s, Parent(k), Last(k), kind, data, modified);
            && Steady(s', way) && (forall q :: Uploadable(s, q) ==> Uploadable(s', q))
            && (forall id :: id in s.items ==> id in s'.items && s'.items[id] == s.items[id])
  {
    assert InFolder(s.db.rows, k);
    CreatedSteady(s, Parent(k), Last(k), kind, data, modified, way);
  }

  lemma KnownHasRoom(s: Stand, k: Path, way: set<Path>)
    requires Steady(s, way) && Live(s.db.rows, k) && Known(Parent(k), way) && FolderId(s.db.rows, Parent(k)).Some?
    ensures HasRoom(s, k)
  {
  }

  /** A new folder was made and adopted, if its own folder is on iCloud. */
  lemma CreateOnward(s: Stand, s': Stand, p: Path, now: int, ok: bool, way: set<Path>)
    requires Steady(s, way) && LiveFolder(s.db.rows, p) && s.db.rows[p].dirty && s.db.rows[p].remoteId.None?
    requires p != ROOT && FolderId(s.db.rows, Parent(p)).Some? && CreateRun(s, s', p, now, ok)
    ensures FolderOnward(s, s', p, way) && (HasRoom(s, p) ==> ok && !s'.db.rows[p].dirty)
  {
    if HasRoom(s, p) {
      ItemMade(s, p, Folder, [], 0, way);
      CreatedIsThere(s.items, s.nextId + 1, FolderId(s.db.rows, Parent(p)).value, Last(p), Folder, [], 0);
      var made := WithItem(s, Parent(p), Last(p), Folder, [], 0);
      var node :| Found(made, Parent(p), Last(p), node) && ok == node.Some? && s' == Adopted(made, p, node, false, now);
      NameIsNoFile(made, p, node.value.id, way);
      FolderAdopted(made, p, node.value, now, way);
      NewFolderWaits(s, s', p, way);
    } else {
      NothingHappened(s, p, way);
    }
  }

  lemma NewFolderWaits(s: Stand, s': Stand, p: Path, way: set<Path>)
    requires FoldersKnown(s.db.rows, s.items, way) && LiveFolder(s.db.rows, p) && LiveFolder(s'.db.rows, p)
    requires s'.db.rows == s.db.rows[p := s'.db.rows[p]] && !s'.db.rows[p].dirty && s.db.rows[p].remoteId.None?
    requires forall id :: id in s.items ==> id in s'.items && s'.items[id] == s.items[id]
    ensures FoldersWait(s, s', p) && FilesWait(s.db.rows, s'.db.rows)
  {
    assert Within(p, p);
  }

  lemma MoveCarried(s: Stand, k: Path, id: string, synced: Path, way: set<Path>)
    requires Steady(s, way) && Mover(s.db.rows, k) && s.db.rows[k].remoteId == Some(id) && id in s.items
    requires FolderId(s.db.rows, Parent(k)).Some?
    requires MovedFolder(s.db.rows, k) ==> s.db.rows[k].syncedPath == Some(synced)
    ensures var s' := WithMove(s, k, id, synced);
            Steady(s', way) && (forall q :: Uploadable(s, q) ==> Uploadable(s', q))
  {
    var items := WithMove(s, k, id, synced).items;
    assert ItemRelocated(s.db.rows, s.items, items, k);
    if k in way && MovedFolder(s.db.rows, k) {
      assert InOldPlace(s.db.rows, s.items, k);
    }
    RelocatedSteady(s, items, k, way);
  }

  /** A moved folder is found in its new place. */
  lemma MoveArrives(s: Stand, k: Path, id: string, synced: Path)
    requires k in s.db.rows && s.db.rows[k].remoteId == Some(id) && k != ROOT && PlacedAt(s.db.rows, s.items, k, synced)
    requires FolderId(s.db.rows, Parent(k)).Some? && FolderId(s.db.rows, Parent(k)).value in s.items
    ensures var s', folder := WithMove(s, k, id, synced), FolderId(s.db.rows, Parent(k)).value;
            folder in s'.items && Taken(s'.items, folder, Last(k))
  {
    var items := WithMove(s, k, id, synced).items;
    assert items[id].parent == FolderId(s.db.rows, Parent(k)) && items[id].name == Last(k);
  }

  /** Row `k` kept its kind and identity, and may be known at its own path now. */
  predicate OnlySynced(k: Path, r: Row, r': Row) {
    r' == r.(syncedPath := r'.syncedPath, lastSynced := r'.lastSynced) && r'.syncedPath in {r.syncedPath, Some(k)}
  }

  ghost predicate OthersOnlySynced(rows: Rows, rows': Rows, p: Path) {
    && rows'.Keys == rows.Keys && LiveFolder(rows, p) && LiveFolder(rows', p) && !rows'[p].dirty
    && forall k :: k in rows && k != p ==> OnlySynced(k, rows[k], rows'[k])
  }

  /** A folder adopted what it found, its subtree known under its new paths. */
  lemma SubtreeAdopted(s: Stand, s': Stand, p: Path, now: int, way: set<Path>)
    requires Steady(s, way) && p != ROOT && ChangedFolder(s.db.rows, p) && AdoptRun(s, s', p, true, now, true)
    ensures Steady(s', way) && (forall q :: Uploadable(s, q) ==> Uploadable(s', q))
    ensures s'.items == s.items && OthersOnlySynced(s.db.rows, s'.db.rows, p)
  {
    var s1 := WithSubtree(s, p, now);
    SubtreeSteady(s, p, now, way);
    var node :| Found(s, Parent(p), Last(p), node) && node.Some? && s' == Adopted(s, p, node, true, now);
    NameIsNoFile(s, p, node.value.id, way);
    SubtreeHasNoFile(s, p, now, node.value.id);
    FolderAdopted(s1, p, node.value, now, way);
    KnownThenClean(s, s', p, node.value, now);
  }

  lemma KnownThenClean(s: Stand, s': Stand, p: Path, node: RemoteNode, now: int)
    requires LiveFolder(s.db.rows, p) && s' == WithClean(WithSubtree(s, p, now), p, node, now)
    ensures OthersOnlySynced(s.db.rows, s'.db.rows, p)
  {
  }

  lemma SubtreeHasNoFile(s: Stand, p: Path, now: int, id: string)
    requires NoChangedFile(s, id)
    ensures NoChangedFile(WithSubtree(s, p, now), id)
    ensures forall q :: Uploadable(s, q) && LiveFolder(s.db.rows, p) ==> Uploadable(WithSubtree(s, p, now), q)
  {
  }

  lemma OthersWait(s: Stand, s': Stand, p: Path, way: set<Path>)
    requires MovesKnown(s.db.rows, s.items, way) && ChangedFolder(s.db.rows, p)
    requires OthersOnlySynced(s.db.rows, s'.db.rows, p)
    requires forall id :: id in s.items && Some(id) != s.db.rows[p].remoteId ==>
               id in s'.items && s'.items[id] == s.items[id]
    ensures MovesWait(s, s', p) && IdsStay(s, s', {p}) && FilesWait(s.db.rows, s'.db.rows)
  {
    assert Within(p, p);
  }

  /** A folder iCloud has under another path was moved and adopted; `s` is from before the folders
      above it were synced. */
  lemma FolderMovedOnward(s: Stand, s1: Stand, s': Stand, p: Path, id: string, synced: Path, now: int, way: set<Path>)
    requires p != ROOT && MovedFolder(s.db.rows, p) && s.db.rows[p].syncedPath == Some(synced)
    requires Steady(s, way) && FolderOnward(s, s1, Parent(p), way) && FolderId(s1.db.rows, Parent(p)).Some?
    requires ChangedFolder(s1.db.rows, p) && s1.db.rows[p].remoteId == Some(id) && id in s1.items
    requires AdoptRun(WithMove(s1, p, id, synced), s', p, true, now, true)
    ensures FolderOnward(s, s', p, way) && !s'.db.rows[p].dirty
  {
    MoveCarried(s1, p, id, synced, way);
    SubtreeAdopted(WithMove(s1, p, id, synced), s', p, now, way);
    OthersWait(s1, s', p, way);
    OnwardFromMoved(s, s1, s', p, way);
  }

  lemma OnwardFromMoved(s: Stand, s1: Stand, s': Stand, p: Path, way: set<Path>)
    requires FolderOnward(s, s1, Parent(p), way) && MovedFolder(s.db.rows, p) && Steady(s', way)
    requires forall q :: Uploadable(s1, q) ==> Uploadable(s', q)
    requires forall id :: id in s1.items ==> id in s'.items
    requires MovesWait(s1, s', p) && IdsStay(s1, s', {p}) && FilesWait(s1.db.rows, s'.db.rows)
    ensures FolderOnward(s, s', p, way)
  {
    MovesWaitTwice(s, s1, s', p);
  }

  lemma MovesWaitTwice(s: Stand, s1: Stand, s': Stand, p: Path)
    requires MovesWait(s, s1, Parent(p)) && MovesWait(s1, s', p)
    ensures MovesWait(s, s', p)
  {
    forall k | LiveFolder(s.db.rows, k) ensures FolderWaits(s, s', p, k) {
      assert FolderWaits(s, s1, Parent(p), k) && FolderWaits(s1, s', p, k);
      assert Within(Parent(p), k) ==> Within(p, k);
    }
  }

  /** A folder iCloud has under its own path adopted it, with its subtree. */
  lemma FolderSyncedOnward(s: Stand, p: Path, now: int, way: set<Path>)
    requires Steady(s, way) && ChangedFolder(s.db.rows, p)
    ensures FolderOnward(s, WithSubtree(s, p, now), p, way) && !WithSubtree(s, p, now).db.rows[p].dirty
  {
    SubtreeSteady(s, p, now, way);
    OthersWait(s, WithSubtree(s, p, now), p, way);
    SubtreeHasNoFile(s, p, now, ROOT_ID);
  }

  /** The folders above `p` are synced, and its row still asks for what it asked for before. */
  ghost predicate ItsTurn(s: Stand, s1: Stand, p: Path, way: set<Path>) {
    && Steady(s, way) && FolderOnward(s, s1, Parent(p), way) && LiveFolder(s.db.rows, p) && s.db.rows[p].dirty
    && LiveFolder(s1.db.rows, p) && s1.db.rows[p].dirty && s1.db.rows[p].remoteId == s.db.rows[p].remoteId
  }

  lemma StillPlaced(s: Stand, s1: Stand, p: Path, synced: Path)
    requires FoldersWait(s, s1, Parent(p)) && p != ROOT && ChangedFolder(s.db.rows, p)
    requires PlacedAt(s.db.rows, s.items, p, synced)
    ensures ChangedFolder(s1.db.rows, p) && PlacedAt(s1.db.rows, s1.items, p, synced)
  {
    assert !Within(Parent(p), p);
  }

  /** A folder iCloud has: whatever becomes of it, everything else still waits. */
  lemma UpdateOnward(s: Stand, s1: Stand, s': Stand, p: Path, now: int, ok: bool, way: set<Path>)
    requires ItsTurn(s, s1, p, way) && p != ROOT && s.db.rows[p].remoteId.Some? && FolderId(s1.db.rows, Parent(p)).Some?
    requires UpdateRun(s1, s', p, s.db.rows[p], now, ok)
    ensures FolderOnward(s, s', p, way) && LiveFolder(s'.db.rows, p) && (ok ==> !s'.db.rows[p].dirty)
  {
    if !MovedFolder(s.db.rows, p) {
      FolderSyncedOnward(s1, p, now, way);
      FolderOnwardTwice(s, s1, s', p, way);
    } else if s.db.rows[p].remoteId.value !in s1.items {
      NothingHappened(s1, p, way);
      FolderOnwardTwice(s, s1, s', p, way);
    } else if ok {
      FolderMovedOnward(s, s1, s', p, s.db.rows[p].remoteId.value, s.db.rows[p].syncedPath.value, now, way);
    } else {
      FolderOnlyMoved(s, s1, p, s.db.rows[p].remoteId.value, s.db.rows[p].syncedPath.value, way);
    }
  }

  /** Its item was moved and then nothing found under its name. */
  lemma FolderOnlyMoved(s: Stand, s1: Stand, p: Path, id: string, synced: Path, way: set<Path>)
    requires p != ROOT && MovedFolder(s.db.rows, p) && s.db.rows[p].syncedPath == Some(synced)
    requires Steady(s, way) && FolderOnward(s, s1, Parent(p), way) && FolderId(s1.db.rows, Parent(p)).Some?
    requires ChangedFolder(s1.db.rows, p) && s1.db.rows[p].remoteId == Some(id) && id in s1.items
    ensures FolderOnward(s, WithMove(s1, p, id, synced), p, way)
  {
    var s' := WithMove(s1, p, id, synced);
    MoveCarried(s1, p, id, synced, way);
    assert Within(p, p);
    forall k | LiveFolder(s1.db.rows, k) ensures FolderWaits(s1, s', p, k) {
      if s1.db.rows[k].dirty && !Within(p, k) && s1.db.rows[k].remoteId.Some? {
        assert ChangedFolder(s1.db.rows, k) && k != p;
      }
    }
    assert MovesWait(s1, s', p) && FilesWait(s1.db.rows, s'.db.rows);
    OnwardFromMoved(s, s1, s', p, way);
  }

  /** The calls for a folder of `way` succeed. */
  lemma UpdateSucceeds(s: Stand, s1: Stand, s': Stand, p: Path, now: int, ok: bool, way: set<Path>)
    requires ItsTurn(s, s1, p, way) && p in way && p != ROOT && s.db.rows[p].remoteId.Some?
    requires FolderId(s1.db.rows, Parent(p)).Some? && UpdateRun(s1, s', p, s.db.rows[p], now, ok)
    ensures ok
  {
    if MovedFolder(s.db.rows, p) {
      var id, synced := s.db.rows[p].remoteId.value, s.db.rows[p].syncedPath.value;
      assert InOldPlace(s.db.rows, s.items, p);
      StillPlaced(s, s1, p, synced);
      KnownHasRoom(s1, p, way);
      MoveArrives(s1, p, id, synced);
    }
  }

  lemma {:induction false} FolderRunOnward(s: Stand, s': Stand, p: Path, now: int, ok: bool, way: set<Path>)
    requires Steady(s, way) && LiveFolder(s.db.rows, p) && s.db.rows[p].dirty && FolderRun(s, s', p, now, ok)
    ensures FolderOnward(s, s', p, way) && LiveFolder(s'.db.rows, p) && (p in way ==> ok && !s'.db.rows[p].dirty)
    decreases |p|, 1
  {
    var s1, known, id :| ParentRun(s, s1, p, now, known, id) && FolderRest(s1, s', p, s.db.rows[p], now, known, id, ok);
    ParentRunOnward(s, s1, p, now, known, id, way);
    if !known || id.None? {
      NothingHappened(s1, p, way);
      FolderOnwardTwice(s, s1, s', p, way);
    } else if s.db.rows[p].remoteId.None? {
      CreateOnward(s1, s', p, now, ok, way);
      FolderOnwardTwice(s, s1, s', p, way);
      if p in way {
        KnownHasRoom(s1, p, way);
      }
    } else {
      UpdateOnward(s, s1, s', p, now, ok, way);
      if p in way {
        UpdateSucceeds(s, s1, s', p, now, ok, way);
      }
    }
  }

  lemma {:induction false} ParentRunOnward(s: Stand, s': Stand, p: Path, now: int, ok: bool, id: Option<string>,
                                           way: set<Path>)
    requires Steady(s, way) && Live(s.db.rows, p) && ParentRun(s, s', p, now, ok, id)
    ensures FolderOnward(s, s', Parent(p), way)
    ensures ok && id.Some? ==> FolderId(s'.db.rows, Parent(p)) == id
    ensures Known(Parent(p), way) ==> ok && id.Some?
    decreases |p|, 0
  {
    assert InFolder(s.db.rows, p);
    var f := Parent(p);
    if f == ROOT || !s.db.rows[f].dirty {
      NothingHappened(s, f, way);
    } else {
      FolderRunOnward(s, s', f, now, ok, way);
    }
  }

  lemma NothingHappened(s: Stand, top: Path, way: set<Path>)
    requires Steady(s, way)
    ensures FolderOnward(s, s, top, way)
  {
  }

  // ---- files ------------------------------------------------------------------------------------------

  /** A changed file whose turn it is. */
  predicate InHand(rows: Rows, p: Path) {
    Live(rows, p) && rows[p].dirty && !IsDir(rows[p].kind)
  }

  lemma FolderThenFile(s: Stand, s1: Stand, s2: Stand, p: Path, way: set<Path>)
    requires FolderOnward(s, s1, Parent(p), way) && FileOnward(s1, s2, p, way)
    ensures FileOnward(s, s2, p, way)
  {
  }

  lemma FileOnwardTwice(s: Stand, s1: Stand, s2: Stand, p: Path, way: set<Path>)
    requires FileOnward(s, s1, p, way) && FileOnward(s1, s2, p, way)
    ensures FileOnward(s, s2, p, way)
  {
  }

  /** The file's row adopted an item; the mirror's times may have changed. */
  lemma FileAdopted(s: Stand, p: Path, node: RemoteNode, now: int, disk: Disk, way: set<Path>)
    requires Steady(s, way) && InHand(s.db.rows, p) && node.id in s.items && SameBytes(s.disk, disk)
    ensures var s' := WithClean(s, p, node, now).(disk := disk);
            FileOnward(s, s', p, way) && CleanFile(s'.db.rows, p)
  {
    AdoptedSteady(s, p, node, now, way);
    var s' := WithClean(s, p, node, now).(disk := disk);
    forall q | q != p && Uploadable(s, q) ensures Uploadable(s', q) {
      OpsOfOthers(s.db, p, node, now, q);
    }
  }

  /** Room was made for the new content. */
  lemma RoomMade(s: Stand, p: Path, way: set<Path>)
    requires Steady(s, way) && InHand(s.db.rows, p)
    ensures FileOnward(s, WithRoom(s, s.db.rows[p].remoteId), p, way)
  {
    var s' := WithRoom(s, s.db.rows[p].remoteId);
    if s.db.rows[p].remoteId.Some? {
      DeletedSteady(s, p, way);
      DeletedIsOne(s, p, way);
      forall q | q != p && Uploadable(s, q) ensures Uploadable(s', q) {
        assert s.db.rows[q].remoteId.Some? ==> ChangedFile(s.db.rows, q);
      }
    }
  }

  /** Only the file's own row changed, and it stands for the same item. */
  lemma OwnRowChanged(s: Stand, p: Path, r: Row, way: set<Path>)
    requires Steady(s, way) && InHand(s.db.rows, p)
    requires r.kind == s.db.rows[p].kind && r.remoteId == s.db.rows[p].remoteId
    requires r.syncedPath == s.db.rows[p].syncedPath && r.dirty == s.db.rows[p].dirty
    ensures FileOnward(s, s.(db := s.db.(rows := s.db.rows[p := r])), p, way)
  {
    LessSteady(s, s.db.rows[p := r], way);
  }

  lemma UploadOnward(s: Stand, s': Stand, p: Path, now: int, ok: bool, way: set<Path>)
    requires Steady(s, way) && InHand(s.db.rows, p) && p != ROOT && FolderId(s.db.rows, Parent(p)).Some?
    requires IsFile(s.disk, p) && UploadRun(s, s', p, now, ok)
    ensures FileOnward(s, s', p, way) && (HasRoom(s, p) ==> ok && CleanFile(s'.db.rows, p))
  {
    if HasRoom(s, p) {
      var data, mtime, folder := s.disk[p].bytes, s.disk[p].mtime, FolderId(s.db.rows, Parent(p)).value;
      ItemMade(s, p, File, data, mtime, way);
      CreatedIsThere(s.items, s.nextId + 1, folder, Last(p), File, data, mtime);
      var made := WithItem(s, Parent(p), Last(p), File, data, mtime);
      var node :| && Found(made, Parent(p), Last(p), node) && ok == node.Some?
                  && s'.(disk := s.disk) == Adopted(made, p, node, false, now);
      FileAdopted(made, p, node.value, now, s'.disk, way);
    }
  }

  lemma ContentOnward(s: Stand, s': Stand, p: Path, now: int, ok: bool, way: set<Path>)
    requires Steady(s, way) && InHand(s.db.rows, p) && p != ROOT && FolderId(s.db.rows, Parent(p)).Some?
    requires ContentRun(s, s', p, s.db.rows[p].remoteId, now, ok)
    ensures FileOnward(s, s', p, way)
    ensures Known(Parent(p), way) && IsFile(s.disk, p) ==> ok && CleanFile(s'.db.rows, p)
  {
    if IsFile(s.disk, p) {
      var s1 := WithRoom(s, s.db.rows[p].remoteId);
      RoomMade(s, p, way);
      UploadOnward(s1, s', p, now, ok, way);
      FileOnwardTwice(s, s1, s', p, way);
      if Known(Parent(p), way) {
        KnownHasRoom(s1, p, way);
      }
    }
  }

  /** The item of the file follows its move; it can if iCloud has it. */
  lemma MoveOnward(s: Stand, s': Stand, p: Path, entry: Row, ok: bool, way: set<Path>)
    requires Steady(s, way) && InHand(s.db.rows, p) && p != ROOT && FolderId(s.db.rows, Parent(p)).Some?
    requires entry.remoteId == s.db.rows[p].remoteId && MoveRun(s, s', p, entry, ok)
    ensures FileOnward(s, s', p, way) && s'.db == s.db && s'.disk == s.disk
    ensures ok <==> (IsMoved(entry, p) ==> entry.remoteId.value in s.items)
  {
    if IsMoved(entry, p) && entry.remoteId.value in s.items {
      MoveCarried(s, p, entry.remoteId.value, entry.syncedPath.value, way);
    }
  }

  lemma SendOnward(s: Stand, s': Stand, p: Path, entry: Row, now: int, ok: bool, way: set<Path>)
    requires Steady(s, way) && InHand(s.db.rows, p) && p != ROOT && FolderId(s.db.rows, Parent(p)).Some?
    requires entry.remoteId == s.db.rows[p].remoteId && SendRun(s, s', p, entry, now, ok)
    ensures FileOnward(s, s', p, way)
    ensures Known(Parent(p), way) && IsFile(s.disk, p) && (IsMoved(entry, p) ==> entry.remoteId.value in s.items) ==>
              ok && CleanFile(s'.db.rows, p)
  {
    var s1, moved :| MoveRun(s, s1, p, entry, moved) &&
      if moved then FolderId(s1.db.rows, Parent(p)).Some? && ContentRun(s1, s', p, entry.remoteId, now, ok)
      else !ok && s' == s1;
    MoveOnward(s, s1, p, entry, moved, way);
    if moved {
      ContentOnward(s1, s', p, now, ok, way);
      FileOnwardTwice(s, s1, s', p, way);
    }
  }

  lemma ChangeOnward(s: Stand, s': Stand, p: Path, entry: Row, now: int, ok: bool, way: set<Path>)
    requires Steady(s, way) && InHand(s.db.rows, p) && p != ROOT && FolderId(s.db.rows, Parent(p)).Some?
    requires entry.remoteId == s.db.rows[p].remoteId && ChangeRun(s, s', p, entry, now, ok)
    ensures FileOnward(s, s', p, way)
    ensures Known(Parent(p), way) && IsFile(s.disk, p) && s.db.rows[p].hydrated
            && (IsMoved(entry, p) ==> entry.remoteId.value in s.items) ==>
              ok && CleanFile(s'.db.rows, p)
  {
    var s1, ready :| ReadyRun(s, s1, p, ready) && if ready then SendRun(s1, s', p, entry, now, ok) else !ok && s' == s1;
    OwnRowChanged(s, p, s1.db.rows[p], way);
    assert s1 == s.(db := s.db.(rows := s.db.rows[p := s1.db.rows[p]]));
    if ready {
      SendOnward(s1, s', p, entry, now, ok, way);
      FileOnwardTwice(s, s1, s', p, way);
    }
  }

  lemma NameOnward(s: Stand, s': Stand, p: Path, entry: Row, now: int, ok: bool, way: set<Path>)
    requires Steady(s, way) && InHand(s.db.rows, p) && p != ROOT && FolderId(s.db.rows, Parent(p)).Some?
    requires entry.remoteId == s.db.rows[p].remoteId && NameRun(s, s', p, entry, now, ok)
    ensures FileOnward(s, s', p, way)
  {
    var s1, moved :| MoveRun(s, s1, p, entry, moved) &&
      if moved then AdoptRun(s1, s', p, false, now, ok) else !ok && s' == s1;
    MoveOnward(s, s1, p, entry, moved, way);
    if moved {
      var node :| Found(s1, Parent(p), Last(p), node) && ok == node.Some? && s' == Adopted(s1, p, node, false, now);
      if node.Some? {
        FileAdopted(s1, p, node.value, now, s1.disk, way);
      }
      FileOnwardTwice(s, s1, s', p, way);
    }
  }

  /** One changed file: whatever becomes of it, the others wait; and if it can be uploaded, it is. */
  lemma FileRunOnward(s: Stand, s': Stand, p: Path, now: int, ok: bool, way: set<Path>)
    requires Steady(s, way) && InHand(s.db.rows, p) && FileRun(s, s', p, now, ok)
    ensures FileOnward(s, s', p, way) && (Known(Parent(p), way) && Uploadable(s, p) ==> CleanFile(s'.db.rows, p))
  {
    var s1, known, id :| ParentRun(s, s1, p, now, known, id) &&
      if !known || id.None? then ok == known && s' == s1
      else
        && p in s1.db.rows && FolderId(s1.db.rows, Parent(p)) == id
        && FileRest(s1, s', p, s.db.rows[p], now, ok);
    ParentRunOnward(s, s1, p, now, known, id, way);
    if known && id.Some? {
      FileRestOnward(s1, s', p, s.db.rows[p], now, ok, way);
    }
    FolderThenFile(s, s1, s', p, way);
  }

  lemma FileRestOnward(s: Stand, s': Stand, p: Path, entry: Row, now: int, ok: bool, way: set<Path>)
    requires Steady(s, way) && InHand(s.db.rows, p) && p != ROOT && FolderId(s.db.rows, Parent(p)).Some?
    requires entry.remoteId == s.db.rows[p].remoteId && FileRest(s, s', p, entry, now, ok)
    ensures FileOnward(s, s', p, way)
    ensures Known(Parent(p), way) && Uploadable(s, p) && (IsMoved(entry, p) ==> entry.remoteId.value in s.items) ==>
              CleanFile(s'.db.rows, p)
  {
    if p !in s.disk {
      OwnRowChanged(s, p, s.db.rows[p].(tombstone := true), way);
    } else if entry.remoteId.None? || PendingContent(s.db.ops, p) {
      ChangeOnward(s, s', p, entry, now, ok, way);
    } else {
      NameOnward(s, s', p, entry, now, ok, way);
    }
  }

  // ---- all of them ----------------------------------------------------------------------------------

  /** One row in its turn. */
  lemma EntryOnward(s: Stand, s': Stand, k: Path, now: int, way: set<Path>)
    requires Steady(s, way) && EntryRun(s, s', k, now)
    ensures FileOnward(s, s', k, way)
    ensures CleanFile(s.db.rows, k) || (Known(Parent(k), way) && Uploadable(s, k)) ==> CleanFile(s'.db.rows, k)
  {
    if k in s.db.rows && !s.db.rows[k].tombstone && s.db.rows[k].dirty {
      if IsDir(s.db.rows[k].kind) {
        var ok :| FolderRun(s, s', k, now, ok);
        FolderRunOnward(s, s', k, now, ok, way);
      } else {
        var ok :| FileRun(s, s', k, now, ok);
        FileRunOnward(s, s', k, now, ok, way);
      }
    }
  }

  lemma {:induction false} EntriesOnward(s: Stand, s': Stand, order: seq<Path>, now: int, q: Path, way: set<Path>)
    requires Steady(s, way) && Known(Parent(q), way) && EntriesRun(s, s', order, now) && Uploadable(s, q)
    ensures Steady(s', way) && (if q in order then CleanFile(s'.db.rows, q) else Uploadable(s', q))
    decreases |order|
  {
    if order != [] {
      var front, k := order[..|order| - 1], order[|order| - 1];
      var s1 :| EntriesRun(s, s1, front, now) && EntryRun(s1, s', k, now);
      assert order == front + [k];
      EntriesOnward(s, s1, front, now, q, way);
      EntryOnward(s1, s', k, now, way);
    }
  }

  /** With its name held by nothing but its own item, the file's row ends up with a new item that has
      the mirror's bytes, under its name, in its folder. */
  lemma ContentArrives(s: Stand, s': Stand, p: Path, now: int, ok: bool, way: set<Path>)
    requires Steady(s, way) && InHand(s.db.rows, p) && p != ROOT && Known(Parent(p), way)
    requires FolderId(s.db.rows, Parent(p)).Some?
    requires IsFile(s.disk, p) && ContentRun(s, s', p, s.db.rows[p].remoteId, now, ok)
    requires forall x ::
               x in s.items && s.items[x].parent == FolderId(s.db.rows, Parent(p)) && s.items[x].name == Last(p) ==>
                 Some(x) == s.db.rows[p].remoteId
    ensures ok && p in s'.db.rows && s'.db.rows[p].remoteId.Some? && s'.db.rows[p].remoteId.value in s'.items
    ensures var id := s'.db.rows[p].remoteId.value;
            && id !in s.items && s'.items[id].data == s.disk[p].bytes && s'.items[id].name == Last(p)
            && s'.items[id].parent == FolderId(s.db.rows, Parent(p))
  {
    var s1 := WithRoom(s, s.db.rows[p].remoteId);
    RoomMade(s, p, way);
    if s.db.rows[p].remoteId.Some? {
      DeletedIsOne(s, p, way);
    }
    KnownHasRoom(s1, p, way);
    UploadOnward(s1, s', p, now, ok, way);
    NewNameIsFound(s1, s', p, now, ok, way);
  }

  lemma NewNameIsFound(s: Stand, s': Stand, p: Path, now: int, ok: bool, way: set<Path>)
    requires Steady(s, way) && InHand(s.db.rows, p) && p != ROOT && FolderId(s.db.rows, Parent(p)).Some?
    requires IsFile(s.disk, p) && UploadRun(s, s', p, now, ok) && ok
    requires !Taken(s.items, FolderId(s.db.rows, Parent(p)).value, Last(p))
    ensures var id := ItemId(File, s.nextId + 1);
            && p in s'.db.rows && s'.db.rows[p].remoteId == Some(id) && id !in s.items && id in s'.items
            && s'.items[id].data == s.disk[p].bytes && s'.items[id].name == Last(p)
            && s'.items[id].parent == FolderId(s.db.rows, Parent(p))
  {
    var made := WithItem(s, Parent(p), Last(p), File, s.disk[p].bytes, s.disk[p].mtime);
    var node :| && Found(made, Parent(p), Last(p), node) && ok == node.Some?
                && s'.(disk := s.disk) == Adopted(made, p, node, false, now);
    assert s'.db == MarkClean(s.db, p, node.value, now);
  }

  /** A file that was only moved here, its item where iCloud last had it and its new name free, has its item
      in its folder, under its name, and nothing left to do. */
  lemma NameArrives(s: Stand, s': Stand, p: Path, entry: Row, now: int, ok: bool, way: set<Path>)
    requires Steady(s, way) && InHand(s.db.rows, p) && p != ROOT && Known(Parent(p), way)
    requires FolderId(s.db.rows, Parent(p)).Some?
    requires entry == s.db.rows[p] && IsMoved(entry, p) && entry.remoteId.value in s.items
    requires PlacedAt(s.db.rows, s.items, p, entry.syncedPath.value)
    requires !Taken(s.items - {entry.remoteId.value}, FolderId(s.db.rows, Parent(p)).value, Last(p))
    requires NameRun(s, s', p, entry, now, ok)
    ensures var id := entry.remoteId.value;
            && ok && p in s'.db.rows && !s'.db.rows[p].dirty && s'.db.rows[p].remoteId == Some(id) && id in s'.items
            && s'.items[id].parent == FolderId(s.db.rows, Parent(p)) && s'.items[id].name == Last(p)
            && s'.items[id].data == s.items[id].data
  {
    var id := entry.remoteId.value;
    var s1, moved :| MoveRun(s, s1, p, entry, moved) &&
      if moved then AdoptRun(s1, s', p, false, now, ok) else !ok && s' == s1;
    KnownHasRoom(s, p, way);
    MoveArrives(s, p, id, entry.syncedPath.value);
    var node :| Found(s1, Parent(p), Last(p), node) && ok == node.Some? && s' == Adopted(s1, p, node, false, now);
    var rest := s.items - {id};
    assert forall x :: x in s1.items && x != id ==> x in rest && rest[x] == s1.items[x];
  }

  /** A folder that moved has its item in its folder, under its name. */
  lemma MovedFolderArrives(s: Stand, s': Stand, p: Path, now: int, ok: bool)
    requires p != ROOT && MovedFolder(s.db.rows, p) && FolderId(s.db.rows, Parent(p)).Some?
    requires InOldPlace(s.db.rows, s.items, p) && UpdateRun(s, s', p, s.db.rows[p], now, ok)
    ensures var id := s.db.rows[p].remoteId.value;
            && id in s'.items && s'.items[id].parent == FolderId(s.db.rows, Parent(p)) && s'.items[id].name == Last(p)
  {
  }

  // ---- deletes ------------------------------------------------------------------------------------------

  /** Deleting the item `top` takes the item `id` out of reach, or moves it. */
  predicate Hits(items: Items, id: string, top: string, permanently: bool) {
    if permanently then Inside(items, id, top, |items|) else id == top
  }

  /** The pending delete of another row, not processed later, took this one's item along. */
  predicate TakenAlong(s: Stand, k: Path, keys: set<Path>, permanently: bool) {
    && k in s.db.rows && s.db.rows[k].remoteId.Some? && permanently
    && exists j :: j in keys && j != k && j in s.db.rows && |k| <= |j| && s.db.rows[j].remoteId.Some?
                   && Inside(s.items, s.db.rows[k].remoteId.value, s.db.rows[j].remoteId.value, |s.items|)
  }

  /** What the deletes of `order` leave of rows and items. */
  ghost predicate Pruned(s: Stand, s': Stand, keys: set<Path>, permanently: bool) {
    && s'.disk == s.disk && s'.nextId == s.nextId && s'.db.rows.Keys <= s.db.rows.Keys
    && (forall k :: k in s'.db.rows ==> s'.db.rows[k] == s.db.rows[k])
    && (forall x :: x in s'.items ==> x in s.items && SameOrTrashed(s.items[x], s'.items[x]))
    && (permanently ==> forall x :: x in s'.items ==> s'.items[x] == s.items[x])
    && (!permanently ==> s'.items.Keys == s.items.Keys)
    && (forall x :: x in s.items && (forall k :: k in keys && k in s.db.rows && s.db.rows[k].remoteId.Some? ==>
                                       !Hits(s.items, x, s.db.rows[k].remoteId.value, permanently)) ==>
          x in s'.items && s'.items[x] == s.items[x])
  }

  /** The same item, or the same in the trash. */
  predicate SameOrTrashed(item: Item, item': Item) {
    item' == item || item' == item.(parent := Some("TRASH"))
  }

  lemma PrunedOnce(s: Stand, s1: Stand, s2: Stand, keys: set<Path>, k: Path, permanently: bool)
    requires Pruned(s, s1, keys, permanently) && k in s.db.rows && k in s1.db.rows && DeleteRun(s1, s2, k, permanently)
    ensures Pruned(s, s2, keys + {k}, permanently)
  {
    forall x | x in s.items && forall j :: j in keys + {k} && j in s.db.rows && s.db.rows[j].remoteId.Some? ==>
                                 !Hits(s.items, x, s.db.rows[j].remoteId.value, permanently)
      ensures x in s2.items && s2.items[x] == s.items[x]
    {
      assert x in s1.items && s1.items[x] == s.items[x];
      if s.db.rows[k].remoteId.Some? && permanently {
        var top := s.db.rows[k].remoteId.value;
        if Inside(s1.items, x, top, |s1.items|) {
          SubsetSize(s1.items.Keys, s.items.Keys);
          MoreSteps(s1.items, s.items, x, top, |s1.items|, |s.items|);
        }
      }
    }
  }

  lemma {:induction false} SubsetSize<T>(a: set<T>, b: set<T>)
    requires a <= b
    ensures |a| <= |b|
    decreases |a|
  {
    if a != {} {
      var x :| x in a;
      SubsetSize(a - {x}, b - {x});
    }
  }

  /** Keys in the order they are processed. */
  lemma FrontOrder(order: seq<Path>, keys: set<Path>)
    requires order != [] && DeepestFirst(order, keys)
    ensures var front, k := order[..|order| - 1], order[|order| - 1];
            && k in keys && DeepestFirst(front, keys - {k})
            && forall j :: j in keys - {k} ==> |k| <= |j|
  {
    var front, k := order[..|order| - 1], order[|order| - 1];
    assert order == front + [k];
    forall j ensures j in keys - {k} <==> j in front {
    }
  }

  /** Each pending delete is gone, if iCloud had its item or never had one, or its item went along with
      another's. */
  ghost predicate Cleared(s: Stand, s': Stand, keys: set<Path>, permanently: bool) {
    forall k :: k in keys && k in s.db.rows
                && (s.db.rows[k].remoteId.Some? ==> s.db.rows[k].remoteId.value in s.items) ==>
      k !in s'.db.rows || TakenAlong(s, k, keys, permanently)
  }

  ghost predicate OthersStay(s: Stand, s': Stand, keys: set<Path>) {
    forall k :: k in s.db.rows && (forall j :: j in keys ==> !Within(k, j)) ==> k in s'.db.rows
  }

  lemma DeletesDoneStep(s: Stand, s1: Stand, s': Stand, keys: set<Path>, k: Path, permanently: bool)
    requires k in keys && k in s.db.rows && Pruned(s, s1, keys - {k}, permanently) && DeleteRun(s1, s', k, permanently)
    requires (forall j :: j in keys ==> j in s.db.rows) && forall j :: j in keys - {k} ==> |k| <= |j|
    requires Cleared(s, s1, keys - {k}, permanently) && OthersStay(s, s1, keys - {k})
    ensures Pruned(s, s', keys, permanently) && Cleared(s, s', keys, permanently) && OthersStay(s, s', keys)
  {
    PrunedOnce(s, s1, s', keys - {k}, k, permanently);
    assert keys - {k} + {k} == keys;
    LastDelete(s, s1, s', keys, k, permanently);
    forall i | i in keys && i != k && (s.db.rows[i].remoteId.Some? ==> s.db.rows[i].remoteId.value in s.items)
      ensures i !in s'.db.rows || TakenAlong(s, i, keys, permanently)
    {
      assert i in keys - {k};
      if TakenAlong(s, i, keys - {k}, permanently) {
        var j :| j in keys - {k} && j != i && j in s.db.rows && |i| <= |j| && s.db.rows[j].remoteId.Some?
                 && Inside(s.items, s.db.rows[i].remoteId.value, s.db.rows[j].remoteId.value, |s.items|);
        assert j in keys;
      }
    }
  }

  /** After the deletes every one of them is gone, iCloud never had its item, or it went along with
      another's; and what they do not touch is as it was. */
  lemma {:induction false} DeletesDone(s: Stand, s': Stand, order: seq<Path>, keys: set<Path>, permanently: bool)
    requires DeepestFirst(order, keys) && DeletesRun(s, s', order, permanently)
    requires forall k :: k in keys ==> k in s.db.rows
    ensures Pruned(s, s', keys, permanently) && Cleared(s, s', keys, permanently) && OthersStay(s, s', keys)
    decreases |order|
  {
    if order == [] {
      assert keys == {};
    } else {
      var front, k := order[..|order| - 1], order[|order| - 1];
      var s1 :| DeletesRun(s, s1, front, permanently) && DeleteRun(s1, s', k, permanently);
      FrontOrder(order, keys);
      DeletesDone(s, s1, front, keys - {k}, permanently);
      DeletesDoneStep(s, s1, s', keys, k, permanently);
    }
  }

  lemma LastDelete(s: Stand, s1: Stand, s': Stand, keys: set<Path>, k: Path, permanently: bool)
    requires k in keys && k in s.db.rows && Pruned(s, s1, keys - {k}, permanently) && DeleteRun(s1, s', k, permanently)
    requires (forall j :: j in keys ==> j in s.db.rows) && forall j :: j in keys - {k} ==> |k| <= |j|
    ensures (s.db.rows[k].remoteId.Some? ==> s.db.rows[k].remoteId.value in s.items) ==>
              k !in s'.db.rows || TakenAlong(s, k, keys, permanently)
  {
    assert Within(k, k);
    if k in s'.db.rows && (s.db.rows[k].remoteId.Some? ==> s.db.rows[k].remoteId.value in s.items) {
      var id := s.db.rows[k].remoteId.value;
      assert id !in s1.items;
      var j :| j in keys - {k} && j in s.db.rows && s.db.rows[j].remoteId.Some?
               && Hits(s.items, id, s.db.rows[j].remoteId.value, permanently);
    }
  }

  // ---- the whole pass -------------------------------------------------------------------------------------

  /** No pending delete takes along the root or the item of one of the rows of `kept`. */
  ghost predicate Spared(s: Stand, keys: set<Path>, kept: set<Path>, permanently: bool) {
    forall k :: k in keys && k in s.db.rows && s.db.rows[k].remoteId.Some? ==>
      && !Hits(s.items, ROOT_ID, s.db.rows[k].remoteId.value, permanently)
      && forall q :: q in kept && q in s.db.rows && s.db.rows[q].remoteId.Some? ==>
           !Hits(s.items, s.db.rows[q].remoteId.value, s.db.rows[k].remoteId.value, permanently)
  }

  /** The deletes leave live rows, with their content operations, and the items of `kept` alone. */
  ghost predicate LiveAlone(s: Stand, s': Stand, kept: set<Path>) {
    && s'.disk == s.disk && s'.nextId == s.nextId
    && (forall q :: Live(s.db.rows, q) ==> q in s'.db.rows)
    && (forall q :: q in s'.db.rows ==> q in s.db.rows && s'.db.rows[q] == s.db.rows[q])
    && (forall x :: x in s'.items ==> x in s.items && SameOrTrashed(s.items[x], s'.items[x]))
    && ROOT_ID in s'.items
    && (forall q :: q in kept && q in s.db.rows && s.db.rows[q].remoteId.Some?
                    && s.db.rows[q].remoteId.value in s.items ==>
          && s.db.rows[q].remoteId.value in s'.items
          && s'.items[s.db.rows[q].remoteId.value] == s.items[s.db.rows[q].remoteId.value])
  }

  lemma LiveNotBelowDeleted(s: Stand, keys: set<Path>, q: Path)
    requires Orderly(s.db.rows) && Live(s.db.rows, q)
    requires forall k :: k in keys ==> k in s.db.rows && s.db.rows[k].tombstone
    ensures forall k :: k in keys ==> !Within(q, k)
  {
  }

  lemma DeletesLeaveLive(s: Stand, s': Stand, order: seq<Path>, keys: set<Path>, kept: set<Path>, permanently: bool)
    requires DeepestFirst(order, keys) && DeletesRun(s, s', order, permanently) && Orderly(s.db.rows)
    requires ROOT_ID in s.items && Spared(s, keys, kept, permanently)
    requires forall k :: k in keys ==> k in s.db.rows && s.db.rows[k].tombstone
    ensures LiveAlone(s, s', kept)
  {
    DeletesDone(s, s', order, keys, permanently);
    forall q | Live(s.db.rows, q) ensures q in s'.db.rows {
      LiveNotBelowDeleted(s, keys, q);
    }
  }

  lemma AloneFilesApart(s: Stand, s': Stand, kept: set<Path>)
    requires FilesApart(s.db.rows, s.items) && LiveAlone(s, s', kept)
    ensures FilesApart(s'.db.rows, s'.items)
  {
    forall j, g | ChangedFile(s'.db.rows, j) && LiveFolder(s'.db.rows, g)
      ensures ApartFrom(s'.db.rows, s'.items, j, g)
    {
      assert ChangedFile(s.db.rows, j) && LiveFolder(s.db.rows, g) && ApartFrom(s.db.rows, s.items, j, g);
    }
  }

  lemma AloneMovesKnown(s: Stand, s': Stand, kept: set<Path>, way: set<Path>)
    requires MovesKnown(s.db.rows, s.items, way) && FoldersKnown(s.db.rows, s.items, way)
    requires LiveAlone(s, s', kept) && way <= kept
    ensures MovesKnown(s'.db.rows, s'.items, way)
  {
    forall g | g in way && g != ROOT && MovedFolder(s'.db.rows, g) ensures InOldPlace(s'.db.rows, s'.items, g) {
      assert MovedFolder(s.db.rows, g) && InOldPlace(s.db.rows, s.items, g);
      assert InFolder(s.db.rows, g);
    }
  }

  lemma AloneSteady(s: Stand, s': Stand, kept: set<Path>, way: set<Path>)
    requires Steady(s, way) && LiveAlone(s, s', kept) && way <= kept && Untargeted(s'.db.ops)
    ensures Steady(s', way)
  {
    AloneFilesApart(s, s', kept);
    AloneMovesKnown(s, s', kept, way);
    forall k | Live(s'.db.rows, k) ensures InFolder(s'.db.rows, k) {
      assert Live(s.db.rows, k) && InFolder(s.db.rows, k);
    }
    assert FoldersKnown(s'.db.rows, s'.items, way);
  }

  lemma SubtreeOpsKept(ops: seq<Op>, p: Path, q: Path)
    requires Untargeted(ops) && !Within(q, p)
    ensures var ops' := KeepOps(ops, (o: Op) => !MentionsBelow(o, p));
            Untargeted(ops') && (PendingContent(ops', q) <==> PendingContent(ops, q))
  {
    var ops' := KeepOps(ops, (o: Op) => !MentionsBelow(o, p));
    if PendingContent(ops, q) {
      var o :| o in ops && o.path == q && o.kind in {CreateOp, UpdateOp, ConflictCopyOp};
      assert IsContentOp(o) && o in ops';
    }
  }

  lemma {:induction false} DeletesKeepOps(s: Stand, s': Stand, order: seq<Path>, permanently: bool, q: Path)
    requires DeletesRun(s, s', order, permanently) && Untargeted(s.db.ops) && forall k :: k in order ==> !Within(q, k)
    ensures Untargeted(s'.db.ops) && (PendingContent(s'.db.ops, q) <==> PendingContent(s.db.ops, q))
    decreases |order|
  {
    if order != [] {
      var front, k := order[..|order| - 1], order[|order| - 1];
      var s1 :| DeletesRun(s, s1, front, permanently) && DeleteRun(s1, s', k, permanently);
      assert order == front + [k];
      DeletesKeepOps(s, s1, front, permanently, q);
      SubtreeOpsKept(s1.db.ops, k, q);
    }
  }

  /** After the deletes the pass is still in a state the upload of `q` can start from. */
  lemma DeletesSteady(s: Stand, s': Stand, order: seq<Path>, keys: set<Path>, permanently: bool, q: Path,
                      way: set<Path>)
    requires Steady(s, way) && Orderly(s.db.rows) && Spared(s, keys, way + {q}, permanently)
    requires DeepestFirst(order, keys) && DeletesRun(s, s', order, permanently)
    requires forall k :: k in keys ==> k in s.db.rows && s.db.rows[k].tombstone
    requires Uploadable(s, q)
    ensures Steady(s', way) && Uploadable(s', q)
  {
    DeletesLeaveLive(s, s', order, keys, way + {q}, permanently);
    LiveNotBelowDeleted(s, keys, q);
    DeletesKeepOps(s, s', order, permanently, q);
    DeletesUntargeted(s, s', order, permanently);
    AloneSteady(s, s', way + {q}, way);
  }

  lemma {:induction false} DeletesUntargeted(s: Stand, s': Stand, order: seq<Path>, permanently: bool)
    requires DeletesRun(s, s', order, permanently) && Untargeted(s.db.ops)
    ensures Untargeted(s'.db.ops)
    decreases |order|
  {
    if order != [] {
      var front, k := order[..|order| - 1], order[|order| - 1];
      var s1 :| DeletesRun(s, s1, front, permanently) && DeleteRun(s1, s', k, permanently);
      DeletesUntargeted(s, s1, front, permanently);
    }
  }

  // ---- what goes along with a deleted folder ------------------------------------------------------------

  lemma {:induction false} WayUpTwice(items: Items, x: string, y: string, top: string, n: nat, m: nat)
    requires Inside(items, x, y, n) && Inside(items, y, top, m)
    ensures Inside(items, x, top, n + m)
    decreases n
  {
    if x == y {
      MoreSteps(items, items, y, top, m, n + m);
    } else if x != top {
      WayUpTwice(items, items[x].parent.value, y, top, n - 1, m);
    }
  }

  /** The way up from what stays is all there. */
  lemma {:induction false} WayUpStays(items: Items, gone: string, x: string, top: string, n: nat)
    requires Inside(items, x, top, n) && !Inside(items, x, gone, |items|)
    ensures Inside(Without(items, gone), x, top, n)
    decreases n
  {
    if x != top {
      var parent := items[x].parent.value;
      if Inside(items, parent, gone, |items|) {
        assert Inside(items, x, gone, |items| + 1);
        EnoughSteps(items, x, gone, |items| + 1);
      }
      WayUpStays(items, gone, parent, top, n - 1);
    }
  }

  /** Whatever lies inside an item that is deleted for good is gone afterwards, wherever the rows have
      it by now. */
  lemma {:induction false} DeletesTakeContents(s: Stand, s': Stand, order: seq<Path>, k: Path, x: string)
    requires DeletesRun(s, s', order, true) && k in s.db.rows && s.db.rows[k].remoteId.Some?
    requires s.db.rows[k].remoteId.value in s.items && Inside(s.items, x, s.db.rows[k].remoteId.value, |s.items|)
    ensures var top := s.db.rows[k].remoteId.value;
            && (k in order ==> x !in s'.items)
            && (x in s'.items ==> top in s'.items && Inside(s'.items, x, top, |s'.items|))
            && (k in s'.db.rows ==> s'.db.rows[k] == s.db.rows[k])
    decreases |order|
  {
    if order != [] {
      var front, j := order[..|order| - 1], order[|order| - 1];
      var s1 :| DeletesRun(s, s1, front, true) && DeleteRun(s1, s', j, true);
      assert order == front + [j];
      DeletesTakeContents(s, s1, front, k, x);
      if x in s1.items && s'.items != s1.items {
        OneDeleteTakes(s1, s', j, s.db.rows[k].remoteId.value, x);
      }
    }
  }

  lemma OneDeleteTakes(s: Stand, s': Stand, j: Path, top: string, x: string)
    requires DeleteRun(s, s', j, true) && s'.items != s.items && x in s.items
    requires top in s.items && Inside(s.items, x, top, |s.items|)
    ensures x in s'.items ==>
              top in s'.items && Inside(s'.items, x, top, |s'.items|) && s.db.rows[j].remoteId != Some(top)
  {
    var gone := s.db.rows[j].remoteId.value;
    if x in s'.items {
      WayUpStays(s.items, gone, x, top, |s.items|);
      EnoughSteps(s'.items, x, top, |s.items|);
      if Inside(s.items, top, gone, |s.items|) {
        WayUpTwice(s.items, x, top, gone, |s.items|, |s.items|);
        EnoughSteps(s.items, x, gone, |s.items| + |s.items|);
      }
    }
  }

  // ---- what steps leave alone -------------------------------------------------------------------------------

  predicate LearnedPlace(r: Row, r': Row) {
    r' == r.(syncedPath := r'.syncedPath, lastSynced := r'.lastSynced)
  }

  ghost predicate SameRows(s: Stand, s': Stand) {
    s'.db.rows.Keys == s.db.rows.Keys && forall q :: q in s.db.rows ==> s'.db.rows[q].kind == s.db.rows[q].kind
  }

  /** No row comes or goes or changes its kind, and the rows of files other than `p` and what is above it
      only learn where iCloud knows them. */
  ghost predicate OthersSame(s: Stand, s': Stand, p: Path) {
    && SameRows(s, s')
    && forall q :: q in s.db.rows && !Within(p, q) && !IsDir(s.db.rows[q].kind) ==>
         LearnedPlace(s.db.rows[q], s'.db.rows[q])
  }

  lemma OthersSameTwice(s: Stand, s1: Stand, s': Stand, p: Path)
    requires OthersSame(s, s1, Parent(p)) && OthersSame(s1, s', p)
    ensures OthersSame(s, s', p)
  {
    forall q | q in s.db.rows && !Within(p, q) && !IsDir(s.db.rows[q].kind)
      ensures LearnedPlace(s.db.rows[q], s'.db.rows[q])
    {
      assert Within(Parent(p), q) ==> Within(p, q);
      assert LearnedPlace(s.db.rows[q], s1.db.rows[q]) && LearnedPlace(s1.db.rows[q], s'.db.rows[q]);
    }
  }

  lemma AdoptRunLeaves(s: Stand, s': Stand, p: Path, subtree: bool, now: int, ok: bool)
    requires p != ROOT && p in s.db.rows && AdoptRun(s, s', p, subtree, now, ok)
    ensures OthersSame(s, s', p)
  {
  }

  lemma FolderRestLeaves(s: Stand, s': Stand, p: Path, entry: Row, now: int, known: bool, id: Option<string>, ok: bool)
    requires p != ROOT && p in s.db.rows && FolderRest(s, s', p, entry, now, known, id, ok)
    ensures OthersSame(s, s', p)
  {
    if known && id.Some? {
      if entry.remoteId.None? {
        if id.value in s.items {
          AdoptRunLeaves(WithItem(s, Parent(p), Last(p), Folder, [], 0), s', p, false, now, ok);
        }
      } else if IsMoved(entry, p) && entry.remoteId.value in s.items {
        AdoptRunLeaves(WithMove(s, p, entry.remoteId.value, entry.syncedPath.value), s', p, true, now, ok);
      }
    }
  }

  lemma {:induction false} FolderRunLeaves(s: Stand, s': Stand, p: Path, now: int, ok: bool)
    requires FolderRun(s, s', p, now, ok)
    ensures OthersSame(s, s', p)
    decreases |p|, 1
  {
    var s1, known, id :| ParentRun(s, s1, p, now, known, id) && FolderRest(s1, s', p, s.db.rows[p], now, known, id, ok);
    ParentRunLeaves(s, s1, p, now, known, id);
    FolderRestLeaves(s1, s', p, s.db.rows[p], now, known, id, ok);
    OthersSameTwice(s, s1, s', p);
  }

  lemma {:induction false} ParentRunLeaves(s: Stand, s': Stand, p: Path, now: int, ok: bool, id: Option<string>)
    requires ParentRun(s, s', p, now, ok, id)
    ensures OthersSame(s, s', Parent(p))
    decreases |p|, 0
  {
    if Parent(p) != ROOT && Parent(p) in s.db.rows && s.db.rows[Parent(p)].dirty {
      FolderRunLeaves(s, s', Parent(p), now, ok);
    }
  }

  lemma ContentRunLeaves(s: Stand, s': Stand, p: Path, id: Option<string>, now: int, ok: bool)
    requires p != ROOT && p in s.db.rows && FolderId(s.db.rows, Parent(p)).Some? && ContentRun(s, s', p, id, now, ok)
    ensures OthersSame(s, s', p)
  {
    var s1 := WithRoom(s, id);
    if IsFile(s.disk, p) && FolderId(s.db.rows, Parent(p)).value in s1.items {
      AdoptRunLeaves(WithItem(s1, Parent(p), Last(p), File, s.disk[p].bytes, s.disk[p].mtime), s'.(disk := s.disk), p,
                   false, now, ok);
    }
  }

  lemma OthersSameAgain(s: Stand, s1: Stand, s': Stand, p: Path)
    requires OthersSame(s, s1, p) && OthersSame(s1, s', p)
    ensures OthersSame(s, s', p)
  {
    forall q | q in s.db.rows && !Within(p, q) && !IsDir(s.db.rows[q].kind)
      ensures LearnedPlace(s.db.rows[q], s'.db.rows[q])
    {
      assert LearnedPlace(s.db.rows[q], s1.db.rows[q]) && LearnedPlace(s1.db.rows[q], s'.db.rows[q]);
    }
  }

  lemma ReadyRunLeaves(s: Stand, s': Stand, p: Path, ok: bool)
    requires p in s.db.rows && ReadyRun(s, s', p, ok)
    ensures OthersSame(s, s', p)
  {
    assert Within(p, p);
  }

  lemma SendRunLeaves(s: Stand, s': Stand, p: Path, entry: Row, now: int, ok: bool)
    requires p != ROOT && p in s.db.rows && SendRun(s, s', p, entry, now, ok)
    ensures OthersSame(s, s', p)
  {
    var s1, moved :| MoveRun(s, s1, p, entry, moved) &&
      if moved then FolderId(s1.db.rows, Parent(p)).Some? && ContentRun(s1, s', p, entry.remoteId, now, ok)
      else !ok && s' == s1;
    if moved {
      ContentRunLeaves(s1, s', p, entry.remoteId, now, ok);
    }
  }

  lemma ChangeRunLeaves(s: Stand, s': Stand, p: Path, entry: Row, now: int, ok: bool)
    requires p != ROOT && p in s.db.rows && FolderId(s.db.rows, Parent(p)).Some? && ChangeRun(s, s', p, entry, now, ok)
    ensures OthersSame(s, s', p)
  {
    var s1, ready :| ReadyRun(s, s1, p, ready) && if ready then SendRun(s1, s', p, entry, now, ok) else !ok && s' == s1;
    ReadyRunLeaves(s, s1, p, ready);
    if ready {
      SendRunLeaves(s1, s', p, entry, now, ok);
      OthersSameAgain(s, s1, s', p);
    }
  }

  lemma FileRestLeaves(s: Stand, s': Stand, p: Path, entry: Row, now: int, ok: bool)
    requires p != ROOT && p in s.db.rows && FolderId(s.db.rows, Parent(p)).Some? && FileRest(s, s', p, entry, now, ok)
    ensures OthersSame(s, s', p)
  {
    if p in s.disk {
      if entry.remoteId.None? || PendingContent(s.db.ops, p) {
        ChangeRunLeaves(s, s', p, entry, now, ok);
      } else {
        var s1, moved :| MoveRun(s, s1, p, entry, moved) &&
          if moved then AdoptRun(s1, s', p, false, now, ok) else !ok && s' == s1;
        if moved {
          AdoptRunLeaves(s1, s', p, false, now, ok);
        }
      }
    }
  }

  lemma EntryRunLeaves(s: Stand, s': Stand, k: Path, now: int)
    requires EntryRun(s, s', k, now)
    ensures OthersSame(s, s', k)
  {
    if k in s.db.rows && !s.db.rows[k].tombstone && s.db.rows[k].dirty {
      if IsDir(s.db.rows[k].kind) {
        var ok :| FolderRun(s, s', k, now, ok);
        FolderRunLeaves(s, s', k, now, ok);
      } else {
        var ok :| FileRun(s, s', k, now, ok);
        var s1, known, id :| ParentRun(s, s1, k, now, known, id) &&
          if !known || id.None? then ok == known && s' == s1
          else
            && k in s1.db.rows && FolderId(s1.db.rows, Parent(k)) == id
            && FileRest(s1, s', k, s.db.rows[k], now, ok);
        ParentRunLeaves(s, s1, k, now, known, id);
        if known && id.Some? {
          FileRestLeaves(s1, s', k, s.db.rows[k], now, ok);
        }
        OthersSameTwice(s, s1, s', k);
      }
    }
  }

  lemma {:induction false} EntriesRunLeaves(s: Stand, s': Stand, order: seq<Path>, now: int, q: Path)
    requires EntriesRun(s, s', order, now)
    ensures SameRows(s, s')
    ensures q in s.db.rows && !IsDir(s.db.rows[q].kind) && (forall k :: k in order ==> !Within(k, q)) ==>
              LearnedPlace(s.db.rows[q], s'.db.rows[q])
    decreases |order|
  {
    if order != [] {
      var front, k := order[..|order| - 1], order[|order| - 1];
      var s1 :| EntriesRun(s, s1, front, now) && EntryRun(s1, s', k, now);
      assert order == front + [k];
      EntriesRunLeaves(s, s1, front, now, q);
      EntryRunLeaves(s1, s', k, now);
    }
  }

  // ---- what a pass delivers ---------------------------------------------------------------------------------

  /** In a pass that nothing stops and no call of which fails, every pending delete inside the boundary
      is carried out, if iCloud has its item or never had one, unless the item went along with that
      of another pending delete. */
  lemma DeletesArrive(s: Stand, s': Stand, policy: SyncPolicy, permanently: bool, now: int, k: Path)
    requires PassRun(s, s', policy, permanently, now)
    requires k in s.db.rows && s.db.rows[k].tombstone && Allows(policy, Coalesce(s.db.rows[k].syncedPath, k))
    requires s.db.rows[k].remoteId.Some? ==> s.db.rows[k].remoteId.value in s.items
    ensures k !in s'.db.rows || TakenAlong(s, k, PendingDeletes(s.db.rows, policy), permanently)
  {
    var mid, deletes, changes :|
      && DeepestFirst(deletes, PendingDeletes(s.db.rows, policy)) && DeletesRun(s, mid, deletes, permanently)
      && InTurn(mid.db.rows, changes, Changes(s.db.rows, policy)) && EntriesRun(mid, s', changes, now);
    DeletesDone(s, mid, deletes, PendingDeletes(s.db.rows, policy), permanently);
    EntriesRunLeaves(mid, s', changes, now, k);
  }

  /** The folders above `q`. */
  function Above(q: Path): set<Path> {
    set i | 0 < i < |q| :: q[..i]
  }

  /** Nothing stands in the way of the upload of `q`: the folders above it are known, and no pending delete
      takes them or its item along. */
  ghost predicate CanArrive(s: Stand, keys: set<Path>, permanently: bool, q: Path) {
    Steady(s, Above(q)) && Spared(s, keys, Above(q) + {q}, permanently)
  }

  /** And every changed file inside the boundary that can be uploaded is uploaded: its row is clean. */
  lemma UploadsArrive(s: Stand, s': Stand, policy: SyncPolicy, permanently: bool, now: int, q: Path)
    requires PassRun(s, s', policy, permanently, now) && Orderly(s.db.rows)
    requires CanArrive(s, PendingDeletes(s.db.rows, policy), permanently, q)
    requires Uploadable(s, q) && Allows(policy, q)
    requires s.db.rows[q].syncedPath.Some? ==> Allows(policy, s.db.rows[q].syncedPath.value)
    ensures q in s'.db.rows && !s'.db.rows[q].dirty
  {
    var mid, deletes, changes :|
      && DeepestFirst(deletes, PendingDeletes(s.db.rows, policy)) && DeletesRun(s, mid, deletes, permanently)
      && InTurn(mid.db.rows, changes, Changes(s.db.rows, policy)) && EntriesRun(mid, s', changes, now);
    DeletesSteady(s, mid, deletes, PendingDeletes(s.db.rows, policy), permanently, q, Above(q));
    assert q in Changes(s.db.rows, policy) && q in changes;
    assert Known(Parent(q), Above(q));
    EntriesOnward(mid, s', changes, now, q, Above(q));
  }

  /** What is outside the boundary is left alone: a changed file whose path or whose place on iCloud is not
      allowed stays as it is, but for learning where iCloud knows it; and so does a pending delete, unless
      it is below one that is allowed. */
  lemma OutsideIsLeft(s: Stand, s': Stand, policy: SyncPolicy, permanently: bool, now: int, q: Path)
    requires PassRun(s, s', policy, permanently, now) && Orderly(s.db.rows) && q in s.db.rows
    requires !IsDir(s.db.rows[q].kind)
    requires if s.db.rows[q].tombstone then
               forall k :: k in s.db.rows && s.db.rows[k].tombstone && Within(q, k) ==>
                 !Allows(policy, Coalesce(s.db.rows[k].syncedPath, k))
             else !Allows(policy, q) || !Allows(policy, Coalesce(s.db.rows[q].syncedPath, q))
    ensures q in s'.db.rows && LearnedPlace(s.db.rows[q], s'.db.rows[q])
  {
    var mid, deletes, changes :|
      && DeepestFirst(deletes, PendingDeletes(s.db.rows, policy)) && DeletesRun(s, mid, deletes, permanently)
      && InTurn(mid.db.rows, changes, Changes(s.db.rows, policy)) && EntriesRun(mid, s', changes, now);
    DeletesDone(s, mid, deletes, PendingDeletes(s.db.rows, policy), permanently);
    assert forall k :: k in PendingDeletes(s.db.rows, policy) ==> !Within(q, k);
    assert forall k :: k in changes ==> k in Changes(s.db.rows, policy);
    EntriesRunLeaves(mid, s', changes, now, q);
  }

  // ---- an ordinary edit ---------------------------------------------------------------------------------------

  lemma TailOf(a: string, b: string, c: string)
    ensures (a + b + c)[|a| + |b|..] == c
  {
  }

  lemma RootIsNotHandedOut(kind: Kind, n: nat, folder: string, prefix: string, root: string)
    requires folder == "FOLDER" && prefix == "::com.apple.CloudDocs::" && root == "root"
    ensures ItemId(kind, n) != ROOT_ID && |ItemId(kind, n)| >= |prefix|
  {
    assert ROOT_ID == folder + prefix + root;
    if kind == File {
      assert ItemId(kind, n)[1] == 'I' && ROOT_ID[1] == 'O';
    } else {
      DecimalIsDigits(n);
      TailOf(folder, prefix, Decimal(n));
      TailOf(folder, prefix, root);
      assert root[0] == 'r';
    }
  }

  /** The file `name` in the folder `d`, both on iCloud, was edited. */
  function Edited(d: string, name: string, top: string, id: string): Stand {
    Stand(Db(map[[d] := Row(Folder, ROOT, Some(top), Some("e1"), 0, 0, true, false, false, Some(1), Some([d])),
                 [d, name] := Row(File, [d], Some(id), Some("e1"), 1, 0, true, true, false, Some(1), Some([d, name]))],
             [Op(UpdateOp, [d, name], None)], map[]),
          map[ROOT := Dir, [d] := Dir, [d, name] := Data([2], 0)],
          map[ROOT_ID := Item(None, "root", Folder, [], 1, 0), top := Item(Some(ROOT_ID), d, Folder, [], 1, 0),
              id := Item(Some(top), name, File, [1], 1, 0)],
          1)
  }

  /** Nothing stands in the way of its upload, whatever the names. */
  lemma EditCanArrive(d: string, name: string, top: string, id: string, policy: SyncPolicy, permanently: bool,
                      prefix: string)
    requires |top| < 23 && |id| < 23 && top != id && id != "TRASH" && prefix == "::com.apple.CloudDocs::"
    ensures var s, q := Edited(d, name, top, id), [d, name];
            Uploadable(s, q) && CanArrive(s, PendingDeletes(s.db.rows, policy), permanently, q)
  {
    var s, q := Edited(d, name, top, id), [d, name];
    assert |prefix| == 23 && |ROOT_ID| > 23;
    assert s.db.ops[0] in s.db.ops;
    forall kind, n: nat ensures ItemId(kind, n) !in s.items && |ItemId(kind, n)| >= 23 {
      RootIsNotHandedOut(kind, n, "FOLDER", prefix, "root");
    }
    assert Above(q) == {[d]} by {
      assert q[..1] == [d];
    }
    assert PendingDeletes(s.db.rows, policy) == {};
    assert Parent(q) == [d] && Parent([d]) == ROOT;
    forall j, g | ChangedFile(s.db.rows, j) && LiveFolder(s.db.rows, g) ensures ApartFrom(s.db.rows, s.items, j, g) {
    }
  }

  // ---- a file moved out of a folder that is then deleted ------------------------------------------------------

  const EVERYTHING := SyncPolicy(None, [])

  /** The file `f` was moved out of the folder `a` before its content was ever here, and the folder
      deleted; `top` and `id` are their items. */
  function MovedOut(a: Path, f: Path, top: string, id: string): Stand
    requires a != ROOT && f != ROOT
  {
    Stand(Db(map[a := Row(Folder, ROOT, Some(top), None, 0, 0, true, true, true, None, Some(a)),
                 f := Row(File, ROOT, Some(id), None, 1, 0, false, true, false, None, Some(a + f))], [], map[]),
          map[ROOT := Dir, f := Data([0], 0)],
          map[ROOT_ID := Item(None, "root", Folder, [], 1, 0),
              top := Item(Some(ROOT_ID), Last(a), Folder, [], 1, 0), id := Item(Some(top), Last(f), File, [7], 1, 0)],
          1)
  }

  function MovedOutLost(a: Path, f: Path, top: string, id: string): Stand
    requires a != ROOT && f != ROOT
  {
    var s := MovedOut(a, f, top, id);
    s.(db := RemoveSubtree(s.db, a), items := Without(s.items, top))
  }

  predicate Distinct(a: Path, f: Path, top: string, id: string) {
    |a| == |f| == 1 && a != f && top != id && top != ROOT_ID && id != ROOT_ID
  }

  lemma MovedOutChanges(a: Path, f: Path, top: string, id: string)
    requires Distinct(a, f, top, id)
    ensures var s, s' := MovedOut(a, f, top, id), MovedOutLost(a, f, top, id);
            && PendingDeletes(s.db.rows, EVERYTHING) == {a} && Changes(s.db.rows, EVERYTHING) == {f}
            && s'.db.rows == map[f := s.db.rows[f]]
  {
    assert !Within(f, a) && Within(a, a);
  }

  lemma MovedOutTakenAlong(a: Path, f: Path, top: string, id: string)
    requires Distinct(a, f, top, id)
    ensures id in MovedOut(a, f, top, id).items && id !in MovedOutLost(a, f, top, id).items
  {
    var items := MovedOut(a, f, top, id).items;
    assert items[id].parent == Some(top) && Inside(items, top, top, 0);
    assert Inside(items, id, top, 1);
    EnoughSteps(items, id, top, 1);
  }

  lemma MovedOutIsNotFound(a: Path, f: Path, top: string, id: string, now: int)
    requires Distinct(a, f, top, id)
    ensures var s := MovedOutLost(a, f, top, id); EntryRun(s, s, f, now)
  {
    var s := MovedOutLost(a, f, top, id);
    MovedOutChanges(a, f, top, id);
    MovedOutTakenAlong(a, f, top, id);
    assert Parent(f) == ROOT && |a + f| == 2;
    assert MoveRun(s, s, f, s.db.rows[f], false);
    assert NameRun(s, s, f, s.db.rows[f], now, false);
    assert ParentRun(s, s, f, now, true, Some(ROOT_ID));
    assert FileRun(s, s, f, now, false);
  }

  lemma TwoRuns(s: Stand, s': Stand, a: Path, f: Path, policy: SyncPolicy, now: int)
    requires PendingDeletes(s.db.rows, policy) == {a} && Changes(s.db.rows, policy) == {f} && f in s'.db.rows
    requires DeleteRun(s, s', a, true) && EntryRun(s', s', f, now)
    ensures PassRun(s, s', policy, true, now)
  {
    var none: seq<Path> := [];
    OneMoreDelete(s, s, s', none, a, true);
    OneMoreEntry(s', s', s', none, f, now);
    var deletes, changes := none + [a], none + [f];
    assert DeepestFirst(deletes, {a}) && InTurn(s'.db.rows, changes, {f});
  }

  /** When deletes are for good, a pass that nothing stops and no call of which fails deletes the folder
      with the file's item in it, before the move could be carried out: the content is nowhere. */
  lemma MovedOutIsLost(a: Path, f: Path, top: string, id: string, now: int)
    requires Distinct(a, f, top, id)
    ensures PassRun(MovedOut(a, f, top, id), MovedOutLost(a, f, top, id), EVERYTHING, true, now)
    ensures var s, s' := MovedOut(a, f, top, id), MovedOutLost(a, f, top, id);
            && Live(s'.db.rows, f) && !s'.db.rows[f].hydrated && s'.db.rows[f].remoteId == Some(id)
            && id in s.items && s.items[id].data == [7] && id !in s'.items && s'.disk[f].bytes == [0]
  {
    MovedOutChanges(a, f, top, id);
    MovedOutTakenAlong(a, f, top, id);
    MovedOutIsNotFound(a, f, top, id, now);
    TwoRuns(MovedOut(a, f, top, id), MovedOutLost(a, f, top, id), a, f, EVERYTHING, now);
  }
}
