/** What each part of an upload pass does when no call fails, as relations between the state before
    and after: which calls it makes, in which order, and when it gives up. */
module Runs {
  import opened Paths
  import opened Tables
  import opened Files
  import opened FsSpec
  import opened Cloud
  import opened Upload
  import opened Policy

  /** Asking for the record of a name inside a folder. */
  ghost predicate Found(s: Stand, folder: Path, name: string, node: Option<RemoteNode>) {
    var id := FolderId(s.db.rows, folder);
    if node.None? then id.None? || id.value !in s.items || !Taken(s.items, id.value, name)
    else
      && id.Some? && node.value.id in s.items && node.value == Node(node.value.id, s.items[node.value.id])
      && s.items[node.value.id].parent == id && s.items[node.value.id].name == name
  }

  function WithClean(s: Stand, p: Path, node: RemoteNode, now: int): Stand {
    s.(db := MarkClean(s.db, p, node, now))
  }

  function WithSubtree(s: Stand, p: Path, now: int): Stand {
    s.(db := s.db.(rows := MarkSyncedSubtree(s.db.rows, p, now)))
  }

  /** The item after a local move was carried out: in the folder of `p`, under its name. */
  function MovedItem(item: Item, synced: Path, p: Path, folder: Option<string>): Item
    requires p != ROOT
  {
    var moved := if Parent(synced) != Parent(p) then item.(parent := folder, etag := item.etag + 1) else item;
    if synced == ROOT || Last(synced) != Last(p) then moved.(name := Last(p), etag := moved.etag + 1) else moved
  }

  function WithMove(s: Stand, p: Path, id: string, synced: Path): Stand
    requires p != ROOT && id in s.items
  {
    s.(items := s.items[id := MovedItem(s.items[id], synced, p, FolderId(s.db.rows, Parent(p)))])
  }

  predicate IsMoved(entry: Row, p: Path) {
    entry.remoteId.Some? && entry.syncedPath.Some? && entry.syncedPath.value != p
  }

  /** The name is looked up; what is found there is adopted. */
  ghost predicate AdoptRun(s: Stand, s': Stand, p: Path, subtree: bool, now: int, ok: bool)
    requires p != ROOT
  {
    exists node :: Found(s, Parent(p), Last(p), node) && ok == node.Some? && s' == Adopted(s, p, node, subtree, now)
  }

  function Adopted(s: Stand, p: Path, node: Option<RemoteNode>, subtree: bool, now: int): Stand {
    if node.None? then s else WithClean(if subtree then WithSubtree(s, p, now) else s, p, node.value, now)
  }

  // ---- folders ------------------------------------------------------------------------------

  ghost predicate CreateRun(s: Stand, s': Stand, p: Path, now: int, ok: bool)
    requires p != ROOT && FolderId(s.db.rows, Parent(p)).Some?
  {
    if FolderId(s.db.rows, Parent(p)).value !in s.items then !ok && s' == s
    else AdoptRun(WithItem(s, Parent(p), Last(p), Folder, [], 0), s', p, false, now, ok)
  }

  ghost predicate UpdateRun(s: Stand, s': Stand, p: Path, entry: Row, now: int, ok: bool)
    requires p != ROOT && entry.remoteId.Some?
  {
    if !IsMoved(entry, p) then ok && s' == WithSubtree(s, p, now)
    else if entry.remoteId.value !in s.items then !ok && s' == s
    else AdoptRun(WithMove(s, p, entry.remoteId.value, entry.syncedPath.value), s', p, true, now, ok)
  }

  ghost predicate FolderRun(s: Stand, s': Stand, p: Path, now: int, ok: bool)
    decreases |p|, 1
  {
    && p in s.db.rows && p != ROOT
    && exists s1, known, id ::
         ParentRun(s, s1, p, now, known, id) && FolderRest(s1, s', p, s.db.rows[p], now, known, id, ok)
  }

  ghost predicate FolderRest(s1: Stand, s': Stand, p: Path, entry: Row, now: int, known: bool, id: Option<string>,
                             ok: bool)
    requires p != ROOT
  {
    if !known || id.None? then ok == known && s' == s1
    else
      && FolderId(s1.db.rows, Parent(p)) == id
      && if entry.remoteId.None? then CreateRun(s1, s', p, now, ok) else UpdateRun(s1, s', p, entry, now, ok)
  }

  /** The folder that will hold `p`; it and those above it are synced first if they have to be. */
  ghost predicate ParentRun(s: Stand, s': Stand, p: Path, now: int, ok: bool, id: Option<string>)
    decreases |p|, 0
  {
    var f := Parent(p);
    if f == ROOT then ok && id == Some(ROOT_ID) && s' == s
    else if f !in s.db.rows then ok && id.None? && s' == s
    else if !s.db.rows[f].dirty then ok && id == s.db.rows[f].remoteId && s' == s
    else FolderRun(s, s', f, now, ok) && (if ok && f in s'.db.rows then id == s'.db.rows[f].remoteId else id.None?)
  }

  // ---- files ----------------------------------------------------------------------------------

  /** The download attempt before an upload: it changes what the row says is here. */
  ghost predicate ReadyRun(s: Stand, s': Stand, p: Path, ok: bool)
    requires p in s.db.rows
  {
    && Downloaded(s.db, s'.db, p) && s' == s.(db := s.db.(rows := s'.db.rows))
    && (s.db.rows[p].hydrated && p in s.disk ==> ok && s' == s)
  }

  ghost predicate MoveRun(s: Stand, s': Stand, p: Path, entry: Row, ok: bool)
    requires p != ROOT
  {
    if !IsMoved(entry, p) then ok && s' == s
    else if entry.remoteId.value !in s.items then !ok && s' == s
    else ok && s' == WithMove(s, p, entry.remoteId.value, entry.syncedPath.value)
  }

  function WithRoom(s: Stand, id: Option<string>): Stand {
    if id.Some? && id.value in s.items then s.(items := Without(s.items, id.value)) else s
  }

  /** Send the file's bytes and adopt what has the name then; the mirror learns iCloud's time. */
  ghost predicate UploadRun(s: Stand, s': Stand, p: Path, now: int, ok: bool)
    requires p != ROOT && FolderId(s.db.rows, Parent(p)).Some? && IsFile(s.disk, p)
  {
    if FolderId(s.db.rows, Parent(p)).value !in s.items then !ok && s' == s
    else
      var made := WithItem(s, Parent(p), Last(p), File, s.disk[p].bytes, s.disk[p].mtime);
      SameBytes(s.disk, s'.disk) && AdoptRun(made, s'.(disk := s.disk), p, false, now, ok)
  }

  /** Make room first. */
  ghost predicate ContentRun(s: Stand, s': Stand, p: Path, id: Option<string>, now: int, ok: bool)
    requires p != ROOT && FolderId(s.db.rows, Parent(p)).Some?
  {
    if !IsFile(s.disk, p) then !ok && s' == s
    else UploadRun(WithRoom(s, id), s', p, now, ok)
  }

  ghost predicate ChangeRun(s: Stand, s': Stand, p: Path, entry: Row, now: int, ok: bool)
    requires p != ROOT && p in s.db.rows && FolderId(s.db.rows, Parent(p)).Some?
  {
    exists s1, ready ::
      ReadyRun(s, s1, p, ready) && if ready then SendRun(s1, s', p, entry, now, ok) else !ok && s' == s1
  }

  ghost predicate SendRun(s: Stand, s': Stand, p: Path, entry: Row, now: int, ok: bool)
    requires p != ROOT
  {
    exists s1, moved :: MoveRun(s, s1, p, entry, moved) &&
      if moved then FolderId(s1.db.rows, Parent(p)).Some? && ContentRun(s1, s', p, entry.remoteId, now, ok)
      else !ok && s' == s1
  }

  ghost predicate NameRun(s: Stand, s': Stand, p: Path, entry: Row, now: int, ok: bool)
    requires p != ROOT
  {
    exists s1, moved :: MoveRun(s, s1, p, entry, moved) &&
      if moved then AdoptRun(s1, s', p, false, now, ok) else !ok && s' == s1
  }

  ghost predicate FileRest(s: Stand, s': Stand, p: Path, entry: Row, now: int, ok: bool)
    requires p != ROOT && p in s.db.rows && FolderId(s.db.rows, Parent(p)).Some?
  {
    if p !in s.disk then ok && s' == s.(db := s.db.(rows := MarkTombstone(s.db.rows, p)))
    else if entry.remoteId.None? || PendingContent(s.db.ops, p) then ChangeRun(s, s', p, entry, now, ok)
    else NameRun(s, s', p, entry, now, ok)
  }

  ghost predicate FileRun(s: Stand, s': Stand, p: Path, now: int, ok: bool) {
    && p in s.db.rows && p != ROOT
    && exists s1, known, id :: ParentRun(s, s1, p, now, known, id) &&
         if !known || id.None? then ok == known && s' == s1
         else
           && p in s1.db.rows && FolderId(s1.db.rows, Parent(p)) == id
           && FileRest(s1, s', p, s.db.rows[p], now, ok)
  }

  // ---- deletes --------------------------------------------------------------------------------

  function WithoutItem(items: Items, id: string, permanently: bool): Items
    requires id in items
  {
    if permanently then Without(items, id) else items[id := items[id].(parent := Some("TRASH"))]
  }

  /** One pending delete; it stays if iCloud does not have the item. */
  ghost predicate DeleteRun(s: Stand, s': Stand, p: Path, permanently: bool) {
    && p in s.db.rows
    && match s.db.rows[p].remoteId
       case None => s' == s.(db := RemoveSubtree(s.db, p))
       case Some(id) =>
         if id !in s.items then s' == s
         else s' == s.(db := RemoveSubtree(s.db, p), items := WithoutItem(s.items, id, permanently))
  }

  ghost predicate DeletesRun(s: Stand, s': Stand, order: seq<Path>, permanently: bool)
    decreases |order|
  {
    if order == [] then s' == s
    else
      var front, k := order[..|order| - 1], order[|order| - 1];
      exists s1 :: DeletesRun(s, s1, front, permanently) && DeleteRun(s1, s', k, permanently)
  }

  lemma OneMoreDelete(s: Stand, s1: Stand, s2: Stand, order: seq<Path>, k: Path, permanently: bool)
    requires DeletesRun(s, s1, order, permanently) && DeleteRun(s1, s2, k, permanently)
    ensures DeletesRun(s, s2, order + [k], permanently)
  {
    var longer := order + [k];
    assert longer[..|longer| - 1] == order && longer[|longer| - 1] == k;
  }

  /** All of `keys`, each once, none before one below it. */
  ghost predicate DeepestFirst(order: seq<Path>, keys: set<Path>) {
    && (forall k :: k in keys <==> k in order)
    && (forall i, j :: 0 <= i < j < |order| ==> |order[j]| <= |order[i]| && order[i] != order[j])
  }

  lemma OneLess(all: set<Path>, todo: set<Path>, k: Path)
    requires todo <= all && k in todo
    ensures all - (todo - {k}) == all - todo + {k}
  {
  }

  lemma DeepestMore(order: seq<Path>, keys: set<Path>, k: Path)
    requires DeepestFirst(order, keys) && k !in keys && forall j :: j in order ==> |k| <= |j|
    ensures DeepestFirst(order + [k], keys + {k})
  {
  }

  // ---- the pass ---------------------------------------------------------------------------------

  /** One row in its turn, unless an earlier step took care of it. */
  ghost predicate EntryRun(s: Stand, s': Stand, k: Path, now: int) {
    if k !in s.db.rows || s.db.rows[k].tombstone || !s.db.rows[k].dirty then s' == s
    else if IsDir(s.db.rows[k].kind) then exists ok :: FolderRun(s, s', k, now, ok)
    else exists ok :: FileRun(s, s', k, now, ok)
  }

  /** All of `keys`, none before one that has to come sooner. */
  ghost predicate InTurn(rows: Rows, order: seq<Path>, keys: set<Path>) {
    && keys <= rows.Keys && (forall k :: k in keys <==> k in order)
    && (forall i, j :: 0 <= i < j < |order| ==>
          order[i] in keys && order[j] in keys && !Sooner(rows, order[j], order[i]))
    && (forall i, j :: 0 <= i < j < |order| ==> order[i] != order[j])
  }

  /** The rows of `order`, one after the other. */
  ghost predicate EntriesRun(s: Stand, s': Stand, order: seq<Path>, now: int)
    decreases |order|
  {
    if order == [] then s' == s
    else
      var front, k := order[..|order| - 1], order[|order| - 1];
      exists s1 :: EntriesRun(s, s1, front, now) && EntryRun(s1, s', k, now)
  }

  lemma InTurnMore(rows: Rows, order: seq<Path>, keys: set<Path>, k: Path)
    requires InTurn(rows, order, keys) && k in rows && k !in keys && forall j :: j in keys ==> !Sooner(rows, k, j)
    ensures InTurn(rows, order + [k], keys + {k})
  {
  }

  lemma OneMoreEntry(s: Stand, s1: Stand, s2: Stand, order: seq<Path>, k: Path, now: int)
    requires EntriesRun(s, s1, order, now) && EntryRun(s1, s2, k, now)
    ensures EntriesRun(s, s2, order + [k], now)
  {
    var longer := order + [k];
    assert longer[..|longer| - 1] == order && longer[|longer| - 1] == k;
  }

  /** The pending deletes inside the boundary, judged by the path iCloud knows the item under. */
  function PendingDeletes(rows: Rows, policy: SyncPolicy): set<Path> {
    set k | k in rows && rows[k].tombstone && Allows(policy, Coalesce(rows[k].syncedPath, k))
  }

  /** The other changes inside the boundary; of a move both ends have to be. */
  function Changes(rows: Rows, policy: SyncPolicy): set<Path> {
    set k | k in rows && rows[k].dirty && !rows[k].tombstone && Allows(policy, k)
            && (rows[k].syncedPath.Some? ==> Allows(policy, rows[k].syncedPath.value))
  }

  /** A whole pass that nothing stops: the pending deletes, deepest first, and then the other
      changes, folders first and shallow before deep. */
  ghost predicate PassRun(s: Stand, s': Stand, policy: SyncPolicy, permanently: bool, now: int) {
    exists mid, deletes, changes ::
      && DeepestFirst(deletes, PendingDeletes(s.db.rows, policy)) && DeletesRun(s, mid, deletes, permanently)
      && InTurn(mid.db.rows, changes, Changes(s.db.rows, policy)) && EntriesRun(mid, s', changes, now)
  }
}
