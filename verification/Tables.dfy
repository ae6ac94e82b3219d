/** The three tables of the sync database as values, and what each SQL statement or
    transaction of `SyncState` does to them. */
module Tables {
  import opened Paths
  import opened Rekeying

  datatype Option<+T> = None | Some(value: T)

  datatype Kind = File | Folder | AppLibrary | Other

  /** Only folders and application containers behave like directories. */
  predicate IsDir(kind: Kind) {
    kind == Folder || kind == AppLibrary
  }

  /** One row of `entries`, without its key. */
  datatype Row = Row(
    kind: Kind,
    parentPath: Path,
    remoteId: Option<string>,
    etag: Option<string>,
    size: nat,
    mtime: int,
    hydrated: bool,
    dirty: bool,
    tombstone: bool,
    lastSynced: Option<int>,
    syncedPath: Option<Path>)

  /** What iCloud says about one item. */
  datatype RemoteNode = RemoteNode(id: string, etag: Option<string>, name: string, kind: Kind, size: nat, modified: int)

  datatype OpKind = CreateOp | MkdirOp | UpdateOp | DeleteOp | RenameOp | ConflictCopyOp

  datatype Op = Op(kind: OpKind, path: Path, target: Option<Path>)

  type Rows = map<Path, Row>

  datatype Db = Db(rows: Rows, ops: seq<Op>, listings: map<Path, int>)

  /** An item created on this machine: dirty, no remote identity yet. */
  function LocalRow(path: Path, kind: Kind, mtime: int): Row {
    Row(kind, Parent(path), None, None, 0, mtime, true, true, false, None, None)
  }

  /** A clean row describing what iCloud reports at `path`. */
  function RemoteRow(path: Path, node: RemoteNode): Row {
    Row(node.kind, Parent(path), Some(node.id), node.etag, node.size, node.modified,
        IsDir(node.kind) || node.size == 0, false, false, None, Some(path))
  }

  function Coalesce<T>(x: Option<T>, current: T): T {
    if x.Some? then x.value else current
  }

  function CoalesceOption<T>(x: Option<T>, current: Option<T>): Option<T> {
    if x.Some? then x else current
  }

  // ---- queued operations ----------------------------------------------------

  function KeepOps(ops: seq<Op>, keep: Op -> bool): (r: seq<Op>)
    ensures forall o :: o in r <==> o in ops && keep(o)
  {
    if ops == [] then []
    else (if keep(ops[0]) then [ops[0]] else []) + KeepOps(ops[1..], keep)
  }

  predicate Mentions(o: Op, path: Path) {
    o.path == path || o.target == Some(path)
  }

  predicate MentionsBelow(o: Op, path: Path) {
    Within(o.path, path) || (o.target.Some? && Within(o.target.value, path))
  }

  /** Has the content of `path` been written since it was last synced? */
  predicate PendingContent(ops: seq<Op>, path: Path) {
    exists o :: o in ops && o.path == path && o.kind in {CreateOp, UpdateOp, ConflictCopyOp}
  }

  predicate IsContentOp(o: Op) {
    o.kind in {CreateOp, UpdateOp, ConflictCopyOp}
  }

  /** Only renames have a target. */
  ghost predicate Untargeted(ops: seq<Op>) {
    forall o :: o in ops && IsContentOp(o) ==> o.target.None?
  }

  /** iCloud does not have the content: a changed row with no identity or a content operation. */
  predicate AsksForUpload(db: Db, p: Path) {
    && p in db.rows && db.rows[p].dirty && !db.rows[p].tombstone
    && (db.rows[p].remoteId.None? || PendingContent(db.ops, p))
  }

  /** Deleting something only ever created locally cancels its queued operations, and
      one note covers any number of content updates. */
  function QueueOp(ops: seq<Op>, kind: OpKind, path: Path, target: Option<Path>): seq<Op> {
    if kind == DeleteOp && exists o :: o in ops && o.path == path && o.kind in {CreateOp, MkdirOp} then
      KeepOps(ops, (o: Op) => o.path != path)
    else if kind == UpdateOp && exists o :: o in ops && o.path == path && o.kind in {CreateOp, UpdateOp} then
      ops
    else
      ops + [Op(kind, path, target)]
  }

  /** After a write its content operation is queued, by this call or an earlier one. */
  lemma UpdateQueued(ops: seq<Op>, path: Path)
    ensures PendingContent(QueueOp(ops, UpdateOp, path, None), path)
  {
    var ops' := QueueOp(ops, UpdateOp, path, None);
    if exists o :: o in ops && o.path == path && o.kind in {CreateOp, UpdateOp} {
      var o :| o in ops && o.path == path && o.kind in {CreateOp, UpdateOp};
      assert o in ops';
    } else {
      assert ops'[|ops|] == Op(UpdateOp, path, None);
    }
  }

  // ---- single-row statements ------------------------------------------------

  function MarkHydrated(rows: Rows, path: Path, size: nat, mtime: int): Rows {
    if path in rows then rows[path := rows[path].(hydrated := true, size := size, mtime := mtime)] else rows
  }

  function MarkDirty(rows: Rows, path: Path, size: Option<nat>, mtime: Option<int>, hydrated: Option<bool>): Rows {
    if path !in rows then rows else
      var r := rows[path];
      rows[path := r.(dirty := true, tombstone := false, size := Coalesce(size, r.size),
                      mtime := Coalesce(mtime, r.mtime), hydrated := Coalesce(hydrated, r.hydrated))]
  }

  function MarkTombstone(rows: Rows, path: Path): Rows {
    if path in rows then rows[path := rows[path].(tombstone := true, dirty := true)] else rows
  }

  function CleanRow(path: Path, r: Row, node: RemoteNode, now: int): Row {
    r.(dirty := false, tombstone := false, hydrated := r.kind != File || r.hydrated,
       remoteId := Some(node.id), etag := CoalesceOption(node.etag, r.etag),
       size := node.size, mtime := node.modified, lastSynced := Some(now), syncedPath := Some(path))
  }

  /** The change reached iCloud: adopt what iCloud now says and forget the queued operations. */
  function MarkClean(db: Db, path: Path, node: RemoteNode, now: int): Db {
    db.(rows := if path in db.rows then db.rows[path := CleanRow(path, db.rows[path], node, now)] else db.rows,
        ops := KeepOps(db.ops, (o: Op) => !Mentions(o, path)))
  }

  /** Like `MarkClean` for a file that changed while it was uploaded: still dirty, operations kept. */
  function MarkUploadedButDirty(rows: Rows, path: Path, node: RemoteNode, now: int): Rows {
    if path in rows then
      rows[path := rows[path].(remoteId := Some(node.id), etag := node.etag, lastSynced := Some(now),
                               syncedPath := Some(path))]
    else rows
  }

  function ClearRemoteIdentity(rows: Rows, path: Path): Rows {
    if path in rows then rows[path := Detached(rows[path])] else rows
  }

  function Detached(r: Row): Row {
    r.(remoteId := None, etag := None, syncedPath := None, dirty := true, tombstone := false)
  }

  function RemoveEntry(db: Db, path: Path): Db {
    db.(rows := db.rows - {path}, ops := KeepOps(db.ops, (o: Op) => !Mentions(o, path)))
  }

  // ---- subtree transactions -------------------------------------------------

  function Subtree(rows: Rows, path: Path): set<Path> {
    set k | k in rows && Within(k, path)
  }

  function ForgetListings(listings: map<Path, int>, path: Path): map<Path, int> {
    map k | k in listings && !Within(k, path) :: listings[k]
  }

  function RemoveSubtree(db: Db, path: Path): Db {
    Db(map k | k in db.rows && !Within(k, path) :: db.rows[k],
       KeepOps(db.ops, (o: Op) => !MentionsBelow(o, path)),
       ForgetListings(db.listings, path))
  }

  function SyncedSubtreeRow(k: Path, r: Row, path: Path, now: int): Row {
    r.(syncedPath := Some(k), dirty := k != path && r.dirty, tombstone := k != path && r.tombstone,
       lastSynced := Some(now))
  }

  /** `path` and its descendants are known to iCloud under their current paths; only
      `path` itself stops being dirty. */
  function MarkSyncedSubtree(rows: Rows, path: Path, now: int): Rows {
    map k | k in rows :: if Within(k, path) then SyncedSubtreeRow(k, rows[k], path, now) else rows[k]
  }

  // ---- burying --------------------------------------------------------------

  /** The private key a displaced row is kept under: its last component gets a NUL and
      a marker appended, which no file name can contain. */
  function Grave(path: Path, mark: string): Path {
    if path == [] then ["\0displaced-" + mark]
    else path[..|path| - 1] + [Last(path) + "\0displaced-" + mark]
  }

  /** A displaced row: a pending delete whose `syncedPath` names the remote identity. */
  function Buried(path: Path, r: Row): Row {
    r.(tombstone := true, dirty := true, syncedPath := Some(Coalesce(r.syncedPath, path)))
  }

  /** The marker is a random token, so the graveyard key is nobody else's. */
  predicate FreshGrave(rows: Rows, path: Path, mark: string) {
    Grave(path, mark) !in rows
  }

  /** Move a pending delete at `path` out of the way of a new item. */
  function BuryTombstone(rows: Rows, path: Path, mark: string): Rows {
    if path in rows && rows[path].tombstone then
      (rows - {path})[Grave(path, mark) := Buried(path, rows[path])]
    else rows
  }

  // ---- moving a subtree -----------------------------------------------------

  function RenamedKey(k: Path, from: Path, to: Path, mark: Path -> string): Path {
    if Within(k, from) then Rebase(k, from, to)
    else if Within(k, to) then Grave(k, mark(k))
    else k
  }

  function RenamedRow(k: Path, r: Row, from: Path, to: Path, rootDirty: bool, updateSynced: bool): Row {
    if Within(k, from) then
      r.(parentPath := Parent(Rebase(k, from, to)),
         dirty := r.dirty || (rootDirty && k == from),
         syncedPath := RenamedSynced(r.syncedPath, from, to, updateSynced))
    else if Within(k, to) then Buried(k, r)
    else r
  }

  function RenamedSynced(synced: Option<Path>, from: Path, to: Path, updateSynced: bool): Option<Path> {
    if updateSynced && synced.Some? && Within(synced.value, from) then Some(Rebase(synced.value, from, to))
    else synced
  }

  /** Rows at the destination survive only if iCloud has them. */
  predicate Survives(k: Path, r: Row, to: Path) {
    Within(k, to) ==> r.remoteId.Some?
  }

  ghost function GraveKeys(rows: Rows, to: Path, mark: Path -> string): map<Path, Path> {
    map q | q in rows && Within(q, to) && rows[q].remoteId.Some? :: Grave(q, mark(q))
  }

  /** Displaced rows get keys that are free, distinct, and not about to be taken. */
  ghost predicate FreshMarks(rows: Rows, from: Path, to: Path, mark: Path -> string) {
    && FreshDestinations(rows, GraveKeys(rows, to, mark))
    && forall q, k :: q in GraveKeys(rows, to, mark) && k in Subtree(rows, from) ==>
         GraveKeys(rows, to, mark)[q] != Rebase(k, from, to)
  }

  lemma RenamedKeysDistinct(rows: Rows, from: Path, to: Path, mark: Path -> string)
    requires Apart(from, to) && FreshMarks(rows, from, to, mark)
    ensures Injective(RenamedKeys(rows, from, to, mark))
  {
    var graves := GraveKeys(rows, to, mark);
    forall k, k' | k in RenamedKeys(rows, from, to, mark) && k' in RenamedKeys(rows, from, to, mark) && k != k'
      ensures RenamedKey(k, from, to, mark) != RenamedKey(k', from, to, mark)
    {
      if Within(k, from) {
        RenamedKeyApart(rows, from, to, mark, k, k');
      } else if Within(k', from) {
        RenamedKeyApart(rows, from, to, mark, k', k);
      } else {
        assert Within(k, to) ==> k in graves && graves[k] == RenamedKey(k, from, to, mark);
        assert Within(k', to) ==> k' in graves && graves[k'] == RenamedKey(k', from, to, mark);
      }
    }
  }

  lemma RenamedKeyApart(rows: Rows, from: Path, to: Path, mark: Path -> string, k: Path, k': Path)
    requires Apart(from, to) && FreshMarks(rows, from, to, mark)
    requires k in rows && Within(k, from) && k' in rows && k != k' && Survives(k', rows[k'], to)
    ensures Rebase(k, from, to) != RenamedKey(k', from, to, mark)
  {
    RebaseLands(k, from, to);
    if Within(k', from) {
      if Rebase(k, from, to) == Rebase(k', from, to) {
        RebaseInjective(k, k', from, to);
      }
    } else if Within(k', to) {
      assert k' in GraveKeys(rows, to, mark) && k in Subtree(rows, from);
    }
  }

  function RenamedKeys(rows: Rows, from: Path, to: Path, mark: Path -> string): map<Path, Path> {
    map k | k in rows && Survives(k, rows[k], to) :: RenamedKey(k, from, to, mark)
  }

  function RenamedValues(rows: Rows, from: Path, to: Path, rootDirty: bool, updateSynced: bool): Rows {
    map k | k in rows && Survives(k, rows[k], to) :: RenamedRow(k, rows[k], from, to, rootDirty, updateSynced)
  }

  /** `rename_tree` on the rows: a re-keying. */
  ghost function RenamedRows(rows: Rows, from: Path, to: Path, rootDirty: bool, updateSynced: bool,
                             mark: Path -> string): Rows
    requires Injective(RenamedKeys(rows, from, to, mark))
  {
    Image(RenamedKeys(rows, from, to, mark), RenamedValues(rows, from, to, rootDirty, updateSynced))
  }

  /** Where one row went. */
  lemma RenamedRowAt(rows: Rows, from: Path, to: Path, rootDirty: bool, updateSynced: bool, mark: Path -> string,
                     k: Path)
    requires Injective(RenamedKeys(rows, from, to, mark)) && k in rows && Survives(k, rows[k], to)
    ensures var rows' := RenamedRows(rows, from, to, rootDirty, updateSynced, mark);
            && RenamedKey(k, from, to, mark) in rows'
            && rows'[RenamedKey(k, from, to, mark)] == RenamedRow(k, rows[k], from, to, rootDirty, updateSynced)
  {
    var dest := RenamedKeys(rows, from, to, mark);
    assert k in dest && dest[k] == RenamedKey(k, from, to, mark);
  }

  /** Where one row came from. */
  lemma RenamedRowFrom(rows: Rows, from: Path, to: Path, rootDirty: bool, updateSynced: bool, mark: Path -> string,
                       j: Path)
    returns (k: Path)
    requires Injective(RenamedKeys(rows, from, to, mark))
    requires j in RenamedRows(rows, from, to, rootDirty, updateSynced, mark)
    ensures k in rows && Survives(k, rows[k], to) && RenamedKey(k, from, to, mark) == j
    ensures RenamedRows(rows, from, to, rootDirty, updateSynced, mark)[j] ==
            RenamedRow(k, rows[k], from, to, rootDirty, updateSynced)
  {
    var dest := RenamedKeys(rows, from, to, mark);
    k :| k in dest && dest[k] == j;
    RenamedRowAt(rows, from, to, rootDirty, updateSynced, mark, k);
  }

  lemma RenamedRowsAt(rows: Rows, from: Path, to: Path, rootDirty: bool, updateSynced: bool, mark: Path -> string)
    requires Injective(RenamedKeys(rows, from, to, mark))
    ensures var rows' := RenamedRows(rows, from, to, rootDirty, updateSynced, mark);
            && (forall k :: k in rows && Survives(k, rows[k], to) ==>
                  && RenamedKey(k, from, to, mark) in rows'
                  && rows'[RenamedKey(k, from, to, mark)] == RenamedRow(k, rows[k], from, to, rootDirty, updateSynced))
            && (forall j :: j in rows' ==>
                  exists k :: k in rows && Survives(k, rows[k], to) && RenamedKey(k, from, to, mark) == j)
  {
    forall k | k in rows && Survives(k, rows[k], to)
      ensures RenamedKey(k, from, to, mark) in RenamedRows(rows, from, to, rootDirty, updateSynced, mark)
      ensures RenamedRows(rows, from, to, rootDirty, updateSynced, mark)[RenamedKey(k, from, to, mark)] ==
              RenamedRow(k, rows[k], from, to, rootDirty, updateSynced)
    {
      RenamedRowAt(rows, from, to, rootDirty, updateSynced, mark, k);
    }
    forall j | j in RenamedRows(rows, from, to, rootDirty, updateSynced, mark)
      ensures exists k :: k in rows && Survives(k, rows[k], to) && RenamedKey(k, from, to, mark) == j
    {
      var k := RenamedRowFrom(rows, from, to, rootDirty, updateSynced, mark, j);
    }
  }

  /** The rows that stand for the iCloud item `id`. */
  function Holders(rows: Rows, id: string): set<Path> {
    set k | k in rows && rows[k].remoteId == Some(id)
  }

  function RenamedOp(o: Op, from: Path, to: Path): Op {
    o.(path := if Within(o.path, from) then Rebase(o.path, from, to) else o.path,
       target := if o.target.Some? && Within(o.target.value, from) then Some(Rebase(o.target.value, from, to))
                 else o.target)
  }

  function RenamedOps(ops: seq<Op>, from: Path, to: Path): seq<Op> {
    seq(|ops|, i requires 0 <= i < |ops| => RenamedOp(ops[i], from, to))
  }

  // The transaction does this in two passes: clear the destination, then move the subtree.

  ghost function BuriedRows(rows: Rows, to: Path): Rows {
    map q | q in rows && Within(q, to) && rows[q].remoteId.Some? :: Buried(q, rows[q])
  }

  ghost function RebasedKeys(subtree: set<Path>, from: Path, to: Path): map<Path, Path>
    requires forall k :: k in subtree ==> Within(k, from)
  {
    map k | k in subtree :: Rebase(k, from, to)
  }

  ghost function RebasedRows(rows: Rows, subtree: set<Path>, from: Path, to: Path, rootDirty: bool,
                             updateSynced: bool): Rows
    requires subtree <= rows.Keys
  {
    map k | k in subtree :: RenamedRow(k, rows[k], from, to, rootDirty, updateSynced)
  }

  lemma RebasedKeysFresh(rows: Rows, subtree: set<Path>, from: Path, to: Path)
    requires forall k :: k in subtree ==> Within(k, from)
    requires forall k :: k in subtree ==> Rebase(k, from, to) !in rows
    ensures FreshDestinations(rows, RebasedKeys(subtree, from, to))
  {
    forall k, k' | k in subtree && k' in subtree && Rebase(k, from, to) == Rebase(k', from, to) ensures k == k' {
      RebaseInjective(k, k', from, to);
    }
  }

  lemma SubtreeAfterDisplacing(was: Rows, cleared: Rows, from: Path, to: Path, mark: Path -> string)
    requires Apart(from, to) && FreshMarks(was, from, to, mark)
    requires Rekeyed(was, cleared, Subtree(was, to), GraveKeys(was, to, mark), BuriedRows(was, to))
    ensures Subtree(was, from) <= cleared.Keys
    ensures forall k :: k in was && Within(k, from) ==> cleared[k] == was[k]
    ensures FreshDestinations(cleared, RebasedKeys(Subtree(was, from), from, to))
  {
    var subtree := Subtree(was, from);
    forall k | k in subtree ensures k in cleared && cleared[k] == was[k] && Rebase(k, from, to) !in cleared {
      ApartBelow(k, from, to);
      RebaseLands(k, from, to);
      var j := Rebase(k, from, to);
      assert j in was ==> j in Subtree(was, to);
    }
    RebasedKeysFresh(cleared, subtree, from, to);
  }

  lemma RenamedKeysSplit(was: Rows, from: Path, to: Path, mark: Path -> string)
    requires Apart(from, to)
    ensures Subtree(was, from) !! Subtree(was, to)
    ensures RenamedKeys(was, from, to, mark) ==
            Identity(was.Keys - Subtree(was, to) - Subtree(was, from)) + GraveKeys(was, to, mark)
            + RebasedKeys(Subtree(was, from), from, to)
  {
    forall k | k in was && Within(k, from) ensures !Within(k, to) {
      ApartBelow(k, from, to);
    }
  }

  lemma RenamedValuesSplit(was: Rows, cleared: Rows, from: Path, to: Path, rootDirty: bool, updateSynced: bool)
    requires Apart(from, to)
    requires Subtree(was, from) <= cleared.Keys
    requires forall k :: k in was && Within(k, from) ==> cleared[k] == was[k]
    ensures RenamedValues(was, from, to, rootDirty, updateSynced) ==
            Restrict(was, was.Keys - Subtree(was, to) - Subtree(was, from)) + BuriedRows(was, to)
            + RebasedRows(cleared, Subtree(was, from), from, to, rootDirty, updateSynced)
  {
    forall k | k in was && Within(k, from) ensures !Within(k, to) {
      ApartBelow(k, from, to);
    }
  }

  lemma RenamedInTwoSteps(was: Rows, cleared: Rows, now: Rows, from: Path, to: Path, rootDirty: bool,
                          updateSynced: bool, mark: Path -> string)
    requires Apart(from, to)
    requires Rekeyed(was, cleared, Subtree(was, to), GraveKeys(was, to, mark), BuriedRows(was, to))
    requires Subtree(was, from) <= cleared.Keys
    requires forall k :: k in was && Within(k, from) ==> cleared[k] == was[k]
    requires Rekeyed(cleared, now, Subtree(was, from), RebasedKeys(Subtree(was, from), from, to),
                     RebasedRows(cleared, Subtree(was, from), from, to, rootDirty, updateSynced))
    requires FreshDestinations(was, GraveKeys(was, to, mark))
    requires FreshDestinations(cleared, RebasedKeys(Subtree(was, from), from, to))
    requires Injective(RenamedKeys(was, from, to, mark))
    ensures now == RenamedRows(was, from, to, rootDirty, updateSynced, mark)
  {
    RenamedKeysSplit(was, from, to, mark);
    RenamedValuesSplit(was, cleared, from, to, rootDirty, updateSynced);
    TwoPasses(was, cleared, now,
              Subtree(was, to), GraveKeys(was, to, mark), BuriedRows(was, to),
              Subtree(was, from), RebasedKeys(Subtree(was, from), from, to),
              RebasedRows(cleared, Subtree(was, from), from, to, rootDirty, updateSynced),
              RenamedKeys(was, from, to, mark), RenamedValues(was, from, to, rootDirty, updateSynced));
  }

  ghost function RenameTree(db: Db, from: Path, to: Path, rootDirty: bool, updateSynced: bool,
                            mark: Path -> string): Db
    requires Apart(from, to) && FreshMarks(db.rows, from, to, mark)
  {
    if Subtree(db.rows, from) == {} then db
    else
      RenamedKeysDistinct(db.rows, from, to, mark);
      Db(RenamedRows(db.rows, from, to, rootDirty, updateSynced, mark),
         RenamedOps(db.ops, from, to),
         ForgetListings(db.listings, from))
  }

  // ---- detaching a subtree --------------------------------------------------

  /** The primary key stops a row from landing on another one. */
  predicate Clash(rows: Rows, from: Path, to: Path) {
    exists k :: k in rows && Within(k, from) && Rebase(k, from, to) != k && Rebase(k, from, to) in rows
  }

  function DetachedKey(k: Path, from: Path, to: Path): Path {
    if Within(k, from) then Rebase(k, from, to) else k
  }

  lemma DetachedKeysDistinct(rows: Rows, from: Path, to: Path)
    requires !Clash(rows, from, to)
    ensures Injective(DetachedKeys(rows, from, to))
  {
    forall k, k' | k in rows && k' in rows && k != k'
      ensures DetachedKey(k, from, to) != DetachedKey(k', from, to)
    {
      if Within(k, from) && Within(k', from) && Rebase(k, from, to) == Rebase(k', from, to) {
        RebaseInjective(k, k', from, to);
      }
    }
  }

  function DetachedKeys(rows: Rows, from: Path, to: Path): map<Path, Path> {
    map k | k in rows :: DetachedKey(k, from, to)
  }

  function DetachedRow(k: Path, r: Row, from: Path, to: Path): Row {
    if Within(k, from) then Detached(r).(parentPath := Parent(Rebase(k, from, to))) else r
  }

  function DetachedValues(rows: Rows, from: Path, to: Path): Rows {
    map k | k in rows :: DetachedRow(k, rows[k], from, to)
  }

  /** Move a locally changed subtree to `to` and detach it from iCloud. */
  ghost function DetachedRows(rows: Rows, from: Path, to: Path): Rows
    requires !Clash(rows, from, to)
  {
    DetachedKeysDistinct(rows, from, to);
    Image(DetachedKeys(rows, from, to), DetachedValues(rows, from, to))
  }

  /** Moving the rows one at a time, each to a free key, is the whole move. */
  lemma DetachedOneByOne(was: Rows, now: Rows, from: Path, to: Path)
    requires !Clash(was, from, to) && Apart(from, to)
    requires Rekeyed(was, now, Subtree(was, from), RebasedKeys(Subtree(was, from), from, to),
                     Restrict(DetachedValues(was, from, to), Subtree(was, from)))
    ensures now == DetachedRows(was, from, to)
  {
    DetachedKeysDistinct(was, from, to);
    var subtree := Subtree(was, from);
    forall k | k in subtree ensures Rebase(k, from, to) !in was {
      RebaseLands(k, from, to);
      ApartBelow(k, from, to);
    }
    RebasedKeysFresh(was, subtree, from, to);
    OnePass(was, now, subtree, RebasedKeys(subtree, from, to), Restrict(DetachedValues(was, from, to), subtree),
            DetachedKeys(was, from, to), DetachedValues(was, from, to));
  }

  /** Some of the subtree has moved to free keys.  Is the next key free, and what then? */
  ghost predicate Detaching(was: Rows, now: Rows, done: set<Path>, from: Path, to: Path) {
    && done <= Subtree(was, from)
    && (forall k :: k in done ==> Rebase(k, from, to) !in was)
    && Rekeyed(was, now, done, RebasedKeys(Subtree(was, from), from, to),
               Restrict(DetachedValues(was, from, to), Subtree(was, from)))
  }

  lemma DetachStep(was: Rows, now: Rows, done: set<Path>, from: Path, to: Path, k: Path)
    requires Apart(from, to) && Detaching(was, now, done, from, to) && k in Subtree(was, from) - done
    ensures k in now && now[k] == was[k]
    ensures Rebase(k, from, to) in now <==> Rebase(k, from, to) in was
    ensures Rebase(k, from, to) !in was ==>
              Detaching(was, (now - {k})[Rebase(k, from, to) := DetachedRow(k, was[k], from, to)], done + {k}, from, to)
  {
    var subtree := Subtree(was, from);
    var dest, value := RebasedKeys(subtree, from, to), Restrict(DetachedValues(was, from, to), subtree);
    var updated := Rebase(k, from, to);
    forall i, j | i in subtree && j in subtree && dest[i] == dest[j] ensures i == j {
      RebaseInjective(i, j, from, to);
    }
    RebaseLands(k, from, to);
    ApartBelow(updated, to, from);
    assert updated !in done;
    assert dest[k] == updated && value[k] == DetachedRow(k, was[k], from, to);
    if updated !in was {
      RekeyStep(was, now, done, dest, value, k);
    }
  }

  ghost predicate DetachingInPlace(was: Rows, now: Rows, todo: set<Path>, p: Path) {
    && now.Keys == was.Keys
    && forall k :: k in was ==> now[k] == if k in todo then was[k] else DetachedRow(k, was[k], p, p)
  }

  lemma DetachedInPlace(was: Rows, now: Rows, p: Path)
    requires DetachingInPlace(was, now, {}, p)
    ensures !Clash(was, p, p) && now == DetachedRows(was, p, p)
  {
    forall k | k in was ensures DetachedKeys(was, p, p)[k] == k {
      assert Within(k, p) ==> Rebase(k, p, p) == k;
    }
    assert !Clash(was, p, p);
    DetachedKeysDistinct(was, p, p);
  }

  function DetachedHere(rows: Rows, p: Path): Rows {
    map k | k in rows :: if Within(k, p) then Detached(rows[k]).(parentPath := Parent(k)) else rows[k]
  }

  /** Detaching to the place itself moves nothing. */
  lemma DetachedRowsHere(rows: Rows, p: Path)
    ensures !Clash(rows, p, p) && DetachedRows(rows, p, p) == DetachedHere(rows, p)
  {
    forall k: Path | Within(k, p) ensures Rebase(k, p, p) == k {
    }
    DetachedInPlace(rows, DetachedHere(rows, p), p);
  }

  /** Row `j` after a detach is one that landed there. */
  predicate Landed(rows: Rows, from: Path, to: Path, j: Path) {
    Within(j, to) && Rebase(j, to, from) in rows
  }

  /** Where every row is after a subtree was detached to a place beside it where no row is hit. */
  lemma DetachedRowsAt(rows: Rows, from: Path, to: Path)
    requires Apart(from, to) && !Clash(rows, from, to)
    ensures forall j :: j in DetachedRows(rows, from, to) <==>
              Landed(rows, from, to, j) || (j in rows && !Within(j, from))
    ensures forall j :: j in DetachedRows(rows, from, to) ==>
              DetachedRows(rows, from, to)[j] ==
              if Landed(rows, from, to, j) then Detached(rows[Rebase(j, to, from)]).(parentPath := Parent(j))
              else rows[j]
  {
    forall j
      ensures j in DetachedRows(rows, from, to) <==> Landed(rows, from, to, j) || (j in rows && !Within(j, from))
      ensures j in DetachedRows(rows, from, to) ==>
                DetachedRows(rows, from, to)[j] ==
                if Landed(rows, from, to, j) then Detached(rows[Rebase(j, to, from)]).(parentPath := Parent(j))
                else rows[j]
    {
      DetachedRowAt(rows, from, to, j);
    }
  }

  lemma DetachedRowAt(rows: Rows, from: Path, to: Path, j: Path)
    requires Apart(from, to) && !Clash(rows, from, to)
    ensures j in DetachedRows(rows, from, to) <==> Landed(rows, from, to, j) || (j in rows && !Within(j, from))
    ensures j in DetachedRows(rows, from, to) ==>
              DetachedRows(rows, from, to)[j] ==
              if Landed(rows, from, to, j) then Detached(rows[Rebase(j, to, from)]).(parentPath := Parent(j))
              else rows[j]
  {
    DetachedKeysDistinct(rows, from, to);
    var rows', dest := DetachedRows(rows, from, to), DetachedKeys(rows, from, to);
    if Landed(rows, from, to, j) {
      RebaseLands(j, to, from);
      assert dest[Rebase(j, to, from)] == j;
    } else if j in rows && !Within(j, from) {
      assert dest[j] == j;
    }
    if j in rows' {
      var k :| k in dest && dest[k] == j;
      if Within(k, from) {
        RebaseLands(k, from, to);
      }
    }
  }
}
