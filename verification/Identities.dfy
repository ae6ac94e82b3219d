/** Remote identities are conserved: no mutation of the filesystem loses or duplicates the
    id of an iCloud item, and a pending delete stays one, except in two exactly described
    situations. */
module Identities {
  import opened Paths
  import opened Rekeying
  import opened Tables
  import opened Files
  import opened FsSpec
  import opened FsPosix
  import opened Search

  predicate Tombstoned(rows: Rows, id: string) {
    exists k :: k in rows && rows[k].remoteId == Some(id) && rows[k].tombstone
  }

  /** The bag of remote ids over all rows is the same, and no pending delete is forgotten. */
  ghost predicate Conserved(rows: Rows, rows': Rows) {
    && (forall id :: |Holders(rows, id)| == |Holders(rows', id)|)
    && (forall id :: Tombstoned(rows, id) ==> Tombstoned(rows', id))
  }

  lemma {:induction false} ImageSize(keys: set<Path>, dest: map<Path, Path>)
    requires keys <= dest.Keys && Injective(dest)
    ensures |set k | k in keys :: dest[k]| == |keys|
    decreases |keys|
  {
    var image := set k | k in keys :: dest[k];
    if keys == {} {
      assert image == {};
    } else {
      var k :| k in keys;
      ImageSize(keys - {k}, dest);
      var rest := set j | j in keys - {k} :: dest[j];
      assert image == rest + {dest[k]};
    }
  }

  /** Rows re-keyed one to one, ids and tombstones kept. */
  lemma RekeyingConserves(rows: Rows, rows': Rows, dest: map<Path, Path>)
    requires Injective(dest) && dest.Keys <= rows.Keys
    requires forall k :: k in rows && rows[k].remoteId.Some? ==> k in dest
    requires forall k :: k in dest ==> dest[k] in rows' && rows'[dest[k]].remoteId == rows[k].remoteId
    requires forall k :: k in dest && rows[k].tombstone && rows[k].remoteId.Some? ==> rows'[dest[k]].tombstone
    requires forall j :: j in rows' && rows'[j].remoteId.Some? ==> exists k :: k in dest && dest[k] == j
    ensures Conserved(rows, rows')
  {
    forall id ensures |Holders(rows, id)| == |Holders(rows', id)| {
      ImageSize(Holders(rows, id), dest);
      assert Holders(rows', id) == set k | k in Holders(rows, id) :: dest[k];
    }
    forall id | Tombstoned(rows, id) ensures Tombstoned(rows', id) {
      var k :| k in rows && rows[k].remoteId == Some(id) && rows[k].tombstone;
      assert dest[k] in rows';
    }
  }

  /** Every row keeps its key, id and tombstone; rows without an id may come and go. */
  lemma SameKeysConserve(rows: Rows, rows': Rows)
    requires forall k :: k in rows && rows[k].remoteId.Some? ==>
               k in rows' && rows'[k].remoteId == rows[k].remoteId && (rows[k].tombstone ==> rows'[k].tombstone)
    requires forall k :: k in rows' && rows'[k].remoteId.Some? ==> k in rows && rows[k].remoteId == rows'[k].remoteId
    ensures Conserved(rows, rows')
  {
    forall id ensures Holders(rows, id) == Holders(rows', id) {
    }
    forall id | Tombstoned(rows, id) ensures Tombstoned(rows', id) {
      var k :| k in rows && rows[k].remoteId == Some(id) && rows[k].tombstone;
      assert rows'[k].tombstone;
    }
  }

  lemma RenamedIdentity(rows: Rows, from: Path, to: Path, rootDirty: bool, updateSynced: bool, mark: Path -> string,
                        k: Path)
    requires Injective(RenamedKeys(rows, from, to, mark)) && k in RenamedKeys(rows, from, to, mark)
    ensures var dest := RenamedKeys(rows, from, to, mark);
            var rows' := RenamedRows(rows, from, to, rootDirty, updateSynced, mark);
            && dest[k] in rows' && rows'[dest[k]].remoteId == rows[k].remoteId
            && (rows[k].tombstone ==> rows'[dest[k]].tombstone)
  {
    RenamedRowAt(rows, from, to, rootDirty, updateSynced, mark, k);
  }

  lemma RenameConserves(rows: Rows, from: Path, to: Path, rootDirty: bool, updateSynced: bool, mark: Path -> string)
    requires Injective(RenamedKeys(rows, from, to, mark))
    ensures Conserved(rows, RenamedRows(rows, from, to, rootDirty, updateSynced, mark))
  {
    var dest := RenamedKeys(rows, from, to, mark);
    var rows' := RenamedRows(rows, from, to, rootDirty, updateSynced, mark);
    forall k | k in dest
      ensures dest[k] in rows' && rows'[dest[k]].remoteId == rows[k].remoteId
      ensures rows[k].tombstone ==> rows'[dest[k]].tombstone
    {
      RenamedIdentity(rows, from, to, rootDirty, updateSynced, mark, k);
    }
    forall j | j in rows' ensures exists k :: k in dest && dest[k] == j {
      var k := RenamedRowFrom(rows, from, to, rootDirty, updateSynced, mark, j);
      assert k in dest && dest[k] == j;
    }
    RekeyingConserves(rows, rows', dest);
  }

  lemma ReplacingConserves(rows: Rows, p: Path, mark: string, row: Row)
    requires !Live(rows, p) && FreshGrave(rows, p, mark) && row.remoteId.None?
    ensures Conserved(rows, BuryTombstone(rows, p, mark)[p := row])
  {
    if p in rows {
      BuryingConserves(rows, p, mark, row);
    } else {
      SameKeysConserve(rows, rows[p := row]);
    }
  }

  lemma BuryingConserves(rows: Rows, p: Path, mark: string, row: Row)
    requires p in rows && rows[p].tombstone && FreshGrave(rows, p, mark) && row.remoteId.None?
    ensures Conserved(rows, BuryTombstone(rows, p, mark)[p := row])
  {
    var g, rows' := Grave(p, mark), BuryTombstone(rows, p, mark)[p := row];
    var dest := map k | k in rows :: if k == p then g else k;
    assert g != p;
    assert rows'[g] == Buried(p, rows[p]) && forall k :: k in rows && k != p ==> rows'[k] == rows[k];
    forall j | j in rows' && rows'[j].remoteId.Some? ensures exists k :: k in dest && dest[k] == j {
      var k := if j == g then p else j;
      assert k in dest && dest[k] == j;
    }
    RekeyingConserves(rows, rows', dest);
  }

  /** A write to this name finds a pending delete and replaces it. */
  predicate Overwrites(cfg: Config, w: World, p: Path) {
    && CheckMutation(cfg, p).None? && WayIsClear(w.disk, p)
    && p in w.db.rows && w.db.rows[p].tombstone && w.db.rows[p].remoteId.Some?
  }

  /** The calls that make the database forget an iCloud item: removing an empty folder iCloud
      does not have while rows below it still stand for iCloud items, and writing over the
      pending delete of a name. */
  ghost predicate Loses(cfg: Config, w: World, call: Call) {
    var rows, p := w.db.rows, call.path;
    match call
    case RmdirCall(_) =>
      && CheckMutation(cfg, p).None? && MayRmdir(Visible(w.disk), p) && p in rows && rows[p].remoteId.None?
      && exists k :: k in rows && Within(k, p) && rows[k].remoteId.Some?
    case WriteCall(_, _, _) => Overwrites(cfg, w, p)
    case TruncateCall(_, _) => Overwrites(cfg, w, p)
    case _ => false
  }

  ghost predicate SameIdentities(rows: Rows, rows': Rows) {
    && rows.Keys == rows'.Keys
    && forall k :: k in rows ==> rows'[k].remoteId == rows[k].remoteId && rows'[k].tombstone == rows[k].tombstone
  }

  lemma {:induction false} HydrateKeepsIdentities(w: World, p: Path, fetched: Option<Bytes>, attempts: nat)
    requires p in w.db.rows && w.db.rows[p].remoteId.Some?
    ensures SameIdentities(w.db.rows, Hydrate(w, p, fetched, attempts).world.db.rows)
    decreases attempts
  {
    if attempts > 0 {
      var o := FetchContent(w, p, fetched);
      assert SameIdentities(w.db.rows, o.world.db.rows);
      HydrateKeepsIdentities(o.world, p, fetched, attempts - 1);
    }
  }

  lemma EnsureContentKeepsIdentities(cfg: Config, w: World, p: Path, env: Env)
    requires p in w.db.rows
    ensures SameIdentities(w.db.rows, EnsureContent(cfg, w, p, env).world.db.rows)
  {
    if w.db.rows[p].remoteId.Some? {
      HydrateKeepsIdentities(w, p, env.fetched, MAX_HYDRATE_ATTEMPTS);
    }
  }

  lemma RecordingKeepsIdentities(w: World, p: Path, env: Env)
    requires Live(w.db.rows, p)
    ensures SameIdentities(w.db.rows, RecordContentChange(w, p, true, env).db.rows)
  {
  }

  lemma LiveChangeKeepsIdentities(cfg: Config, w: World, p: Path, env: Env, change: Disk -> Result<Disk>)
    requires Live(w.db.rows, p)
    ensures SameIdentities(w.db.rows, ChangeContent(cfg, w, p, env, change).world.db.rows)
  {
    var o := EnsureContent(cfg, w, p, env);
    EnsureContentKeepsIdentities(cfg, w, p, env);
    var d := change(o.world.disk);
    if d.Ok? {
      RecordingKeepsIdentities(o.world.(disk := d.value), p, env);
    }
  }

  /** A write to a live file keeps every identity. */
  lemma LiveChangeConserves(cfg: Config, w: World, p: Path, env: Env, change: Disk -> Result<Disk>)
    requires Live(w.db.rows, p)
    ensures Conserved(w.db.rows, ChangeContent(cfg, w, p, env, change).world.db.rows)
  {
    LiveChangeKeepsIdentities(cfg, w, p, env, change);
    SameKeysConserve(w.db.rows, ChangeContent(cfg, w, p, env, change).world.db.rows);
  }

  /** Where the mirror shows nothing, a file can be made exactly when no file is in the way. */
  lemma WriteMakesFile(w: World, p: Path, edit: Bytes -> Bytes, now: int)
    requires Coupled(w) && p in w.db.rows && !Live(w.db.rows, p) && !Reserved(p)
    ensures Rewrite(w.disk, p, edit, now).Ok? <==> WayIsClear(w.disk, p)
    ensures Rewrite(w.disk, p, edit, now).Ok? ==> IsFile(Rewrite(w.disk, p, edit, now).value, p)
  {
    assert p != ROOT && p !in w.disk;
    ClearWay(w.disk, p);
    if WayIsClear(w.disk, p) {
      MadeAbove(w.disk, p, p);
    }
  }

  /** A write to a name with no live file leaves the rows alone or makes a new row there. */
  lemma BlindRows(cfg: Config, w: World, p: Path, env: Env, change: Disk -> Result<Disk>, edit: Bytes -> Bytes)
    returns (row: Row)
    requires Coupled(w) && !Live(w.db.rows, p)
    requires forall d :: change(d) == Rewrite(d, p, edit, env.now)
    ensures var rows' := ChangeContent(cfg, w, p, env, change).world.db.rows;
            && row.remoteId.None? && (rows' == w.db.rows || rows' == w.db.rows[p := row])
            && (p in w.db.rows && w.db.rows[p].remoteId.Some? ==>
                  (rows' == w.db.rows[p := row] <==> Overwrites(cfg, w, p)))
  {
    var o := ChangeContent(cfg, w, p, env, change);
    if p in w.db.rows && CheckMutation(cfg, p).None? {
      WriteMakesFile(w, p, edit, env.now);
    }
    row := if p in o.world.db.rows && o.error.None? then o.world.db.rows[p] else LocalRow(p, File, 0);
    if p in w.db.rows && w.db.rows[p].remoteId.Some? {
      assert w.db.rows[p := row][p].remoteId.None?;
    }
  }

  /** So it replaces the row, identity included. */
  lemma BlindChange(cfg: Config, w: World, p: Path, env: Env, change: Disk -> Result<Disk>, edit: Bytes -> Bytes)
    requires Coupled(w) && !Live(w.db.rows, p)
    requires forall d :: change(d) == Rewrite(d, p, edit, env.now)
    ensures Conserved(w.db.rows, ChangeContent(cfg, w, p, env, change).world.db.rows) <==> !Overwrites(cfg, w, p)
  {
    var row := BlindRows(cfg, w, p, env, change, edit);
    var rows, rows' := w.db.rows, ChangeContent(cfg, w, p, env, change).world.db.rows;
    if Overwrites(cfg, w, p) {
      FewerHolders(rows, rows', rows[p].remoteId.value, p);
    } else {
      SameKeysConserve(rows, rows');
    }
  }

  lemma FewerHolders(rows: Rows, rows': Rows, id: string, k: Path)
    requires Holders(rows', id) <= Holders(rows, id) && k in Holders(rows, id) && k !in Holders(rows', id)
    ensures !Conserved(rows, rows')
  {
    assert Holders(rows', id) <= Holders(rows, id) - {k};
    SubsetCardinality(Holders(rows', id), Holders(rows, id) - {k});
    assert |Holders(rows, id)| != |Holders(rows', id)|;
  }

  lemma ForgettingConserves(db: Db, p: Path)
    requires Live(db.rows, p)
    ensures Conserved(db.rows, Forget(db, p).rows) <==>
              !(db.rows[p].remoteId.None? && IsDir(db.rows[p].kind)
                && exists k :: k in db.rows && Within(k, p) && db.rows[k].remoteId.Some?)
  {
    var rows, rows' := db.rows, Forget(db, p).rows;
    if db.rows[p].remoteId.None? && IsDir(db.rows[p].kind)
       && exists k :: k in rows && Within(k, p) && rows[k].remoteId.Some? {
      var k :| k in rows && Within(k, p) && rows[k].remoteId.Some?;
      FewerHolders(rows, rows', rows[k].remoteId.value, k);
    } else {
      SameKeysConserve(rows, rows');
    }
  }

  /** Exactly which calls conserve the identities of iCloud items. */
  lemma CallConserves(cfg: Config, w: World, call: Call, env: Env)
    requires Coupled(w) && FreshEnv(w, call, env)
    ensures Conserved(w.db.rows, Exec(cfg, w, call, env).world.db.rows) <==> !Loses(cfg, w, call)
  {
    var o := Exec(cfg, w, call, env);
    if OnLiveFile(w, call) {
      EveryCallRefines(cfg, w, call, env);
    }
    if o.world == w {
      SameKeysConserve(w.db.rows, w.db.rows);
    }
    match call
    case CreateCall(p) => AddingConserves(cfg, w, call, env);
    case MkdirCall(p) => AddingConserves(cfg, w, call, env);
    case WriteCall(p, offset, data) => ChangeConserves(cfg, w, call, env);
    case TruncateCall(p, len) => ChangeConserves(cfg, w, call, env);
    case SetMtimeCall(p, mtime) => SameKeysConserve(w.db.rows, o.world.db.rows);
    case UnlinkCall(p) => if o.error.None? { ForgettingConserves(w.db, p); }
    case RmdirCall(p) => RmdirConserves(cfg, w, p);
    case RenameCall(from, to) =>
      if o.error.None? && from != to {
        AcceptedRename(cfg, w, from, to, env);
        RenamedKeysDistinct(w.db.rows, from, to, env.mark);
        assert from in Subtree(w.db.rows, from);
        RenameConserves(w.db.rows, from, to, true, false, env.mark);
      }
  }

  lemma RmdirConserves(cfg: Config, w: World, p: Path)
    requires Coupled(w)
    ensures Conserved(w.db.rows, Rmdir(cfg, w, p).world.db.rows) <==> !Loses(cfg, w, RmdirCall(p))
  {
    SameKeysConserve(w.db.rows, w.db.rows);
    if CheckMutation(cfg, p).None? && p != ROOT {
      RmdirVerdict(cfg, w, p);
      CoupledAt(w, p);
      if Rmdir(cfg, w, p).error.None? {
        ForgettingConserves(w.db, p);
      }
    }
  }

  lemma AddingConserves(cfg: Config, w: World, call: Call, env: Env)
    requires Coupled(w) && FreshEnv(w, call, env) && (call.CreateCall? || call.MkdirCall?)
    ensures Conserved(w.db.rows, Exec(cfg, w, call, env).world.db.rows)
  {
    var o, p := Exec(cfg, w, call, env), call.path;
    EveryCallRefines(cfg, w, call, env);
    if o.error.None? {
      ReplacingConserves(w.db.rows, p, env.mark(p), o.world.db.rows[p]);
    } else {
      SameKeysConserve(w.db.rows, w.db.rows);
    }
  }

  lemma ChangeConserves(cfg: Config, w: World, call: Call, env: Env)
    requires Coupled(w) && FreshEnv(w, call, env) && (call.WriteCall? || call.TruncateCall?)
    ensures Conserved(w.db.rows, Exec(cfg, w, call, env).world.db.rows) <==> !Loses(cfg, w, call)
  {
    var p := call.path;
    if Live(w.db.rows, p) {
      match call
      case WriteCall(_, offset, data) =>
        LiveChangeConserves(cfg, w, p, env, (d: Disk) => WriteAt(d, p, offset, data, env.now));
      case TruncateCall(_, len) =>
        LiveChangeConserves(cfg, w, p, env, (d: Disk) => Files.Truncate(d, p, len, env.now));
    } else {
      match call
      case WriteCall(_, offset, data) =>
        BlindChange(cfg, w, p, env, (d: Disk) => WriteAt(d, p, offset, data, env.now),
                    (b: Bytes) => Overlay(b, offset, data));
      case TruncateCall(_, len) =>
        BlindChange(cfg, w, p, env, (d: Disk) => Files.Truncate(d, p, len, env.now), (b: Bytes) => Resized(b, len));
    }
  }

  // ---- runs ---------------------------------------------------------------------------------

  /** No step of the run removes a local-only folder that still hides iCloud items, or writes to a
      path over a pending delete. */
  ghost predicate LosesNothing(cfg: Config, w: World, steps: seq<Step>)
    requires Coupled(w) && IsRun(cfg, w, steps)
    decreases |steps|
  {
    steps != [] ==>
      && !Loses(cfg, w, steps[0].call)
      && (EveryCallRefines(cfg, w, steps[0].call, steps[0].env);
          LosesNothing(cfg, Exec(cfg, w, steps[0].call, steps[0].env).world, steps[1..]))
  }

  /** Over every such run the bag of remote ids never changes, and a tombstoned id stays
      tombstoned. */
  lemma {:induction false} EveryRunConserves(cfg: Config, w: World, steps: seq<Step>)
    requires Coupled(w) && IsRun(cfg, w, steps) && LosesNothing(cfg, w, steps)
    ensures Conserved(w.db.rows, After(cfg, w, steps).db.rows)
    decreases |steps|
  {
    if steps == [] {
      SameKeysConserve(w.db.rows, w.db.rows);
    } else {
      EveryCallRefines(cfg, w, steps[0].call, steps[0].env);
      CallConserves(cfg, w, steps[0].call, steps[0].env);
      EveryRunConserves(cfg, Exec(cfg, w, steps[0].call, steps[0].env).world, steps[1..]);
    }
  }

  // ---- the loss is real -----------------------------------------------------------------------

  /** A new folder into which a synced file was moved and then deleted: the delete has not
      reached iCloud yet. */
  const HIDDEN_DELETE: World :=
    World(Db(map[["d"] := LocalRow(["d"], Folder, 0),
                 ["d", "f"] := Row(File, ["d"], Some("F"), None, 0, 0, true, true, true, None, Some(["f"]))],
             [], map[]),
          map[ROOT := Dir, ["d"] := Dir])

  /** Removing that folder forgets the pending delete: the file stays on iCloud and the next
      listing brings it back. */
  lemma RemovingTheFolderForgetsTheDelete()
    ensures Coupled(HIDDEN_DELETE)
    ensures Rmdir(OPEN_CONFIG, HIDDEN_DELETE, ["d"]).error.None?
    ensures Tombstoned(HIDDEN_DELETE.db.rows, "F")
    ensures Rmdir(OPEN_CONFIG, HIDDEN_DELETE, ["d"]).world.db.rows == map[]
    ensures Loses(OPEN_CONFIG, HIDDEN_DELETE, RmdirCall(["d"]))
  {
    var w := HIDDEN_DELETE;
    var rows, d := w.db.rows, w.disk;
    assert Parent(["d"]) == ROOT;
    assert ["d", "f"] in rows && ["d"] in rows && ["d"] in d && ROOT in d;
    assert !Reserved(["d"]) by {
      assert "d"[0] != TRACKER_IGNORE[0];
    }
    assert Coupled(w);
    assert !HasChild(d, ["d"]);
    assert Within(["d", "f"], ["d"]) && Within(["d"], ["d"]);
  }

  /** A file deleted a moment ago: the delete has not reached iCloud yet. */
  const PENDING_DELETE: World :=
    World(Db(map[["f"] := Row(File, ROOT, Some("F"), None, 0, 0, true, true, true, None, Some(["f"]))], [], map[]),
          map[ROOT := Dir])

  /** A write to its name that was not preceded by a create forgets the pending delete. */
  lemma WritingForgetsTheDelete(env: Env)
    ensures Coupled(PENDING_DELETE) && Loses(OPEN_CONFIG, PENDING_DELETE, WriteCall(["f"], 0, [7]))
    ensures var o := Write(OPEN_CONFIG, PENDING_DELETE, ["f"], 0, [7], env);
            && o.error.None? && Tombstoned(PENDING_DELETE.db.rows, "F")
            && !Tombstoned(o.world.db.rows, "F") && Holders(o.world.db.rows, "F") == {}
  {
    var w := PENDING_DELETE;
    assert Parent(["f"]) == ROOT && ["f"] in w.db.rows && ROOT in w.disk;
    assert !Reserved(["f"]) by {
      assert "f"[0] != TRACKER_IGNORE[0];
    }
    assert Coupled(w);
    WriteMakesFile(w, ["f"], (b: Bytes) => Overlay(b, 0, [7]), env.now);
    assert w.db.rows[["f"]].remoteId == Some("F");
  }
}
