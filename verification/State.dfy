/** The sync state database.  Each method is one statement or one transaction of the
    original; its contract is the corresponding function of module `Tables`. */
module State {
  import opened Paths
  import opened Rekeying
  import opened Tables

  class SyncState {
    var rows: Rows
    var ops: seq<Op>
    var listings: map<Path, int>

    constructor ()
      ensures rows == map[] && ops == [] && listings == map[]
    {
      rows, ops, listings := map[], [], map[];
    }

    ghost function View(): Db
      reads this
    {
      Db(rows, ops, listings)
    }

    method UpsertEntry(path: Path, row: Row)
      modifies `rows
      ensures rows == old(rows)[path := row]
    {
      rows := rows[path := row];
    }

    method MarkHydrated(path: Path, size: nat, mtime: int)
      modifies `rows
      ensures rows == Tables.MarkHydrated(old(rows), path, size, mtime)
    {
      if path in rows {
        rows := rows[path := rows[path].(hydrated := true, size := size, mtime := mtime)];
      }
    }

    method MarkDirty(path: Path, size: Option<nat>, mtime: Option<int>, hydrated: Option<bool>)
      modifies `rows
      ensures rows == Tables.MarkDirty(old(rows), path, size, mtime, hydrated)
    {
      if path in rows {
        var r := rows[path].(dirty := true, tombstone := false);
        if size.Some? { r := r.(size := size.value); }
        if mtime.Some? { r := r.(mtime := mtime.value); }
        if hydrated.Some? { r := r.(hydrated := hydrated.value); }
        rows := rows[path := r];
      }
    }

    method MarkTombstone(path: Path)
      modifies `rows
      ensures rows == Tables.MarkTombstone(old(rows), path)
    {
      if path in rows {
        rows := rows[path := rows[path].(tombstone := true, dirty := true)];
      }
    }

    method MarkClean(path: Path, node: RemoteNode, now: int)
      modifies `rows, `ops
      ensures View() == Tables.MarkClean(old(View()), path, node, now)
    {
      if path in rows {
        rows := rows[path := CleanRow(path, rows[path], node, now)];
      }
      ops := KeepOps(ops, (o: Op) => !Mentions(o, path));
    }

    method MarkUploadedButDirty(path: Path, node: RemoteNode, now: int)
      modifies `rows
      ensures rows == Tables.MarkUploadedButDirty(old(rows), path, node, now)
    {
      if path in rows {
        rows := rows[path := rows[path].(remoteId := Some(node.id), etag := node.etag, lastSynced := Some(now),
                                         syncedPath := Some(path))];
      }
    }

    method RemoveEntry(path: Path)
      modifies `rows, `ops
      ensures View() == Tables.RemoveEntry(old(View()), path)
    {
      rows := rows - {path};
      ops := KeepOps(ops, (o: Op) => !Mentions(o, path));
    }

    method RemoveSubtree(path: Path)
      modifies this
      ensures View() == Tables.RemoveSubtree(old(View()), path)
    {
      rows := map k | k in rows && !Within(k, path) :: rows[k];
      ops := KeepOps(ops, (o: Op) => !MentionsBelow(o, path));
      listings := ForgetListings(listings, path);
    }

    method MarkSyncedSubtree(path: Path, now: int)
      modifies `rows
      ensures rows == Tables.MarkSyncedSubtree(old(rows), path, now)
    {
      rows := map k | k in rows :: if Within(k, path) then SyncedSubtreeRow(k, rows[k], path, now) else rows[k];
    }

    method ClearRemoteIdentity(path: Path)
      modifies `rows
      ensures rows == Tables.ClearRemoteIdentity(old(rows), path)
    {
      if path in rows {
        rows := rows[path := Detached(rows[path])];
      }
    }

    method QueueOp(kind: OpKind, path: Path, target: Option<Path>)
      modifies `ops
      ensures ops == Tables.QueueOp(old(ops), kind, path, target)
    {
      if kind == DeleteOp {
        if exists o :: o in ops && o.path == path && o.kind in {CreateOp, MkdirOp} {
          ops := KeepOps(ops, (o: Op) => o.path != path);
          return;
        }
      }
      if kind == UpdateOp {
        if exists o :: o in ops && o.path == path && o.kind in {CreateOp, UpdateOp} {
          return;
        }
      }
      ops := ops + [Op(kind, path, target)];
    }

    method MarkFolderListed(path: Path, at: int)
      modifies `listings
      ensures listings == old(listings)[path := at]
    {
      listings := listings[path := at];
    }

    method BuryTombstone(path: Path, mark: string)
      requires FreshGrave(rows, path, mark)
      modifies `rows
      ensures rows == Tables.BuryTombstone(old(rows), path, mark)
    {
      if path in rows && rows[path].tombstone {
        var r := rows[path];
        rows := rows - {path};
        rows := rows[Grave(path, mark) := Buried(path, r)];
      }
    }

    /** Clear the way at the destination: what iCloud has is buried, the rest dropped. */
    method Displace(to: Path, mark: Path -> string)
      requires FreshDestinations(rows, GraveKeys(rows, to, mark))
      modifies `rows
      ensures Rekeyed(old(rows), rows, Subtree(old(rows), to), GraveKeys(old(rows), to, mark),
                      BuriedRows(old(rows), to))
    {
      ghost var was := rows;
      ghost var dest, value := GraveKeys(was, to, mark), BuriedRows(was, to);
      var displaced := Subtree(rows, to);
      var todo := displaced;
      while todo != {}
        invariant todo <= displaced
        invariant Rekeyed(was, rows, displaced - todo, dest, value)
        decreases todo
      {
        var q :| q in todo;
        var r := rows[q];
        RekeyStep(was, rows, displaced - todo, dest, value, q);
        assert displaced - (todo - {q}) == displaced - todo + {q};
        rows := rows - {q};
        if r.remoteId.Some? {
          rows := rows[Grave(q, mark(q)) := Buried(q, r)];
        }
        todo := todo - {q};
      }
    }

    /** Re-key the rows of a fetched subtree, one UPDATE at a time. */
    method RekeySubtree(from: Path, to: Path, subtree: set<Path>, rootDirty: bool, updateSynced: bool)
      requires subtree <= rows.Keys && forall k :: k in subtree ==> Within(k, from)
      requires FreshDestinations(rows, RebasedKeys(subtree, from, to))
      modifies `rows
      ensures Rekeyed(old(rows), rows, subtree, RebasedKeys(subtree, from, to),
                      RebasedRows(old(rows), subtree, from, to, rootDirty, updateSynced))
    {
      ghost var was := rows;
      ghost var dest := RebasedKeys(subtree, from, to);
      ghost var value := RebasedRows(was, subtree, from, to, rootDirty, updateSynced);
      var todo := subtree;
      while todo != {}
        invariant todo <= subtree
        invariant Rekeyed(was, rows, subtree - todo, dest, value)
        decreases todo
      {
        var k :| k in todo;
        var r := rows[k];
        RekeyStep(was, rows, subtree - todo, dest, value, k);
        assert subtree - (todo - {k}) == subtree - todo + {k};
        var updated := Rebase(k, from, to);
        var dirty := if rootDirty && k == from then true else r.dirty;
        rows := rows - {k};
        rows := rows[updated := r.(parentPath := Parent(updated), dirty := dirty,
                                   syncedPath := RenamedSynced(r.syncedPath, from, to, updateSynced))];
        todo := todo - {k};
      }
    }

    /** Queued operations follow their paths. */
    method RetargetOps(from: Path, to: Path)
      modifies `ops
      ensures |ops| == |old(ops)|
      ensures forall i :: 0 <= i < |ops| ==> ops[i] == RenamedOp(old(ops)[i], from, to)
    {
      var i := 0;
      while i < |ops|
        invariant 0 <= i <= |ops| == |old(ops)|
        invariant forall j :: 0 <= j < i ==> ops[j] == RenamedOp(old(ops)[j], from, to)
        invariant forall j :: i <= j < |ops| ==> ops[j] == old(ops)[j]
      {
        var o := ops[i];
        if Within(o.path, from) {
          o := o.(path := Rebase(o.path, from, to));
        }
        if o.target.Some? && Within(o.target.value, from) {
          o := o.(target := Some(Rebase(o.target.value, from, to)));
        }
        ops := ops[i := o];
        i := i + 1;
      }
    }

    method MoveRows(from: Path, to: Path, rootDirty: bool, updateSynced: bool, mark: Path -> string)
      requires Apart(from, to) && FreshMarks(rows, from, to, mark)
      requires Injective(RenamedKeys(rows, from, to, mark))
      modifies `rows
      ensures rows == RenamedRows(old(rows), from, to, rootDirty, updateSynced, mark)
    {
      ghost var was := rows;
      var subtree := Subtree(rows, from);
      Displace(to, mark);
      ghost var cleared := rows;
      SubtreeAfterDisplacing(was, cleared, from, to, mark);
      RekeySubtree(from, to, subtree, rootDirty, updateSynced);
      RenamedInTwoSteps(was, cleared, rows, from, to, rootDirty, updateSynced, mark);
    }

    /** Move the subtree at `from` to `to`.  Rows at `to` that iCloud has are kept as
        pending deletes under a private key; the others are dropped. */
    method RenameTree(from: Path, to: Path, rootDirty: bool, updateSynced: bool, mark: Path -> string)
      requires Apart(from, to) && FreshMarks(rows, from, to, mark)
      modifies this
      ensures View() == Tables.RenameTree(old(View()), from, to, rootDirty, updateSynced, mark)
    {
      if Subtree(rows, from) == {} {
        return;
      }
      RenamedKeysDistinct(rows, from, to, mark);
      MoveRows(from, to, rootDirty, updateSynced, mark);
      RetargetOps(from, to);
      listings := ForgetListings(listings, from);
    }

    /** Move a locally changed subtree to `to` and detach it from iCloud.  Landing on another
        row violates the primary key and rolls everything back. */
    method DetachSubtreeAsConflict(from: Path, to: Path) returns (ok: bool)
      requires Apart(from, to) || from == to
      modifies `rows
      ensures ok <==> !Clash(old(rows), from, to)
      ensures rows == if ok then DetachedRows(old(rows), from, to) else old(rows)
    {
      var was := rows;
      var subtree := Subtree(rows, from);
      var todo := subtree;
      while todo != {}
        invariant todo <= subtree
        invariant from != to ==> Detaching(was, rows, subtree - todo, from, to)
        invariant from == to ==> DetachingInPlace(was, rows, todo, from)
        decreases todo
      {
        var k :| k in todo;
        var updated := Rebase(k, from, to);
        RebaseLands(k, from, to);
        if from != to {
          DetachStep(was, rows, subtree - todo, from, to, k);
          assert subtree - (todo - {k}) == subtree - todo + {k};
        }
        if updated != k && updated in rows {
          rows := was;
          return false;
        }
        var r := rows[k];
        rows := rows - {k};
        rows := rows[updated := Detached(r).(parentPath := Parent(updated))];
        todo := todo - {k};
      }
      if from == to {
        DetachedInPlace(was, rows, from);
      } else {
        assert subtree - todo == subtree;
        DetachedOneByOne(was, rows, from, to);
      }
      ok := true;
    }
  }
}
