/** A pass that finds only additions and in which no call fails: all of them arrive, each made once. */
module Additions {
  import opened Paths
  import opened Tables
  import opened Files
  import opened Policy
  import opened FsSpec
  import opened Cloud
  import opened Upload
  import opened Runs

  /** Only `p` and the folders above it changed. */
  ghost predicate OnlyAbove(s: Stand, s': Stand, p: Path) {
    forall k :: k in s.db.rows && !Within(p, k) ==> k in s'.db.rows && s'.db.rows[k] == s.db.rows[k]
  }

  lemma StartGrew(s: Stand)
    requires Additive(s)
    ensures Grew(s, s)
  {
  }

  lemma CreateArrives(s: Stand, s': Stand, p: Path, now: int, ok: bool)
    requires Additive(s) && p in Dirty(s.db.rows) && IsDir(s.db.rows[p].kind) && p != ROOT
    requires FolderId(s.db.rows, Parent(p)).Some? && CreateRun(s, s', p, now, ok)
    ensures ok && Additive(s') && Grew(s, s') && !s'.db.rows[p].dirty && OnlyAbove(s, s', p)
  {
    assert LocalOnly(s, p) && Sendable(s, p, [], s.disk);
    FindsNewItem(s, p, [], 0);
    var made := WithItem(s, Parent(p), Last(p), Folder, [], 0);
    var node :| Found(made, Parent(p), Last(p), node) && ok == node.Some? && s' == Adopted(made, p, node, false, now);
    SentStep(s, made, s', p, [], 0, node.value, now);
    CleanedAlone(s, s', p, node.value, now);
  }

  lemma CleanedAlone(s: Stand, s': Stand, p: Path, node: RemoteNode, now: int)
    requires p in s.db.rows && s'.db == MarkClean(s.db, p, node, now)
    ensures OnlyAbove(s, s', p)
  {
    assert Within(p, p);
  }

  lemma {:induction false} FolderArrives(s: Stand, s': Stand, p: Path, now: int, ok: bool)
    requires Additive(s) && p in Dirty(s.db.rows) && IsDir(s.db.rows[p].kind) && FolderRun(s, s', p, now, ok)
    ensures ok && Additive(s') && Grew(s, s') && !s'.db.rows[p].dirty && OnlyAbove(s, s', p)
    decreases |p|, 1
  {
    assert LocalOnly(s, p);
    var s1, known, id :| ParentRun(s, s1, p, now, known, id) && FolderRest(s1, s', p, s.db.rows[p], now, known, id, ok);
    ParentArrives(s, s1, p, now, known, id);
    assert !Within(Parent(p), p);
    CreateArrives(s1, s', p, now, ok);
    GrewTwice(s, s1, s');
    AboveTwice(s, s1, s', p);
  }

  lemma AboveTwice(s: Stand, s1: Stand, s': Stand, p: Path)
    requires OnlyAbove(s, s1, Parent(p)) && OnlyAbove(s1, s', p)
    ensures OnlyAbove(s, s', p)
  {
    forall k | k in s.db.rows && !Within(p, k) ensures !Within(Parent(p), k) {
      assert Within(Parent(p), k) ==> Within(p, k);
    }
  }

  lemma {:induction false} ParentArrives(s: Stand, s': Stand, p: Path, now: int, ok: bool, id: Option<string>)
    requires Additive(s) && p in Dirty(s.db.rows) && ParentRun(s, s', p, now, ok, id)
    ensures ok && id.Some? && Additive(s') && Grew(s, s') && OnlyAbove(s, s', Parent(p))
    decreases |p|, 0
  {
    assert LocalOnly(s, p);
    var f := Parent(p);
    StartGrew(s);
    if f != ROOT && s.db.rows[f].dirty {
      FolderArrives(s, s', f, now, ok);
      assert Linked(s'.db.rows, s'.items, f);
    }
  }

  lemma UploadArrives(s: Stand, s': Stand, p: Path, now: int, ok: bool)
    requires Additive(s) && p in Dirty(s.db.rows) && s.db.rows[p].kind == File && p != ROOT
    requires FolderId(s.db.rows, Parent(p)).Some? && IsFile(s.disk, p) && UploadRun(s, s', p, now, ok)
    ensures ok && Additive(s') && Grew(s, s') && !s'.db.rows[p].dirty
  {
    var data, mtime := s.disk[p].bytes, s.disk[p].mtime;
    assert Sendable(s, p, data, s.disk) && Sendable(s, p, data, s'.disk);
    FindsNewItem(s, p, data, mtime);
    var made := WithItem(s, Parent(p), Last(p), File, data, mtime);
    var node :| && Found(made, Parent(p), Last(p), node) && ok == node.Some?
                && s'.(disk := s.disk) == Adopted(made, p, node, false, now);
    SentStep(s, made, s', p, data, mtime, node.value, now);
  }

  lemma FileArrives(s: Stand, s': Stand, p: Path, now: int, ok: bool)
    requires Additive(s) && p in Dirty(s.db.rows) && !IsDir(s.db.rows[p].kind) && FileRun(s, s', p, now, ok)
    ensures ok && Additive(s') && Grew(s, s') && !s'.db.rows[p].dirty
  {
    assert LocalOnly(s, p);
    var s1, known, id :| ParentRun(s, s1, p, now, known, id) &&
      if !known || id.None? then ok == known && s' == s1
      else
        && p in s1.db.rows && FolderId(s1.db.rows, Parent(p)) == id
        && FileRest(s1, s', p, s.db.rows[p], now, ok);
    ParentArrives(s, s1, p, now, known, id);
    assert !Within(Parent(p), p);
    NewFileIsSent(s1, s', p, s.db.rows[p], now, ok);
    UploadArrives(s1, s', p, now, ok);
    GrewTwice(s, s1, s');
  }

  /** A new file is only uploaded: there is nothing to download, to move or to make room for. */
  lemma NewFileIsSent(s: Stand, s': Stand, p: Path, entry: Row, now: int, ok: bool)
    requires p != ROOT && p in s.db.rows && FolderId(s.db.rows, Parent(p)).Some? && IsFile(s.disk, p)
    requires entry.remoteId.None? && s.db.rows[p].hydrated && FileRest(s, s', p, entry, now, ok)
    ensures UploadRun(s, s', p, now, ok)
  {
    var s1, ready :| ReadyRun(s, s1, p, ready) && if ready then SendRun(s1, s', p, entry, now, ok) else !ok && s' == s1;
  }

  lemma EntryArrives(s: Stand, s': Stand, k: Path, now: int)
    requires Additive(s) && k in s.db.rows && EntryRun(s, s', k, now)
    ensures Additive(s') && Grew(s, s') && !s'.db.rows[k].dirty
  {
    StartGrew(s);
    if s.db.rows[k].dirty {
      assert LocalOnly(s, k);
      if IsDir(s.db.rows[k].kind) {
        var ok :| FolderRun(s, s', k, now, ok);
        FolderArrives(s, s', k, now, ok);
      } else {
        var ok :| FileRun(s, s', k, now, ok);
        FileArrives(s, s', k, now, ok);
      }
    }
  }

  ghost predicate AllIn(rows: Rows, order: seq<Path>) {
    forall k :: k in order ==> k in rows
  }

  ghost predicate AllClean(rows: Rows, order: seq<Path>) {
    forall k :: k in order ==> k in rows && !rows[k].dirty
  }

  lemma CleanLater(s: Stand, s': Stand, order: seq<Path>)
    requires Grew(s, s') && AllClean(s.db.rows, order)
    ensures AllClean(s'.db.rows, order)
  {
  }

  lemma OneMoreIn(rows: Rows, order: seq<Path>)
    requires order != []
    ensures var front, k := order[..|order| - 1], order[|order| - 1];
            && (AllIn(rows, order) <==> AllIn(rows, front) && k in rows)
            && (AllClean(rows, order) <==> AllClean(rows, front) && k in rows && !rows[k].dirty)
  {
    var front, k := order[..|order| - 1], order[|order| - 1];
    assert order == front + [k];
    assert forall j :: j in order <==> j in front || j == k;
  }

  lemma {:induction false} EntriesArrive(s: Stand, s': Stand, order: seq<Path>, now: int)
    requires Additive(s) && EntriesRun(s, s', order, now) && AllIn(s.db.rows, order)
    ensures Additive(s') && Grew(s, s') && AllClean(s'.db.rows, order)
    decreases |order|
  {
    StartGrew(s);
    if order != [] {
      var front, k := order[..|order| - 1], order[|order| - 1];
      var s1 :| EntriesRun(s, s1, front, now) && EntryRun(s1, s', k, now);
      OneMoreIn(s.db.rows, order);
      EntriesArrive(s, s1, front, now);
      ThenEntryArrives(s, s1, s', front, k, now);
      OneMoreIn(s'.db.rows, order);
    }
  }

  lemma ThenEntryArrives(s: Stand, s1: Stand, s': Stand, front: seq<Path>, k: Path, now: int)
    requires Additive(s1) && Grew(s, s1) && AllClean(s1.db.rows, front) && k in s.db.rows && EntryRun(s1, s', k, now)
    ensures Additive(s') && Grew(s, s') && AllClean(s'.db.rows, front) && k in s'.db.rows && !s'.db.rows[k].dirty
  {
    EntryArrives(s1, s', k, now);
    GrewTwice(s, s1, s');
    CleanLater(s1, s', front);
  }

  lemma FirstIsThere(order: seq<Path>)
    ensures order == [] || order[0] in order
  {
  }

  /** A purely additive pass, all inside the boundary, leaves no dirty row, every row linked to its
      item, and one creation per row that was dirty. */
  lemma AdditivePass(s: Stand, s': Stand, policy: SyncPolicy, permanently: bool, now: int)
    requires Additive(s) && PassRun(s, s', policy, permanently, now)
    requires forall k :: k in Dirty(s.db.rows) ==> Allows(policy, k)
    ensures Additive(s') && Grew(s, s') && Dirty(s'.db.rows) == {}
    ensures s'.nextId == s.nextId + |Dirty(s.db.rows)|
  {
    var mid, deletes, changes :|
      && DeepestFirst(deletes, PendingDeletes(s.db.rows, policy)) && DeletesRun(s, mid, deletes, permanently)
      && InTurn(mid.db.rows, changes, Changes(s.db.rows, policy)) && EntriesRun(mid, s', changes, now);
    forall k | k in s.db.rows
      ensures !s.db.rows[k].tombstone && (s.db.rows[k].dirty ==> s.db.rows[k].syncedPath.None?)
    {
      assert s.db.rows[k].dirty ==> LocalOnly(s, k);
    }
    assert PendingDeletes(s.db.rows, policy) == {};
    FirstIsThere(deletes);
    EntriesArrive(s, s', changes, now);
    assert Changes(s.db.rows, policy) == Dirty(s.db.rows);
    assert Dirty(s'.db.rows) <= Dirty(s.db.rows);
  }
}
