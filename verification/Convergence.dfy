/** A successful listing makes the direct children of a folder agree with iCloud's answer,
    in whatever order the answer comes, and listing again changes nothing. */
module Convergence {
  import opened Paths
  import opened Rekeying
  import opened Tables
  import opened Files
  import opened Names
  import opened FsSpec
  import opened Listing
  import opened StateLaws

  /** Nothing to upload: every row is a clean copy of an iCloud item, in a folder that has a
      row too. */
  ghost predicate CleanCache(rows: Rows) {
    && ROOT !in rows
    && UniqueIds(rows) && ParentColumn(rows)
    && (forall k :: k in rows ==> !rows[k].dirty && !rows[k].tombstone && rows[k].remoteId.Some?)
    && (forall k :: k in rows && Parent(k) != ROOT ==> Parent(k) in rows)
  }

  /** iCloud knows every item at its own place: no row asks for a move. */
  ghost predicate AllSynced(rows: Rows) {
    forall k :: k in rows ==> rows[k].syncedPath == Some(k)
  }

  /** The row says what iCloud said. */
  ghost predicate Agrees(r: Row, path: Path, node: RemoteNode) {
    && r.kind == node.kind && r.remoteId == Some(node.id) && r.size == node.size && r.mtime == node.modified
    && r.etag == node.etag && r.syncedPath == Some(path) && r.parentPath == Parent(path)
    && !r.dirty && !r.tombstone && (IsDir(r.kind) ==> r.hydrated)
  }

  ghost predicate GoodAnswer(answer: seq<RemoteNode>) {
    && (forall i :: 0 <= i < |answer| ==> IsValidName(answer[i].name))
    && (forall i, j :: 0 <= i < j < |answer| ==> answer[i].name != answer[j].name && answer[i].id != answer[j].id)
  }

  function Target(p: Path, node: RemoteNode): Path {
    p + [node.name]
  }

  /** The item is not moving onto a path another row holds, nor into or above itself. */
  ghost predicate NotOntoHeld(rows: Rows, p: Path, node: RemoteNode) {
    forall k :: k in rows && rows[k].remoteId == Some(node.id) && k != Target(p, node) ==>
      Target(p, node) !in rows && Apart(k, Target(p, node))
  }

  ghost predicate HoldsFolder(rows: Rows, p: Path) {
    p == ROOT || p in rows
  }

  // ---- one item -----------------------------------------------------------------------

  lemma NothingBelowAbsent(rows: Rows, c: Path)
    requires CleanCache(rows) && c != ROOT && c !in rows
    ensures Subtree(rows, c) == {}
  {
    forall k | k in rows ensures !Within(k, c) {
      AbsentPrefix(rows, k, c);
    }
  }

  lemma {:induction false} AbsentPrefix(rows: Rows, k: Path, c: Path)
    requires CleanCache(rows) && c != ROOT && c !in rows && k in rows
    ensures !Within(k, c)
    decreases |k|
  {
    if Within(k, c) {
      assert k != c && Within(Parent(k), c) && Parent(k) != ROOT;
      AbsentPrefix(rows, Parent(k), c);
    }
  }

  /** `rename_tree` of a clean subtree to a free place. */
  lemma CleanMove(rows: Rows, k: Path, to: Path, mark: Path -> string)
    requires CleanCache(rows) && k in rows && Apart(k, to) && to != ROOT && to !in rows
    ensures FreshMarks(rows, k, to, mark) && Injective(RenamedKeys(rows, k, to, mark))
    ensures MovedClean(rows, RenamedRows(rows, k, to, false, true, mark), k, to)
  {
    NothingBelowAbsent(rows, to);
    assert forall q :: q in rows && Within(q, to) ==> q in Subtree(rows, to);
    assert GraveKeys(rows, to, mark) == map[];
    RenamedKeysDistinct(rows, k, to, mark);
    RenamedRowsAt(rows, k, to, false, true, mark);
    var rows' := RenamedRows(rows, k, to, false, true, mark);
    forall j
      ensures j in rows' <==> if Within(j, to) then Rebase(j, to, k) in rows else j in rows && !Within(j, k)
      ensures j in rows' ==>
                rows'[j] == if Within(j, to)
                            then RenamedRow(Rebase(j, to, k), rows[Rebase(j, to, k)], k, to, false, true)
                            else rows[j]
    {
      CleanMoveAt(rows, rows', k, to, mark, j);
    }
  }

  lemma CleanMoveAt(rows: Rows, rows': Rows, k: Path, to: Path, mark: Path -> string, j: Path)
    requires Apart(k, to) && forall q :: q in rows ==> !Within(q, to)
    requires forall q :: q in rows && Survives(q, rows[q], to) ==>
               RenamedKey(q, k, to, mark) in rows'
               && rows'[RenamedKey(q, k, to, mark)] == RenamedRow(q, rows[q], k, to, false, true)
    requires forall i :: i in rows' ==>
               exists q :: q in rows && Survives(q, rows[q], to) && RenamedKey(q, k, to, mark) == i
    ensures j in rows' <==> if Within(j, to) then Rebase(j, to, k) in rows else j in rows && !Within(j, k)
    ensures j in rows' ==>
              if Within(j, to) then rows'[j] == RenamedRow(Rebase(j, to, k), rows[Rebase(j, to, k)], k, to, false, true)
              else rows'[j] == rows[j]
  {
    if Within(j, to) {
      RebaseLands(j, to, k);
      assert Rebase(j, to, k) in rows ==> RenamedKey(Rebase(j, to, k), k, to, mark) == j;
    } else {
      assert j in rows && !Within(j, k) ==> RenamedKey(j, k, to, mark) == j;
    }
    if j in rows' {
      var q :| q in rows && Survives(q, rows[q], to) && RenamedKey(q, k, to, mark) == j;
      if Within(q, k) {
        RebaseLands(q, k, to);
      }
    }
  }

  /** What one applied item leaves true: it agrees, the cache is clean, and what held of the
      other items still holds. */
  ghost predicate Progress(rows: Rows, rows': Rows, p: Path, node: RemoteNode) {
    && CleanCache(rows') && HoldsFolder(rows', p) && Settled(rows', p, node) && (AllSynced(rows) ==> AllSynced(rows'))
    && forall n: RemoteNode :: n.name != node.name && n.id != node.id ==> Carried(rows, rows', p, n)
  }

  ghost predicate Settled(rows: Rows, p: Path, node: RemoteNode) {
    Target(p, node) in rows && Agrees(rows[Target(p, node)], Target(p, node), node)
  }

  ghost predicate Carried(rows: Rows, rows': Rows, p: Path, n: RemoteNode) {
    && (NotOntoHeld(rows, p, n) ==> NotOntoHeld(rows', p, n))
    && (Settled(rows, p, n) ==> Settled(rows', p, n))
  }

  lemma PlacedStaysClean(rows: Rows, t: Path, r: Row)
    requires CleanCache(rows) && t != ROOT && HoldsFolder(rows, Parent(t))
    requires !r.dirty && !r.tombstone && r.remoteId.Some? && r.parentPath == Parent(t)
    requires forall k :: k in rows && rows[k].remoteId == r.remoteId ==> k == t
    ensures CleanCache(rows[t := r])
  {
  }

  lemma PlacedCarries(rows: Rows, p: Path, node: RemoteNode, r: Row, n: RemoteNode)
    requires r.remoteId == Some(node.id) && n.name != node.name && n.id != node.id
    ensures Carried(rows, rows[Target(p, node) := r], p, n)
  {
    assert Last(Target(p, n)) == n.name && Last(Target(p, node)) == node.name;
  }

  lemma PlacedProgress(rows: Rows, p: Path, node: RemoteNode, r: Row)
    requires CleanCache(rows) && HoldsFolder(rows, p) && Agrees(r, Target(p, node), node)
    requires forall k :: k in rows && rows[k].remoteId == Some(node.id) ==> k == Target(p, node)
    ensures Progress(rows, rows[Target(p, node) := r], p, node)
  {
    var t := Target(p, node);
    assert Parent(t) == p && t != ROOT;
    PlacedStaysClean(rows, t, r);
    forall n: RemoteNode | n.name != node.name && n.id != node.id ensures Carried(rows, rows[t := r], p, n) {
      PlacedCarries(rows, p, node, r, n);
    }
  }

  lemma ProgressAfter(rows: Rows, mid: Rows, rows': Rows, p: Path, node: RemoteNode)
    requires Progress(mid, rows', p, node) && (AllSynced(rows) ==> AllSynced(mid))
    requires forall n: RemoteNode :: n.name != node.name && n.id != node.id ==> Carried(rows, mid, p, n)
    ensures Progress(rows, rows', p, node)
  {
    forall n: RemoteNode | n.name != node.name && n.id != node.id ensures Carried(rows, rows', p, n) {
      CarriedTwice(rows, mid, rows', p, n);
    }
  }

  lemma MovedProgress(rows: Rows, moved: Rows, k: Path, p: Path, node: RemoteNode, r: Row)
    requires CleanCache(rows) && HoldsFolder(rows, p) && NotOntoHeld(rows, p, node)
    requires k in rows && rows[k].remoteId == Some(node.id) && k != Target(p, node)
    requires MovedClean(rows, moved, k, Target(p, node))
    requires Agrees(r, Target(p, node), node)
    ensures Progress(rows, moved[Target(p, node) := r], p, node)
  {
    var t := Target(p, node);
    assert Parent(t) == p && t != ROOT;
    MovedStaysClean(rows, moved, k, t);
    assert t in moved && moved[t].remoteId == Some(node.id) by {
      RebaseLands(t, t, k);
    }
    PlacedProgress(moved, p, node, r);
    forall n: RemoteNode | n.name != node.name && n.id != node.id ensures Carried(rows, moved, p, n) {
      OthersUnmoved(rows, moved, k, p, node, n);
    }
    if AllSynced(rows) {
      MovedIsSynced(rows, moved, k, t);
    }
    ProgressAfter(rows, moved, moved[t := r], p, node);
  }

  /** Below a folder that moved on iCloud every row is known at its new place. */
  lemma MovedIsSynced(rows: Rows, moved: Rows, k: Path, t: Path)
    requires AllSynced(rows) && MovedClean(rows, moved, k, t)
    ensures AllSynced(moved)
  {
    forall j | j in moved ensures moved[j].syncedPath == Some(j) {
      if Within(j, t) {
        var i := Rebase(j, t, k);
        RebaseLands(j, t, k);
        SyncedPathFollows(rows[i].syncedPath, k, t);
        assert i == k + i[|k|..] && j == t + i[|k|..];
      }
    }
  }

  /** The shape of the rows after a clean move, as `CleanMove` states it. */
  ghost predicate MovedClean(rows: Rows, moved: Rows, k: Path, t: Path) {
    && (forall j :: j in moved <==> if Within(j, t) then Rebase(j, t, k) in rows else j in rows && !Within(j, k))
    && (forall j :: j in moved ==>
          if Within(j, t) then moved[j] == RenamedRow(Rebase(j, t, k), rows[Rebase(j, t, k)], k, t, false, true)
          else moved[j] == rows[j])
  }

  lemma MovedStaysClean(rows: Rows, moved: Rows, k: Path, t: Path)
    requires CleanCache(rows) && Apart(k, t) && t !in rows && t != ROOT && HoldsFolder(rows, Parent(t))
    requires MovedClean(rows, moved, k, t) && k in rows
    ensures CleanCache(moved) && HoldsFolder(moved, Parent(t))
  {
    forall j | j in moved
      ensures !moved[j].dirty && !moved[j].tombstone && moved[j].remoteId.Some? && moved[j].parentPath == Parent(j)
      ensures Parent(j) != ROOT ==> Parent(j) in moved
    {
      MovedRowClean(rows, moved, k, t, j);
    }
    forall i, j | i in moved && j in moved && moved[i].remoteId == moved[j].remoteId ensures i == j {
      if Within(i, t) { RebaseLands(i, t, k); }
      if Within(j, t) { RebaseLands(j, t, k); }
    }
    assert !Within(Parent(t), k) && !Within(Parent(t), t);
  }

  lemma MovedRowClean(rows: Rows, moved: Rows, k: Path, t: Path, j: Path)
    requires CleanCache(rows) && Apart(k, t) && t !in rows && t != ROOT && HoldsFolder(rows, Parent(t))
    requires MovedClean(rows, moved, k, t) && k in rows && j in moved
    ensures !moved[j].dirty && !moved[j].tombstone && moved[j].remoteId.Some? && moved[j].parentPath == Parent(j)
    ensures Parent(j) != ROOT ==> Parent(j) in moved
  {
    if j == t {
      RebaseLands(t, t, k);
      assert !Within(Parent(t), k) && !Within(Parent(t), t);
    } else if Within(j, t) {
      RebaseLands(j, t, k);
      RebaseParent(j, t, k);
      RebaseLands(Parent(j), t, k);
    } else {
      assert Within(j, Parent(j));
      assert !Within(Parent(j), k);
      AbsentPrefix(rows, j, t);
    }
  }

  /** Another item of the same folder is not under the moved one, before or after. */
  lemma OthersUnmoved(rows: Rows, moved: Rows, k: Path, p: Path, node: RemoteNode, n: RemoteNode)
    requires CleanCache(rows) && k in rows && rows[k].remoteId == Some(node.id)
    requires Apart(k, Target(p, node)) && MovedClean(rows, moved, k, Target(p, node))
    requires n.name != node.name && n.id != node.id
    ensures NotOntoHeld(rows, p, n) ==> NotOntoHeld(moved, p, n)
    ensures Target(p, n) in rows && rows[Target(p, n)].remoteId == Some(n.id) ==>
              Target(p, n) in moved && moved[Target(p, n)] == rows[Target(p, n)]
  {
    var t, u := Target(p, node), Target(p, n);
    assert Last(t) != Last(u) && Parent(t) == p && Parent(u) == p;
    Siblings(p, node.name, n.name);
    assert Within(u, k) ==> k == u || Within(p, k);
    assert Within(p, k) ==> Within(t, k);
    if NotOntoHeld(rows, p, n) {
      forall j | j in moved && moved[j].remoteId == Some(n.id) && j != u
        ensures u !in moved && Apart(j, u)
      {
        if Within(j, t) {
          RebaseLands(j, t, k);
          assert rows[Rebase(j, t, k)].remoteId == Some(n.id);
          ApartBelow(j, t, u);
        }
      }
    }
  }

  lemma Siblings(p: Path, a: string, b: string)
    requires a != b
    ensures Apart(p + [a], p + [b])
  {
    assert (p + [a])[|p|] != (p + [b])[|p|];
  }

  lemma RefreshedAgrees(r: Row, p: Path, node: RemoteNode, moved: bool)
    ensures Agrees(RemoteRow(Target(p, node), node), Target(p, node), node)
    ensures Agrees(RefreshedRow(r, Target(p, node), node, moved), Target(p, node), node)
  {
  }

  lemma CleanIsFresh(w: World, p: Path, node: RemoteNode, env: RemoteEnv)
    requires CleanCache(w.db.rows) && NotOntoHeld(w.db.rows, p, node)
    ensures FreshFor(w, Target(p, node), node, env)
  {
    var known := FindById(w.db.rows, node.id, env);
    if known.Some? && Apart(known.value, Target(p, node)) {
      CleanMove(w.db.rows, known.value, Target(p, node), env.mark);
    }
  }

  /** With nothing dirty an item is either new or seen again. */
  lemma NothingToResolve(w: World, path: Path, node: RemoteNode, env: RemoteEnv)
    requires FreshFor(w, path, node, env) && forall k :: k in w.db.rows ==> !w.db.rows[k].dirty
    ensures var known := FindById(w.db.rows, node.id, env);
            ApplyItem(w, path, node, env) ==
            if known.None? then Materialize(w, path, node) else RefreshClean(w, known.value, path, node, env)
  {
  }

  lemma NewProgress(w: World, p: Path, node: RemoteNode)
    requires CleanCache(w.db.rows) && HoldsFolder(w.db.rows, p)
    requires forall k :: k in w.db.rows ==> w.db.rows[k].remoteId != Some(node.id)
    ensures var a := Materialize(w, Target(p, node), node);
            a.ok ==> Progress(w.db.rows, a.world.db.rows, p, node)
  {
    RefreshedAgrees(RemoteRow(Target(p, node), node), p, node, false);
    PlacedProgress(w.db.rows, p, node, RemoteRow(Target(p, node), node));
  }

  lemma SeenAgainProgress(w: World, p: Path, node: RemoteNode)
    requires CleanCache(w.db.rows) && HoldsFolder(w.db.rows, p)
    requires Target(p, node) in w.db.rows && w.db.rows[Target(p, node)].remoteId == Some(node.id)
    ensures var a := UpdateClean(w, Target(p, node), w.db.rows[Target(p, node)], node, false);
            a.ok ==> Progress(w.db.rows, a.world.db.rows, p, node)
  {
    var t := Target(p, node);
    RefreshedAgrees(w.db.rows[t], p, node, false);
    PlacedProgress(w.db.rows, p, node, RefreshedRow(w.db.rows[t], t, node, false));
  }

  /** Applying one item of a clean cache. */
  lemma ApplyProgress(w: World, p: Path, node: RemoteNode, env: RemoteEnv)
    requires CleanCache(w.db.rows) && HoldsFolder(w.db.rows, p) && NotOntoHeld(w.db.rows, p, node)
    ensures FreshFor(w, Target(p, node), node, env)
    ensures var a := ApplyItem(w, Target(p, node), node, env);
            a.ok ==> Progress(w.db.rows, a.world.db.rows, p, node)
  {
    CleanIsFresh(w, p, node, env);
    var t := Target(p, node);
    NothingToResolve(w, t, node, env);
    var known := FindById(w.db.rows, node.id, env);
    if known.None? {
      NewProgress(w, p, node);
    } else if known.value == t {
      SeenAgainProgress(w, p, node);
    } else {
      FollowedProgress(w, known.value, p, node, env);
    }
  }

  lemma FollowedRows(w: World, k: Path, t: Path, node: RemoteNode, env: RemoteEnv)
    requires k in w.db.rows && Apart(k, t) && FreshMarks(w.db.rows, k, t, env.mark)
    requires Injective(RenamedKeys(w.db.rows, k, t, env.mark))
    ensures var a := RefreshClean(w, k, t, node, env);
            var moved := RenamedRows(w.db.rows, k, t, false, true, env.mark);
            a.ok ==> exists r :: a.world.db.rows == moved[t := RefreshedRow(r, t, node, true)]
  {
    assert k in Subtree(w.db.rows, k);
    var a := RefreshClean(w, k, t, node, env);
    var moved := RenamedRows(w.db.rows, k, t, false, true, env.mark);
    var r := if t in moved then moved[t] else w.db.rows[k];
    assert a.ok ==> a.world.db.rows == moved[t := RefreshedRow(r, t, node, true)];
  }

  lemma FollowedProgress(w: World, k: Path, p: Path, node: RemoteNode, env: RemoteEnv)
    requires CleanCache(w.db.rows) && HoldsFolder(w.db.rows, p) && NotOntoHeld(w.db.rows, p, node)
    requires k in w.db.rows && w.db.rows[k].remoteId == Some(node.id) && k != Target(p, node)
    requires FreshMarks(w.db.rows, k, Target(p, node), env.mark)
    ensures var a := RefreshClean(w, k, Target(p, node), node, env);
            a.ok ==> Progress(w.db.rows, a.world.db.rows, p, node)
  {
    var rows, t := w.db.rows, Target(p, node);
    CleanMove(rows, k, t, env.mark);
    var moved := RenamedRows(rows, k, t, false, true, env.mark);
    var a := RefreshClean(w, k, t, node, env);
    FollowedRows(w, k, t, node, env);
    if a.ok {
      var r :| a.world.db.rows == moved[t := RefreshedRow(r, t, node, true)];
      RefreshedAgrees(r, p, node, true);
      MovedProgress(rows, moved, k, p, node, RefreshedRow(r, t, node, true));
    }
  }

  // ---- the whole answer ---------------------------------------------------------------

  ghost predicate NoneOntoHeld(rows: Rows, p: Path, answer: seq<RemoteNode>) {
    forall i :: 0 <= i < |answer| ==> NotOntoHeld(rows, p, answer[i])
  }

  ghost predicate AllSettled(rows: Rows, p: Path, answer: seq<RemoteNode>) {
    forall i :: 0 <= i < |answer| ==> Settled(rows, p, answer[i])
  }

  /** An item that shares neither name nor id with the answer. */
  ghost predicate Unrelated(n: RemoteNode, answer: seq<RemoteNode>) {
    forall i :: 0 <= i < |answer| ==> n.name != answer[i].name && n.id != answer[i].id
  }

  /** The first item, then the rest. */
  lemma AnswerStep(w: World, p: Path, answer: seq<RemoteNode>, envs: seq<RemoteEnv>)
    requires answer != [] && |envs| == |answer| && IsValidName(answer[0].name)
    requires FreshFor(w, Target(p, answer[0]), answer[0], envs[0])
    requires var a := ApplyItem(w, Target(p, answer[0]), answer[0], envs[0]);
             a.ok ==> FreshAll(a.world, p, answer[1..], envs[1..])
    ensures FreshAll(w, p, answer, envs)
    ensures var a := ApplyItem(w, Target(p, answer[0]), answer[0], envs[0]);
            ApplyAll(w, p, answer, envs) == if a.ok then ApplyAll(a.world, p, answer[1..], envs[1..]) else a
  {
    assert Join(p, answer[0].name) == Some(Target(p, answer[0]));
  }

  lemma RestNotOntoHeld(rows: Rows, mid: Rows, p: Path, answer: seq<RemoteNode>)
    requires answer != [] && GoodAnswer(answer) && NoneOntoHeld(rows, p, answer) && Progress(rows, mid, p, answer[0])
    ensures GoodAnswer(answer[1..]) && NoneOntoHeld(mid, p, answer[1..])
  {
    forall i | 0 <= i < |answer[1..]| ensures NotOntoHeld(mid, p, answer[1..][i]) {
      assert answer[1..][i] == answer[i + 1];
      assert Carried(rows, mid, p, answer[i + 1]);
    }
  }

  /** What a whole answer leaves, and what it leaves alone. */
  ghost predicate Answered(rows: Rows, rows': Rows, p: Path, answer: seq<RemoteNode>) {
    && CleanCache(rows') && HoldsFolder(rows', p) && AllSettled(rows', p, answer)
    && (AllSynced(rows) ==> AllSynced(rows'))
    && forall n: RemoteNode :: Unrelated(n, answer) ==> Carried(rows, rows', p, n)
  }

  lemma {:induction false} AnswerSettles(w: World, p: Path, answer: seq<RemoteNode>, envs: seq<RemoteEnv>)
    requires CleanCache(w.db.rows) && HoldsFolder(w.db.rows, p) && |envs| == |answer|
    requires GoodAnswer(answer) && NoneOntoHeld(w.db.rows, p, answer)
    ensures FreshAll(w, p, answer, envs)
    ensures ApplyAll(w, p, answer, envs).ok ==>
              Answered(w.db.rows, ApplyAll(w, p, answer, envs).world.db.rows, p, answer)
    decreases |answer|
  {
    if answer != [] {
      ApplyProgress(w, p, answer[0], envs[0]);
      var a := ApplyItem(w, Target(p, answer[0]), answer[0], envs[0]);
      if a.ok {
        RestNotOntoHeld(w.db.rows, a.world.db.rows, p, answer);
        AnswerSettles(a.world, p, answer[1..], envs[1..]);
      }
      AnswerStep(w, p, answer, envs);
      if a.ok && ApplyAll(w, p, answer, envs).ok {
        SettledFirst(w.db.rows, a.world.db.rows, ApplyAll(w, p, answer, envs).world.db.rows, p, answer);
      }
    }
  }

  lemma SettledFirst(rows: Rows, mid: Rows, rows': Rows, p: Path, answer: seq<RemoteNode>)
    requires answer != [] && GoodAnswer(answer) && Progress(rows, mid, p, answer[0])
    requires AllSettled(rows', p, answer[1..])
    requires forall n: RemoteNode :: Unrelated(n, answer[1..]) ==> Carried(mid, rows', p, n)
    ensures AllSettled(rows', p, answer)
    ensures forall n: RemoteNode :: Unrelated(n, answer) ==> Carried(rows, rows', p, n)
  {
    assert Unrelated(answer[0], answer[1..]);
    assert Carried(mid, rows', p, answer[0]);
    forall i | 0 <= i < |answer| ensures Settled(rows', p, answer[i]) {
      assert i > 0 ==> answer[i] == answer[1..][i - 1];
    }
    forall n: RemoteNode | Unrelated(n, answer) ensures Carried(rows, rows', p, n) {
      assert Unrelated(n, answer[1..]) && n.name != answer[0].name;
      CarriedTwice(rows, mid, rows', p, n);
    }
  }

  lemma CarriedTwice(rows: Rows, mid: Rows, rows': Rows, p: Path, n: RemoteNode)
    requires Carried(rows, mid, p, n) && Carried(mid, rows', p, n)
    ensures Carried(rows, rows', p, n)
  {
  }

  // ---- the sweep ------------------------------------------------------------------------

  /** The direct children of `p` are the items of the answer, no more and no fewer, and each
      row says what iCloud said. */
  ghost predicate OneToOne(rows: Rows, p: Path, answer: seq<RemoteNode>) {
    && AllSettled(rows, p, answer)
    && (forall i, j :: 0 <= i < j < |answer| ==> Target(p, answer[i]) != Target(p, answer[j]))
    && (forall k :: k in rows && rows[k].parentPath == p ==> exists i :: 0 <= i < |answer| && k == Target(p, answer[i]))
  }

  /** What is directly in the folder and listed is not below anything doomed. */
  lemma ListedNotDoomed(rows: Rows, p: Path, seen: set<string>, k: Path)
    requires CleanCache(rows) && k in rows && Parent(k) == p && rows[k].remoteId.Some? && rows[k].remoteId.value in seen
    ensures !BelowAny(k, Doomed(rows, p, seen))
  {
    forall d | d in Doomed(rows, p, seen) ensures !Within(k, d) {
      assert d != ROOT && Parent(d) == p && k != ROOT;
      assert |d| == |p| + 1 && |k| == |p| + 1;
      assert Within(k, d) ==> k == d;
    }
  }

  lemma SeenIs(p: Path, answer: seq<RemoteNode>, i: nat)
    requires i < |answer| && GoodAnswer(answer)
    ensures answer[i].id in Seen(p, answer)
  {
    assert Join(p, answer[i].name).Some?;
  }

  /** A direct child the sweep leaves is one of the answer's items. */
  lemma LeftIsListed(rows: Rows, p: Path, answer: seq<RemoteNode>, k: Path)
    requires CleanCache(rows) && AllSettled(rows, p, answer)
    requires k in rows && rows[k].parentPath == p && !BelowAny(k, Doomed(rows, p, Seen(p, answer)))
    ensures exists i :: 0 <= i < |answer| && k == Target(p, answer[i])
  {
    assert Within(k, k) && k !in Doomed(rows, p, Seen(p, answer));
    var i :| 0 <= i < |answer| && answer[i].id == rows[k].remoteId.value;
    assert Settled(rows, p, answer[i]);
  }

  lemma SweepLeavesAnswer(w: World, p: Path, answer: seq<RemoteNode>)
    requires CleanCache(w.db.rows) && GoodAnswer(answer) && AllSettled(w.db.rows, p, answer)
    ensures OneToOne(Swept(w, Doomed(w.db.rows, p, Seen(p, answer))).db.rows, p, answer)
  {
    var rows, rows' := w.db.rows, Swept(w, Doomed(w.db.rows, p, Seen(p, answer))).db.rows;
    forall i | 0 <= i < |answer| ensures Settled(rows', p, answer[i]) {
      assert Settled(rows, p, answer[i]);
      SeenIs(p, answer, i);
      ListedNotDoomed(rows, p, Seen(p, answer), Target(p, answer[i]));
    }
    forall i, j | 0 <= i < j < |answer| ensures Target(p, answer[i]) != Target(p, answer[j]) {
      assert Last(Target(p, answer[i])) != Last(Target(p, answer[j]));
    }
    forall k | k in rows' && rows'[k].parentPath == p
      ensures exists i :: 0 <= i < |answer| && k == Target(p, answer[i])
    {
      LeftIsListed(rows, p, answer, k);
    }
  }

  /** A successful listing of a clean cache makes the folder agree with iCloud, whatever the
      order of the answer. */
  lemma ListingConverges(w: World, p: Path, req: Request, envs: seq<RemoteEnv>)
    requires CleanCache(w.db.rows) && Ponder(w.db, p, req) == Ask && req.answer.Some?
    requires GoodAnswer(req.answer.value) && NoneOntoHeld(w.db.rows, p, req.answer.value)
    requires |envs| == |req.answer.value|
    ensures FreshAll(w, p, req.answer.value, envs)
    ensures var a := ListDirectory(w, p, req, envs);
            a.ok ==>
              && OneToOne(a.world.db.rows, p, req.answer.value) && CleanCache(a.world.db.rows)
              && (AllSynced(w.db.rows) ==> AllSynced(a.world.db.rows))
  {
    AnswerSettles(w, p, req.answer.value, envs);
    var a := ApplyAll(w, p, req.answer.value, envs);
    if a.ok {
      SweepLeavesAnswer(a.world, p, req.answer.value);
      SweptStaysClean(a.world, Doomed(a.world.db.rows, p, Seen(p, req.answer.value)));
    }
  }

  lemma SweptStaysClean(w: World, doomed: set<Path>)
    requires CleanCache(w.db.rows)
    ensures CleanCache(Swept(w, doomed).db.rows)
  {
    var rows' := Swept(w, doomed).db.rows;
    forall k | k in rows' && Parent(k) != ROOT ensures Parent(k) in rows' {
      assert Within(k, Parent(k)) && forall d :: Within(Parent(k), d) ==> Within(k, d);
    }
  }

  // ---- listing again ----------------------------------------------------------------------

  lemma SettledItemStays(w: World, p: Path, node: RemoteNode, env: RemoteEnv)
    requires UniqueIds(w.db.rows) && Settled(w.db.rows, p, node)
    ensures FreshFor(w, Target(p, node), node, env)
    ensures ApplyItem(w, Target(p, node), node, env).world.db.rows == w.db.rows
  {
    var t := Target(p, node);
    assert FindById(w.db.rows, node.id, env) == Some(t);
    assert RefreshedRow(w.db.rows[t], t, node, false) == w.db.rows[t];
  }

  lemma {:induction false} SettledAnswerStays(w: World, p: Path, answer: seq<RemoteNode>, envs: seq<RemoteEnv>)
    requires UniqueIds(w.db.rows) && GoodAnswer(answer) && AllSettled(w.db.rows, p, answer) && |envs| == |answer|
    ensures FreshAll(w, p, answer, envs)
    ensures ApplyAll(w, p, answer, envs).world.db.rows == w.db.rows
    decreases |answer|
  {
    if answer != [] {
      assert Settled(w.db.rows, p, answer[0]);
      SettledItemStays(w, p, answer[0], envs[0]);
      var a := ApplyItem(w, Target(p, answer[0]), answer[0], envs[0]);
      assert forall i :: 0 <= i < |answer[1..]| ==> answer[1..][i] == answer[i + 1];
      if a.ok {
        SettledAnswerStays(a.world, p, answer[1..], envs[1..]);
      }
      AnswerStep(w, p, answer, envs);
    }
  }

  lemma NothingDoomed(w: World, p: Path, answer: seq<RemoteNode>)
    requires GoodAnswer(answer) && OneToOne(w.db.rows, p, answer)
    ensures Swept(w, Doomed(w.db.rows, p, Seen(p, answer))).db.rows == w.db.rows
  {
    var doomed := Doomed(w.db.rows, p, Seen(p, answer));
    forall k | k in w.db.rows && w.db.rows[k].parentPath == p ensures k !in doomed {
      var i :| 0 <= i < |answer| && k == Target(p, answer[i]);
      assert Settled(w.db.rows, p, answer[i]) && Join(p, answer[i].name).Some?;
    }
    assert doomed == {};
  }

  /** What a listing does to the rows. */
  lemma ListedRows(w: World, p: Path, req: Request, envs: seq<RemoteEnv>)
    requires req.answer.Some? ==> |envs| == |req.answer.value| && FreshAll(w, p, req.answer.value, envs)
    ensures ListDirectory(w, p, req, envs).world.db.rows ==
            if Ponder(w.db, p, req) != Ask || req.answer.None? then w.db.rows
            else
              var a := ApplyAll(w, p, req.answer.value, envs);
              if a.ok then Swept(a.world, Doomed(a.world.db.rows, p, Seen(p, req.answer.value))).db.rows
              else a.world.db.rows
  {
  }

  /** Once a folder agrees with iCloud, listing it again with the same answer changes no row,
      whatever happens on the way. */
  lemma RelistingChangesNothing(w: World, p: Path, req: Request, envs: seq<RemoteEnv>)
    requires UniqueIds(w.db.rows)
    requires req.answer.Some? ==>
               && |envs| == |req.answer.value| && GoodAnswer(req.answer.value)
               && OneToOne(w.db.rows, p, req.answer.value)
    ensures req.answer.Some? ==> FreshAll(w, p, req.answer.value, envs)
    ensures ListDirectory(w, p, req, envs).world.db.rows == w.db.rows
  {
    if req.answer.Some? {
      RelistedAnswer(w, p, req.answer.value, envs);
    }
    ListedRows(w, p, req, envs);
  }

  lemma RelistedAnswer(w: World, p: Path, answer: seq<RemoteNode>, envs: seq<RemoteEnv>)
    requires UniqueIds(w.db.rows) && |envs| == |answer| && GoodAnswer(answer) && OneToOne(w.db.rows, p, answer)
    ensures FreshAll(w, p, answer, envs)
    ensures var w1 := ApplyAll(w, p, answer, envs).world;
            w1.db.rows == w.db.rows && Swept(w1, Doomed(w1.db.rows, p, Seen(p, answer))).db.rows == w.db.rows
  {
    SettledAnswerStays(w, p, answer, envs);
    NothingDoomed(ApplyAll(w, p, answer, envs).world, p, answer);
  }

  /** Listing twice is the same as listing once. */
  lemma ListingTwice(w: World, p: Path, req: Request, envs: seq<RemoteEnv>, again: Request, envs': seq<RemoteEnv>)
    requires CleanCache(w.db.rows) && Ponder(w.db, p, req) == Ask && req.answer.Some?
    requires GoodAnswer(req.answer.value) && NoneOntoHeld(w.db.rows, p, req.answer.value)
    requires |envs| == |envs'| == |req.answer.value| && again.answer == req.answer
    ensures FreshAll(w, p, req.answer.value, envs)
    ensures var a := ListDirectory(w, p, req, envs);
            a.ok ==>
              && FreshAll(a.world, p, req.answer.value, envs')
              && ListDirectory(a.world, p, again, envs').world.db.rows == a.world.db.rows
  {
    ListingConverges(w, p, req, envs);
    var a := ListDirectory(w, p, req, envs);
    if a.ok {
      RelistingChangesNothing(a.world, p, again, envs');
    }
  }

  // ---- after an upload -----------------------------------------------------------------------

  /** The row of a file that reached iCloud says what iCloud said, since now, content and all. */
  lemma CleanedAgrees(r: Row, p: Path, node: RemoteNode, now: int)
    requires node.etag.Some? && r.kind == node.kind == File && r.parentPath == p
    ensures var r' := CleanRow(Target(p, node), r, node, now);
            Agrees(r', Target(p, node), node) && r'.lastSynced == Some(now) && r'.hydrated == r.hydrated
  {
  }

  /** So the next listing of the same record changes nothing, in the rows or in the mirror. */
  lemma UploadedThenListed(w: World, p: Path, node: RemoteNode, now: int, env: RemoteEnv)
    requires var t := Target(p, node);
             && t in w.db.rows && w.db.rows[t].kind == node.kind == File && w.db.rows[t].parentPath == p
    requires node.etag.Some? && UniqueIds(MarkClean(w.db, Target(p, node), node, now).rows)
    ensures var w1 := w.(db := MarkClean(w.db, Target(p, node), node, now));
            FreshFor(w1, Target(p, node), node, env) && ApplyItem(w1, Target(p, node), node, env) == Applied(w1, true)
  {
    var t, w1 := Target(p, node), w.(db := MarkClean(w.db, Target(p, node), node, now));
    CleanedAgrees(w.db.rows[t], p, node, now);
    assert w1.db.rows[t].remoteId == Some(node.id);
    assert FindById(w1.db.rows, node.id, env) == Some(t);
    assert RefreshedRow(w1.db.rows[t], t, node, false) == w1.db.rows[t];
    assert w1.db.rows[t := w1.db.rows[t]] == w1.db.rows;
  }

  // ---- content ----------------------------------------------------------------------------------

  /** A clean file that moved on iCloud, its size and time unchanged, takes its content along. */
  lemma MovedFileKeepsContent(w: World, k: Path, t: Path, node: RemoteNode, env: RemoteEnv)
    requires k in w.db.rows && w.db.rows[k].kind == node.kind == File && Apart(k, t) && k in w.disk
    requires FreshMarks(w.db.rows, k, t, env.mark) && RefreshClean(w, k, t, node, env).ok
    requires w.db.rows[k].size == node.size && w.db.rows[k].mtime == node.modified
    ensures var w' := RefreshClean(w, k, t, node, env).world;
            && t in w'.db.rows && w'.db.rows[t].hydrated == w.db.rows[k].hydrated
            && t in w'.disk && w'.disk[t] == w.disk[k]
  {
    var a := FollowMove(w, k, t, env);
    assert k in Subtree(w.db.rows, k);
    RenamedKeysDistinct(w.db.rows, k, t, env.mark);
    RenamedRowAt(w.db.rows, k, t, false, true, env.mark, k);
    RebaseLands(k, k, t);
    MovedFileIsThere(w.disk, k, t);
  }

  lemma MovedFileIsThere(d: Disk, k: Path, t: Path)
    requires k in d && Apart(k, t) && RenameDisk(d, k, t).Ok?
    ensures t in RenameDisk(d, k, t).value && RenameDisk(d, k, t).value[t] == d[k]
  {
    var d' := CreateDirAll(d, Parent(t)).value;
    MoveTreeAt(d', k, t);
    RebaseLands(t, t, k);
  }

  /** A clean file seen again in its place keeps its content exactly if its record is the one known:
      the same size, time and etag; else a placeholder of the new size takes its place. */
  lemma ContentKeptExactly(w: World, path: Path, node: RemoteNode)
    requires path in w.db.rows && node.kind == File && UpdateClean(w, path, w.db.rows[path], node, false).ok
    ensures var r, w' := w.db.rows[path], UpdateClean(w, path, w.db.rows[path], node, false).world;
            if r.size == node.size && r.mtime == node.modified && r.etag == node.etag then
              w'.disk == w.disk && w'.db.rows[path].hydrated == r.hydrated
            else
              && IsFile(w'.disk, path) && w'.disk[path].bytes == seq(node.size, _ => 0)
              && (w'.db.rows[path].hydrated <==> node.size == 0)
  {
  }

  /** A new item: a folder, or a sparse file of its size, whose row says what iCloud said and that its
      content is here only if there is none. */
  lemma NewItemIsPlaceholder(w: World, path: Path, node: RemoteNode)
    requires Materialize(w, path, node).ok
    ensures var w' := Materialize(w, path, node).world;
            && path in w'.db.rows && Agrees(w'.db.rows[path], path, node)
            && w'.db.rows == w.db.rows[path := w'.db.rows[path]]
            && w'.db.ops == w.db.ops && w'.db.listings == w.db.listings
            && (w'.db.rows[path].hydrated <==> IsDir(node.kind) || node.size == 0)
            && (!IsDir(node.kind) ==> IsFile(w'.disk, path) && w'.disk[path].bytes == seq(node.size, _ => 0))
            && (IsDir(node.kind) ==> IsFolder(w'.disk, path))
  {
    if IsDir(node.kind) {
      assert path[..|path|] == path;
    }
  }

  // ---- what a listing removes ---------------------------------------------------------------------

  /** Clean, on iCloud once, directly in the listed folder, and not in the answer. */
  predicate Unlisted(r: Row, p: Path, answer: seq<RemoteNode>) {
    && !r.dirty && r.remoteId.Some? && r.parentPath == p
    && forall i :: 0 <= i < |answer| && answer[i].id == r.remoteId.value ==> !IsValidName(answer[i].name)
  }

  /** A listing removes exactly the rows and files at or below such an item, with their operations, and
      changes nothing else of what there is after the items were applied. */
  lemma UnlistedAreRemoved(w: World, p: Path, answer: seq<RemoteNode>, k: Path)
    ensures var w' := Swept(w, Doomed(w.db.rows, p, Seen(p, answer)));
            var gone := exists d :: d in w.db.rows && Unlisted(w.db.rows[d], p, answer) && Within(k, d);
            && (k in w'.db.rows <==> k in w.db.rows && !gone) && (k in w'.db.rows ==> w'.db.rows[k] == w.db.rows[k])
            && (k in w'.disk <==> k in w.disk && !gone) && (k in w'.disk ==> w'.disk[k] == w.disk[k])
            && (k in w'.db.listings <==> k in w.db.listings && !gone)
  {
    var doomed := Doomed(w.db.rows, p, Seen(p, answer));
    forall d | d in w.db.rows ensures d in doomed <==> Unlisted(w.db.rows[d], p, answer) {
      assert forall i :: 0 <= i < |answer| ==> (Join(p, answer[i].name).Some? <==> IsValidName(answer[i].name));
    }
  }

  /** Content operations of what stays are kept, those of what goes are not. */
  lemma UnlistedOpsAreRemoved(w: World, doomed: set<Path>, q: Path)
    requires Untargeted(w.db.ops)
    ensures PendingContent(Swept(w, doomed).db.ops, q) <==> PendingContent(w.db.ops, q) && !BelowAny(q, doomed)
  {
    var ops := Swept(w, doomed).db.ops;
    if PendingContent(w.db.ops, q) && !BelowAny(q, doomed) {
      var o :| o in w.db.ops && o.path == q && o.kind in {CreateOp, UpdateOp, ConflictCopyOp};
      assert IsContentOp(o) && o in ops;
    }
  }

  // ---- when iCloud is asked --------------------------------------------------------------------------

  /** Forced, or not listed a moment ago. */
  predicate Due(db: Db, p: Path, req: Request) {
    req.force || p !in db.listings || db.listings[p] + req.interval <= req.now
  }

  predicate IsLiveFolder(db: Db, p: Path) {
    Live(db.rows, p) && IsDir(db.rows[p].kind)
  }

  /** iCloud is asked about a folder exactly when it can be: it is the root, or a live folder iCloud has;
      and, unless forced, it was not listed a moment ago and did not fail to.  A folder made here counts as
      listed. */
  lemma AskedExactly(db: Db, p: Path, req: Request)
    ensures Ponder(db, p, req) == Failing <==> Due(db, p, req) && !req.force && req.failedRecently
    ensures Ponder(db, p, req) == Ask <==>
              && Due(db, p, req) && (req.force || !req.failedRecently)
              && (p == ROOT || (IsLiveFolder(db, p) && db.rows[p].remoteId.Some?))
    ensures Ponder(db, p, req) == LocalFolder <==>
              && Due(db, p, req) && (req.force || !req.failedRecently)
              && p != ROOT && IsLiveFolder(db, p) && db.rows[p].remoteId.None?
  {
  }

  /** After a successful listing iCloud is not asked about the folder again until the interval is over,
      unless it has to be. */
  lemma ListedIsNotAskedAgain(w: World, p: Path, req: Request, envs: seq<RemoteEnv>, again: Request)
    requires req.answer.Some? ==> |envs| == |req.answer.value| && FreshAll(w, p, req.answer.value, envs)
    requires Ponder(w.db, p, req) in {Ask, LocalFolder} && ListDirectory(w, p, req, envs).ok
    requires !again.force && req.now <= again.now < req.now + again.interval
    ensures Ponder(ListDirectory(w, p, req, envs).world.db, p, again) == NothingToDo
  {
  }
}
