/** A later full scan: crawling again and applying what was found makes a clean cache agree with
    iCloud in every folder that was read. */
module Rescan {
  import opened Paths
  import opened Tables
  import opened Policy
  import opened FsSpec
  import opened Listing
  import opened Convergence
  import opened Crawl

  // ---- one item, seen from the whole cache ------------------------------------------------

  /** Following a clean item's move leaves rows elsewhere alone. */
  lemma MoveLeavesOthers(w: World, k: Path, t: Path, node: RemoteNode, env: RemoteEnv, u: Path)
    requires CleanCache(w.db.rows) && k in w.db.rows && Apart(k, t) && t != ROOT && t !in w.db.rows
    requires u in w.db.rows && !Within(u, k) && FreshMarks(w.db.rows, k, t, env.mark)
    ensures var a := RefreshClean(w, k, t, node, env);
            a.ok ==> u in a.world.db.rows && a.world.db.rows[u] == w.db.rows[u]
  {
    CleanMove(w.db.rows, k, t, env.mark);
    FollowedRows(w, k, t, node, env);
    AbsentPrefix(w.db.rows, u, t);
    var moved := RenamedRows(w.db.rows, k, t, false, true, env.mark);
    assert u in moved && moved[u] == w.db.rows[u];
    var a := RefreshClean(w, k, t, node, env);
    if a.ok {
      var r :| a.world.db.rows == moved[t := RefreshedRow(r, t, node, true)];
    }
  }

  /** A row that neither is the item's nor lies below it is left alone. */
  lemma OthersStay(w: World, p: Path, node: RemoteNode, env: RemoteEnv, u: Path)
    requires CleanCache(w.db.rows) && NotOntoHeld(w.db.rows, p, node)
    requires FreshFor(w, Target(p, node), node, env) && u in w.db.rows && u != Target(p, node)
    requires forall k :: k in w.db.rows && w.db.rows[k].remoteId == Some(node.id) ==> !Within(u, k)
    ensures var a := ApplyItem(w, Target(p, node), node, env);
            a.ok ==> u in a.world.db.rows && a.world.db.rows[u] == w.db.rows[u]
  {
    var t := Target(p, node);
    NothingToResolve(w, t, node, env);
    var known := FindById(w.db.rows, node.id, env);
    if known.Some? && known.value != t {
      MoveLeavesOthers(w, known.value, t, node, env, u);
    }
  }

  // ---- the items in order -------------------------------------------------------------------

  /** The row of the item says what iCloud said. */
  ghost predicate SettledAt(rows: Rows, item: Item) {
    item.0 in rows && Agrees(rows[item.0], item.0, item.1)
  }

  ghost predicate FirstSettled(rows: Rows, items: seq<Item>, n: nat)
    requires n <= |items|
  {
    forall j :: 0 <= j < n ==> SettledAt(rows, items[j])
  }

  /** An item's path ends in its name. */
  ghost predicate Named(items: seq<Item>) {
    forall i :: 0 <= i < |items| ==> items[i].0 == Parent(items[i].0) + [items[i].1.name]
  }

  /** Nothing applied so far lies at or below a row of the item whose turn it is. */
  lemma {:induction false} NotBelowNext(rows: Rows, items: seq<Item>, i: nat, j: nat, k: Path)
    requires j < i < |items| && DistinctItems(items) && ParentsFirst(items) && FirstSettled(rows, items, i)
    requires ROOT !in rows && k in rows && rows[k].remoteId == Some(items[i].1.id)
    ensures !Within(items[j].0, k)
    decreases j
  {
    var u := items[j].0;
    assert SettledAt(rows, items[j]);
    if Within(u, k) {
      assert k != u && Within(Parent(u), k);
      assert Known(Parent(u), items[..j]);
      var j' :| 0 <= j' < |items[..j]| && items[..j][j'].0 == Parent(u);
      NotBelowNext(rows, items, i, j', k);
    }
  }

  /** None of the items, when its turn comes, moves onto a path another row holds. */
  ghost predicate Undisplacing(w: World, items: seq<Item>, envs: seq<RemoteEnv>)
    requires |envs| == |items| && FreshItems(w, items, envs)
    decreases |items|
  {
    items == [] ||
    (NotOntoHeld(w.db.rows, Parent(items[0].0), items[0].1)
     && var a := ApplyItem(w, items[0].0, items[0].1, envs[0]);
        a.ok ==> Undisplacing(a.world, items[1..], envs[1..]))
  }

  lemma FolderThere(rows: Rows, items: seq<Item>, i: nat)
    requires i < |items| && ParentsFirst(items) && FirstSettled(rows, items, i)
    ensures HoldsFolder(rows, Parent(items[i].0))
  {
    var p := Parent(items[i].0);
    assert Known(p, items[..i]);
    if p != ROOT {
      var j :| 0 <= j < |items[..i]| && items[..i][j].0 == p;
      assert SettledAt(rows, items[j]);
    }
  }

  /** One more item is settled, and those before it stay so. */
  lemma NextSettles(w: World, items: seq<Item>, i: nat, env: RemoteEnv)
    requires i < |items| && DistinctItems(items) && ParentsFirst(items) && Named(items)
    requires CleanCache(w.db.rows) && FirstSettled(w.db.rows, items, i)
    requires FreshFor(w, items[i].0, items[i].1, env) && NotOntoHeld(w.db.rows, Parent(items[i].0), items[i].1)
    ensures var a := ApplyItem(w, items[i].0, items[i].1, env);
            a.ok ==> CleanCache(a.world.db.rows) && FirstSettled(a.world.db.rows, items, i + 1)
  {
    var (q, node) := items[i];
    FolderThere(w.db.rows, items, i);
    assert q == Target(Parent(q), node);
    ApplyProgress(w, Parent(q), node, env);
    var a := ApplyItem(w, q, node, env);
    if a.ok {
      assert Settled(a.world.db.rows, Parent(q), node);
      forall j | 0 <= j < i ensures SettledAt(a.world.db.rows, items[j]) {
        assert SettledAt(w.db.rows, items[j]);
        forall k | k in w.db.rows && w.db.rows[k].remoteId == Some(node.id) ensures !Within(items[j].0, k) {
          NotBelowNext(w.db.rows, items, i, j, k);
        }
        OthersStay(w, Parent(q), node, env, items[j].0);
      }
    }
  }

  lemma {:induction false} ItemsSettle(w: World, items: seq<Item>, i: nat, envs: seq<RemoteEnv>)
    requires i <= |items| == |envs| && DistinctItems(items) && ParentsFirst(items) && Named(items)
    requires CleanCache(w.db.rows) && FirstSettled(w.db.rows, items, i)
    requires FreshItems(w, items[i..], envs[i..]) && Undisplacing(w, items[i..], envs[i..])
    ensures var a := ApplyItems(w, items[i..], envs[i..]);
            a.ok ==> CleanCache(a.world.db.rows) && FirstSettled(a.world.db.rows, items, |items|)
    decreases |items| - i
  {
    if i < |items| {
      assert items[i..][0] == items[i] && envs[i..][0] == envs[i];
      assert items[i..][1..] == items[i + 1..] && envs[i..][1..] == envs[i + 1..];
      NextSettles(w, items, i, envs[i]);
      var a := ApplyItem(w, items[i].0, items[i].1, envs[i]);
      if a.ok {
        ItemsSettle(a.world, items, i + 1, envs);
      }
    }
  }

  // ---- the crawl's items are named ----------------------------------------------------------

  lemma {:induction false} HoldsNamed(t: RemoteTree, p: Path, q: Path, n: RemoteNode)
    requires Holds(t, p, q, n)
    ensures q == Parent(q) + [n.name]
    decreases t
  {
    var i :| 0 <= i < |t.children| && HoldsVia(t.children[i], p, q, n);
    var c := t.children[i];
    if !(q == p + [c.node.name] && n == c.node) {
      HoldsNamed(c, p + [c.node.name], q, n);
    }
  }

  lemma SnapshotNamed(root: RemoteTree, policy: SyncPolicy, s: Snapshot)
    requires IsSnapshot(root, policy, s)
    ensures Named(s.items)
  {
    forall i | 0 <= i < |s.items| ensures s.items[i].0 == Parent(s.items[i].0) + [s.items[i].1.name] {
      assert s.items[i] == (s.items[i].0, s.items[i].1);
      ShownIsFound(root, policy, s, s.items[i].0, s.items[i].1);
      HoldsNamed(root, ROOT, s.items[i].0, s.items[i].1);
    }
  }

  // ---- the sweep ----------------------------------------------------------------------------

  /** A row at or above a settled item has an id the crawl saw. */
  lemma {:induction false} AboveIsSeen(rows: Rows, s: Snapshot, j: nat, d: Path)
    requires j < |s.items| && ParentsFirst(s.items) && s.ids == IdsOf(s.items)
    requires ROOT !in rows && FirstSettled(rows, s.items, |s.items|) && d in rows && Within(s.items[j].0, d)
    ensures rows[d].remoteId.Some? && rows[d].remoteId.value in s.ids
    decreases j
  {
    var u := s.items[j].0;
    assert SettledAt(rows, s.items[j]);
    if d == u {
      assert s.items[j].1.id in IdsOf(s.items);
    } else {
      assert Within(Parent(u), d) && Known(Parent(u), s.items[..j]);
      var j' :| 0 <= j' < |s.items[..j]| && s.items[..j][j'].0 == Parent(u);
      AboveIsSeen(rows, s, j', d);
    }
  }

  /** The sweep leaves the settled rows as they are. */
  lemma SettledNotSwept(w: World, s: Snapshot, started: int, j: nat)
    requires CleanCache(w.db.rows) && ParentsFirst(s.items) && s.ids == IdsOf(s.items)
    requires FirstSettled(w.db.rows, s.items, |s.items|) && j < |s.items|
    ensures SettledAt(AfterSweep(w, s, started).db.rows, s.items[j])
  {
    var removed := DeadTombstones(w.db.rows, s) + Vanished(w.db.rows, s, started);
    assert SettledAt(w.db.rows, s.items[j]);
    forall d | d in removed ensures !Within(s.items[j].0, d) {
      if Within(s.items[j].0, d) {
        AboveIsSeen(w.db.rows, s, j, d);
      }
    }
  }

  /** What the sweep leaves in a folder that was read is an item of the crawl, or was uploaded
      while the crawl ran. */
  lemma LeftIsFound(w: World, s: Snapshot, started: int, k: Path)
    requires CleanCache(w.db.rows) && s.ids == IdsOf(s.items) && FirstSettled(w.db.rows, s.items, |s.items|)
    requires var rows' := AfterSweep(w, s, started).db.rows; k in rows' && rows'[k].parentPath in s.visited
    ensures AfterSweep(w, s, started).db.rows[k] == w.db.rows[k]
    ensures JustSynced(w.db.rows[k], started) || exists i :: 0 <= i < |s.items| && s.items[i].0 == k
  {
    assert Within(k, k) && !BelowAny(k, DeadTombstones(w.db.rows, s) + Vanished(w.db.rows, s, started));
    assert k !in Vanished(w.db.rows, s, started);
    if w.db.rows[k].remoteId.value in s.ids {
      var i :| 0 <= i < |s.items| && s.items[i].1.id == w.db.rows[k].remoteId.value;
      assert SettledAt(w.db.rows, s.items[i]);
    }
  }

  lemma ShownIsSettled(w: World, root: RemoteTree, policy: SyncPolicy, s: Snapshot, started: int, q: Path,
                       n: RemoteNode)
    requires CleanCache(w.db.rows) && IsSnapshot(root, policy, s) && FirstSettled(w.db.rows, s.items, |s.items|)
    requires Shown(root, policy, q, n)
    ensures SettledAt(AfterSweep(w, s, started).db.rows, (q, n))
  {
    ShownIsFound(root, policy, s, q, n);
    var i :| 0 <= i < |s.items| && s.items[i] == (q, n);
    SettledNotSwept(w, s, started, i);
  }

  lemma LeftIsShown(w: World, root: RemoteTree, policy: SyncPolicy, s: Snapshot, started: int, k: Path)
    requires CleanCache(w.db.rows) && IsSnapshot(root, policy, s) && FirstSettled(w.db.rows, s.items, |s.items|)
    requires var rows' := AfterSweep(w, s, started).db.rows; k in rows' && rows'[k].parentPath in s.visited
    ensures JustSynced(AfterSweep(w, s, started).db.rows[k], started) || exists n :: Shown(root, policy, k, n)
  {
    LeftIsFound(w, s, started, k);
    if i :| 0 <= i < |s.items| && s.items[i].0 == k {
      assert s.items[i] == (k, s.items[i].1);
      ShownIsFound(root, policy, s, k, s.items[i].1);
    }
  }

  /** The rows agree with what the boundary shows of iCloud: every item shown has a row that says
      what iCloud said, and in each folder that was read there is no other row, but for items
      uploaded while the crawl ran.  Folders that failed to list keep their rows. */
  ghost predicate InStep(rows: Rows, root: RemoteTree, policy: SyncPolicy, started: int) {
    && (forall q, n :: Shown(root, policy, q, n) ==> SettledAt(rows, (q, n)))
    && (forall k :: k in rows && rows[k].parentPath in Readable(root, ROOT, policy) ==>
          JustSynced(rows[k], started) || exists n :: Shown(root, policy, k, n))
  }

  lemma SweepBringsInStep(w: World, root: RemoteTree, policy: SyncPolicy, s: Snapshot, started: int)
    requires CleanCache(w.db.rows) && IsSnapshot(root, policy, s) && FirstSettled(w.db.rows, s.items, |s.items|)
    ensures InStep(AfterSweep(w, s, started).db.rows, root, policy, started)
  {
    var rows' := AfterSweep(w, s, started).db.rows;
    forall q, n | Shown(root, policy, q, n) ensures SettledAt(rows', (q, n)) {
      ShownIsSettled(w, root, policy, s, started, q, n);
    }
    forall k | k in rows' && rows'[k].parentPath in Readable(root, ROOT, policy)
      ensures JustSynced(rows'[k], started) || exists n :: Shown(root, policy, k, n)
    {
      LeftIsShown(w, root, policy, s, started, k);
    }
  }

  /** A successful full scan of a clean cache, whatever changed on iCloud since the last one, brings
      the rows in step with it, if no item moves onto a path another row holds. */
  lemma RescanConverges(w: World, root: RemoteTree, policy: SyncPolicy, s: Snapshot, started: int,
                        envs: seq<RemoteEnv>)
    requires CleanCache(w.db.rows) && IsSnapshot(root, policy, s) && DistinctItems(s.items) && |envs| == |s.items|
    requires FreshItems(w, s.items, envs) && Undisplacing(w, s.items, envs)
    ensures var a := ApplySnapshot(w, s, started, envs);
            a.ok ==> InStep(a.world.db.rows, root, policy, started)
  {
    SnapshotNamed(root, policy, s);
    assert s.items[0..] == s.items && envs[0..] == envs;
    ItemsSettle(w, s.items, 0, envs);
    var a := ApplyItems(w, s.items, envs);
    if a.ok {
      SweepBringsInStep(a.world, root, policy, s, started);
    }
  }
}
