/** The engine's side of learning what iCloud has: listing a folder and reconciling the
    answer, item by item, with the mirror and the database. */
module Remote {
  import opened Paths
  import opened Tables
  import opened Files
  import opened State
  import opened FsSpec
  import opened Listing
  import opened Policy
  import opened Crawl
  import M = Mirror

  lemma {:induction false} KeepTwice(ops: seq<Op>, f: Op -> bool, g: Op -> bool, h: Op -> bool)
    requires forall o :: h(o) <==> f(o) && g(o)
    ensures KeepOps(KeepOps(ops, f), g) == KeepOps(ops, h)
  {
    if ops != [] {
      KeepTwice(ops[1..], f, g, h);
      var kept, rest := KeepOps(ops, f), KeepOps(ops[1..], f);
      if f(ops[0]) {
        assert kept == [ops[0]] + rest && kept[0] == ops[0] && kept[1..] == rest;
      } else {
        assert kept == rest;
      }
    }
  }

  lemma {:induction false} KeepAll(ops: seq<Op>, f: Op -> bool)
    requires forall o :: f(o)
    ensures KeepOps(ops, f) == ops
  {
    if ops != [] {
      KeepAll(ops[1..], f);
    }
  }

  lemma SweptNothing(w: World)
    ensures Swept(w, {}) == w
  {
    KeepAll(w.db.ops, (o: Op) => !MentionsBelowAny(o, {}));
  }

  /** One more doomed item goes. */
  lemma SweepStep(w: World, done: set<Path>, d: Path)
    ensures var s := Swept(w, done);
            World(RemoveSubtree(s.db, d), RemoveTree(s.disk, d)) == Swept(w, done + {d})
  {
    var s, t := Swept(w, done), Swept(w, done + {d});
    BelowOneMore(done, d);
    KeepTwice(w.db.ops, (o: Op) => !MentionsBelowAny(o, done), (o: Op) => !MentionsBelow(o, d),
              (o: Op) => !MentionsBelowAny(o, done + {d}));
    assert RemoveSubtree(s.db, d).rows == t.db.rows;
    assert RemoveSubtree(s.db, d).listings == t.db.listings;
    assert RemoveTree(s.disk, d) == t.disk;
  }

  lemma BelowOneMore(done: set<Path>, d: Path)
    ensures forall k :: BelowAny(k, done + {d}) <==> BelowAny(k, done) || Within(k, d)
    ensures forall o :: MentionsBelowAny(o, done + {d}) <==> MentionsBelowAny(o, done) || MentionsBelow(o, d)
  {
    forall k ensures BelowAny(k, done + {d}) <==> BelowAny(k, done) || Within(k, d) {
      assert d in done + {d};
    }
    forall o ensures MentionsBelowAny(o, done + {d}) <==> MentionsBelowAny(o, done) || MentionsBelow(o, d) {
      assert d in done + {d};
    }
  }

  lemma NextItem(w: World, p: Path, answer: seq<RemoteNode>, envs: seq<RemoteEnv>, i: nat)
    requires |envs| == |answer| && i < |answer| && FreshAll(w, p, answer[i..], envs[i..])
    ensures var target := Join(p, answer[i].name);
            if target.None? then
              && FreshAll(w, p, answer[i + 1..], envs[i + 1..])
              && ApplyAll(w, p, answer[i..], envs[i..]) == ApplyAll(w, p, answer[i + 1..], envs[i + 1..])
            else
              && target.value != ROOT && FreshFor(w, target.value, answer[i], envs[i])
              && var a := ApplyItem(w, target.value, answer[i], envs[i]);
                 if a.ok then
                   && FreshAll(a.world, p, answer[i + 1..], envs[i + 1..])
                   && ApplyAll(w, p, answer[i..], envs[i..]) == ApplyAll(a.world, p, answer[i + 1..], envs[i + 1..])
                 else ApplyAll(w, p, answer[i..], envs[i..]) == a
  {
    assert answer[i..][1..] == answer[i + 1..] && envs[i..][1..] == envs[i + 1..];
    assert answer[i..][0] == answer[i] && envs[i..][0] == envs[i];
  }

  lemma SeenStep(p: Path, answer: seq<RemoteNode>, i: nat)
    requires i < |answer|
    ensures Seen(p, answer[..i + 1]) ==
            Seen(p, answer[..i]) + if Join(p, answer[i].name).Some? then {answer[i].id} else {}
  {
    var before, after := Seen(p, answer[..i]), Seen(p, answer[..i + 1]);
    forall id | id in before ensures id in after {
      var j :| 0 <= j < i && Join(p, answer[..i][j].name).Some? && answer[..i][j].id == id;
      assert answer[..i + 1][j].id == id;
    }
    forall id | id in after
      ensures id in before || (Join(p, answer[i].name).Some? && id == answer[i].id)
    {
      var j :| 0 <= j < i + 1 && Join(p, answer[..i + 1][j].name).Some? && answer[..i + 1][j].id == id;
      assert j < i ==> answer[..i][j].id == id;
    }
    assert answer[..i + 1][i] == answer[i];
  }

  lemma AfterOne(all: set<Path>, todo: set<Path>, k: Path)
    requires k in todo
    ensures all - (todo - {k}) == if k in all then all - todo + {k} else all - todo
  {
  }

  // ---- the sweep after a crawl, one row at a time ------------------------------------------

  lemma RemovalDb(w: World, removed: set<Path>, orphans: set<Path>, d: Path)
    ensures RemoveSubtree(SweptDb(w.db, removed, orphans), d) == SweptDb(w.db, removed + {d}, orphans)
  {
    var db, db' := SweptDb(w.db, removed, orphans), SweptDb(w.db, removed + {d}, orphans);
    BelowOneMore(removed, d);
    KeepTwice(w.db.ops, (o: Op) => !MentionsBelowAny(o, removed), (o: Op) => !MentionsBelow(o, d),
              (o: Op) => !MentionsBelowAny(o, removed + {d}));
    assert RemoveSubtree(db, d).rows == db'.rows;
    assert RemoveSubtree(db, d).listings == db'.listings;
  }

  /** A dead tombstone's row goes, a vanished one's file too. */
  lemma RemovalStep(w: World, dead: set<Path>, vanished: set<Path>, orphans: set<Path>, d: Path, fromDisk: bool)
    ensures var s := SweptRemote(w, dead, vanished, orphans);
            World(RemoveSubtree(s.db, d), if fromDisk then RemoveTree(s.disk, d) else s.disk) ==
            if fromDisk then SweptRemote(w, dead, vanished + {d}, orphans)
            else SweptRemote(w, dead + {d}, vanished, orphans)
  {
    RemovalDb(w, dead + vanished, orphans, d);
    if fromDisk {
      assert dead + vanished + {d} == dead + (vanished + {d});
      BelowOneMore(vanished, d);
      assert RemoveTree(SweptRemote(w, dead, vanished, orphans).disk, d) ==
             SweptRemote(w, dead, vanished + {d}, orphans).disk;
    } else {
      assert dead + vanished + {d} == dead + {d} + vanished;
    }
  }

  lemma OrphanStep(w: World, dead: set<Path>, vanished: set<Path>, orphans: set<Path>, d: Path)
    requires d !in orphans
    ensures var s := SweptRemote(w, dead, vanished, orphans);
            s.(db := s.db.(rows := ClearRemoteIdentity(s.db.rows, d))) == SweptRemote(w, dead, vanished, orphans + {d})
  {
    var s, t := SweptRemote(w, dead, vanished, orphans), SweptRemote(w, dead, vanished, orphans + {d});
    assert ClearRemoteIdentity(s.db.rows, d) == t.db.rows;
  }

  lemma SweptRemoteNothing(w: World)
    ensures SweptRemote(w, {}, {}, {}) == w
  {
    KeepAll(w.db.ops, (o: Op) => !MentionsBelowAny(o, {}));
    var none: set<Path> := {};
    assert none + none == none;
  }

  /** The search stops where it first can. */
  lemma LastIsUnique(w: World, p: Path, stamp: string, attempt: nat, last: nat)
    requires FirstStop(w, p, stamp, last) && last == LastAttempt(w, p, stamp) && 1 <= attempt <= last
    requires forall i :: 1 <= i < attempt ==> !Stops(w, p, stamp, i)
    ensures Stops(w, p, stamp, attempt) <==> attempt == last
    ensures attempt == last ==>
              ConflictPath(w, p, stamp) == if Candidate(p, stamp, attempt).None? then Fallback(p, stamp)
                                           else Candidate(p, stamp, attempt).value
  {
  }

  class Engine {
    const mirror: M.Mirror
    const state: SyncState
    const policy: SyncPolicy

    constructor (mirror: M.Mirror, state: SyncState, policy: SyncPolicy)
      ensures this.mirror == mirror && this.state == state && this.policy == policy
    {
      this.mirror, this.state, this.policy := mirror, state, policy;
    }

    ghost function Now(): World
      reads mirror, state
    {
      World(state.View(), mirror.disk)
    }

    /** Try names until one is free.  Ends because distinct names outnumber occupied ones. */
    method UniqueConflictPath(p: Path, stamp: string) returns (c: Path)
      ensures c == ConflictPath(Now(), p, stamp)
    {
      ghost var last := LastAttempt(Now(), p, stamp);
      var attempt := 1;
      while true
        invariant 1 <= attempt <= last
        invariant forall i :: 1 <= i < attempt ==> !Stops(Now(), p, stamp, i)
        decreases last - attempt
      {
        var candidate := Candidate(p, stamp, attempt);
        LastIsUnique(Now(), p, stamp, attempt, last);
        if candidate.None? { break; }
        if candidate.value !in mirror.disk && candidate.value !in state.rows {
          return candidate.value;
        }
        attempt := attempt + 1;
      }
      c := Fallback(p, stamp);
    }

    method QueueConflictCopies(children: seq<Path>)
      modifies state`ops
      ensures state.ops == old(state.ops) + CopyOps(children)
    {
      var i := 0;
      while i < |children|
        invariant 0 <= i <= |children|
        invariant state.ops == old(state.ops) + CopyOps(children[..i])
      {
        state.QueueOp(ConflictCopyOp, children[i], None);
        assert CopyOps(children[..i + 1]) == CopyOps(children[..i]) + [Op(ConflictCopyOp, children[i], None)];
        i := i + 1;
      }
      assert children[..i] == children;
    }

    /** Both sides changed: the local version moves aside and will upload as something new. */
    method ResolveConflict(p: Path, env: RemoteEnv) returns (ok: bool)
      requires p != ROOT
      modifies mirror, state
      ensures var a := Listing.ResolveConflict(old(Now()), p, env);
              ok == a.ok && state.View() == a.world.db && (ok ==> Now() == a.world)
    {
      ConflictPathIsBeside(Now(), p, env.stamp(p));
      var conflict := UniqueConflictPath(p, env.stamp(p));
      if p in mirror.disk {
        var error := mirror.Rename(p, conflict);
        if error.Some? { return false; }
      }
      ok := state.DetachSubtreeAsConflict(p, conflict);
      if ok {
        QueueConflictCopies(env.order(Subtree(state.rows, conflict)));
      }
    }

    method MaterializeRemoteEntry(path: Path, node: RemoteNode) returns (ok: bool)
      modifies mirror, state
      ensures var a := Materialize(old(Now()), path, node);
              ok == a.ok && state.View() == a.world.db && (ok ==> Now() == a.world)
    {
      var error;
      if IsDir(node.kind) {
        error := mirror.EnsureDir(path);
      } else {
        error := mirror.MaterializePlaceholder(path, node.size, node.modified);
      }
      if error.Some? { return false; }
      state.UpsertEntry(path, RemoteRow(path, node));
      ok := true;
    }

    method FollowRemoteMove(p: Path, path: Path, env: RemoteEnv) returns (ok: bool)
      requires p in state.rows && (Apart(p, path) ==> FreshMarks(state.rows, p, path, env.mark))
      modifies mirror, state
      ensures var a := FollowMove(old(Now()), p, path, env);
              ok == a.ok && state.View() == a.world.db && (ok ==> Now() == a.world)
    {
      ghost var w := Now();
      ghost var moved := if p in w.disk then RenameDisk(w.disk, p, path) else Ok(w.disk);
      if p in mirror.disk {
        var error := mirror.Rename(p, path);
        if error.Some? { return false; }
      }
      assert moved == Ok(mirror.disk) && state.View() == w.db;
      if !Apart(p, path) { return false; }
      state.RenameTree(p, path, false, true, env.mark);
      assert state.View() == RenameTree(w.db, p, path, false, true, env.mark);
      ok := true;
    }

    method UpdateCleanEntry(path: Path, entry: Row, node: RemoteNode, moved: bool) returns (ok: bool)
      modifies mirror, state
      ensures var a := UpdateClean(old(Now()), path, entry, node, moved);
              ok == a.ok && state.View() == a.world.db && (ok ==> Now() == a.world)
    {
      var error := None;
      if IsDir(node.kind) {
        error := mirror.EnsureDir(path);
      } else if ContentChanged(entry, node, moved) {
        error := mirror.MaterializePlaceholder(path, node.size, node.modified);
      }
      if error.Some? { return false; }
      state.UpsertEntry(path, RefreshedRow(entry, path, node, moved));
      ok := true;
    }

    /** A clean item was seen again, perhaps elsewhere, perhaps changed. */
    method RefreshCleanEntry(p: Path, path: Path, node: RemoteNode, env: RemoteEnv) returns (ok: bool)
      requires p in state.rows && (Apart(p, path) ==> FreshMarks(state.rows, p, path, env.mark))
      modifies mirror, state
      ensures var a := RefreshClean(old(Now()), p, path, node, env);
              ok == a.ok && state.View() == a.world.db && (ok ==> Now() == a.world)
    {
      var entry := state.rows[p];
      var moved := p != path;
      if moved {
        ok := FollowRemoteMove(p, path, env);
        if !ok { return; }
        if path in state.rows { entry := state.rows[path]; }
      }
      ok := UpdateCleanEntry(path, entry, node, moved);
    }

    /** Reconcile one item iCloud reported with what is stored locally. */
    method ApplyRemoteItem(path: Path, node: RemoteNode, env: RemoteEnv) returns (ok: bool)
      requires FreshFor(Now(), path, node, env) && ROOT !in state.rows && path != ROOT
      modifies mirror, state
      ensures var a := ApplyItem(old(Now()), path, node, env);
              ok == a.ok && state.View() == a.world.db && (ok ==> Now() == a.world)
    {
      var existing := FindById(state.rows, node.id, env);
      if existing.Some? && state.rows[existing.value].dirty && Conflicts(state.rows[existing.value], path, node) {
        ok := ResolveConflict(existing.value, env);
        if !ok { return; }
        existing := None;
      }
      if existing.None? {
        if path in state.rows && state.rows[path].dirty {
          ok := ResolveConflict(path, env);
          if !ok { return; }
        }
        ok := MaterializeRemoteEntry(path, node);
      } else if state.rows[existing.value].dirty {
        ok := true;
      } else {
        ok := RefreshCleanEntry(existing.value, path, node, env);
      }
    }

    /** The items in the order iCloud sent them. */
    method ApplyAnswer(p: Path, answer: seq<RemoteNode>, envs: seq<RemoteEnv>)
      returns (ok: bool, seen: set<string>)
      requires |envs| == |answer| && FreshAll(Now(), p, answer, envs) && ROOT !in state.rows
      modifies mirror, state
      ensures var a := ApplyAll(old(Now()), p, answer, envs);
              ok == a.ok && state.View() == a.world.db && (ok ==> Now() == a.world && seen == Seen(p, answer))
    {
      seen := {};
      var i := 0;
      while i < |answer|
        invariant 0 <= i <= |answer| && ROOT !in state.rows
        invariant seen == Seen(p, answer[..i])
        invariant FreshAll(Now(), p, answer[i..], envs[i..])
        invariant ApplyAll(Now(), p, answer[i..], envs[i..]) == ApplyAll(old(Now()), p, answer, envs)
      {
        ghost var w := Now();
        NextItem(w, p, answer, envs, i);
        SeenStep(p, answer, i);
        var target := Join(p, answer[i].name);
        if target.Some? {
          seen := seen + {answer[i].id};
          ok := ApplyRemoteItem(target.value, answer[i], envs[i]);
          if !ok { return; }
          ApplyKeepsRootFree(w, target.value, answer[i], envs[i]);
        }
        i := i + 1;
      }
      assert answer[..i] == answer;
      ok := true;
    }

    /** Direct children iCloud no longer lists go, with everything below them. */
    method Sweep(p: Path, seen: set<string>)
      modifies mirror, state
      ensures Now() == Swept(old(Now()), Doomed(old(state.rows), p, seen))
    {
      var rows := state.rows;
      var children := set k | k in rows && rows[k].parentPath == p;
      ghost var doomed := Doomed(rows, p, seen);
      var todo := children;
      SweptNothing(Now());
      assert doomed - todo == {};
      while todo != {}
        invariant todo <= children
        invariant Now() == Swept(old(Now()), doomed - todo)
        decreases todo
      {
        var k :| k in todo;
        var entry := rows[k];
        if entry.remoteId.None? || entry.remoteId.value in seen || entry.dirty {
          assert doomed - (todo - {k}) == doomed - todo;
        } else {
          SweepStep(old(Now()), doomed - todo, k);
          assert doomed - (todo - {k}) == doomed - todo + {k};
          mirror.RemoveTree(k);
          state.RemoveSubtree(k);
        }
        todo := todo - {k};
      }
      assert doomed - todo == doomed;
    }

    /** List the direct children of `p` from iCloud, at most once per refresh interval unless
        forced. */
    method ListDirectory(p: Path, req: Request, envs: seq<RemoteEnv>) returns (ok: bool)
      requires req.answer.Some? ==> |envs| == |req.answer.value| && FreshAll(Now(), p, req.answer.value, envs)
      requires ROOT !in state.rows
      modifies mirror, state
      ensures var a := Listing.ListDirectory(old(Now()), p, req, envs);
              ok == a.ok && state.View() == a.world.db && (ok ==> Now() == a.world)
    {
      if !req.force && p in state.listings && req.now - state.listings[p] < req.interval { return true; }
      if !req.force && req.failedRecently { return false; }
      if p != ROOT {
        if p !in state.rows { return true; }
        var entry := state.rows[p];
        if entry.tombstone || !IsDir(entry.kind) { return true; }
        if entry.remoteId.None? {
          state.MarkFolderListed(p, req.now);
          return true;
        }
      }
      if req.answer.None? { return false; }
      var seen;
      ok, seen := ApplyAnswer(p, req.answer.value, envs);
      if !ok { return; }
      Sweep(p, seen);
      state.MarkFolderListed(p, req.now);
    }

    // ---- full crawl -------------------------------------------------------------------

    method DiscoverChild(child: RemoteTree, p: Path, queue: Queue, items: seq<Item>, ids: set<string>)
      returns (queue': Queue, items': seq<Item>, ids': set<string>)
      requires ParentsFirst(items) && QueueKnown(queue, items) && Known(p, items) && ids == IdsOf(items)
      ensures ParentsFirst(items') && QueueKnown(queue', items') && Known(p, items') && ids' == IdsOf(items')
      ensures Advance(queue, items, queue', items', policy,
                      OfChild(child, p, policy), ReadableChild(child, p, policy), Size(child))
    {
      queue', items', ids' := queue, items, ids;
      var path := Join(p, child.node.name);
      if path.Some? {
        var item := (path.value, child.node);
        FoundOneMore(items, queue, p, item);
        IdsGrow(items, item);
        ChildAdvances(child, p, queue, items, policy);
        items', ids' := items + [item], ids + {child.node.id};
        if IsDir(child.node.kind) && ShouldDescend(policy, path.value) {
          queue' := queue + [(child, path.value)];
        }
      }
    }

    /** One folder's children join the items, its subfolders the queue. */
    method Discover(children: seq<RemoteTree>, p: Path, queue: Queue, items: seq<Item>, ids: set<string>)
      returns (queue': Queue, items': seq<Item>, ids': set<string>)
      requires ParentsFirst(items) && QueueKnown(queue, items) && Known(p, items) && ids == IdsOf(items)
      ensures ParentsFirst(items') && QueueKnown(queue', items') && ids' == IdsOf(items')
      ensures Advance(queue, items, queue', items', policy,
                      BelowThese(children, p, policy), ReadableThese(children, p, policy), SizeThese(children))
    {
      queue', items', ids' := queue, items, ids;
      var i := 0;
      while i < |children|
        invariant 0 <= i <= |children|
        invariant ParentsFirst(items') && QueueKnown(queue', items') && Known(p, items') && ids' == IdsOf(items')
        invariant Advance(queue, items, queue', items', policy, BelowThese(children[..i], p, policy),
                          ReadableThese(children[..i], p, policy), SizeThese(children[..i]))
      {
        ghost var queue1, items1 := queue', items';
        queue', items', ids' := DiscoverChild(children[i], p, queue', items', ids');
        AdvanceOneMore(queue, items, queue1, items1, queue', items', policy, p, children, i);
        i := i + 1;
      }
      assert children[..i] == children;
    }

    /** Breadth-first over the whole drive.  A folder that fails to list is skipped; `stop`
        may interrupt. */
    method CrawlRemote(root: RemoteTree, stop: nat -> bool) returns (found: Option<Snapshot>)
      ensures found.Some? ==> IsSnapshot(root, policy, found.value)
      ensures found.None? ==> exists folders: nat :: stop(folders)
    {
      var queue: Queue := [(root, ROOT)];
      var items: seq<Item>, ids: set<string>, visited: set<Path> := [], {}, {};
      var folders: nat := 0;
      while queue != []
        invariant ParentsFirst(items) && QueueKnown(queue, items) && ids == IdsOf(items)
        invariant Accounted(root, policy, queue, items, visited)
        decreases Work(queue)
      {
        var (folder, path) := queue[0];
        if stop(folders) { return None; }
        folders := folders + 1;
        QueueTail(queue, items);
        ghost var before, known := queue, items;
        queue := queue[1..];
        if folder.listed {
          queue, items, ids := Discover(folder.children, path, queue, items, ids);
          FolderRead(root, policy, before, known, queue, items, visited);
          visited := visited + {path};
        } else {
          FolderSkipped(root, policy, before, items, visited);
        }
      }
      assert multiset(items) + ToFind(queue, policy) == multiset(items);
      found := Some(Snapshot(items, ids, visited));
    }

    /** Judge every row the crawl did not come across. */
    method SweepRemote(s: Snapshot, started: int)
      modifies mirror, state
      ensures Now() == AfterSweep(old(Now()), s, started)
    {
      ghost var w := Now();
      var rows := state.rows;
      var todo := rows.Keys;
      ghost var dead, vanished, orphans := DeadTombstones(rows, s), Vanished(rows, s, started), Orphans(rows, s);
      SweptRemoteNothing(w);
      assert dead - todo == {} && vanished - todo == {} && orphans - todo == {};
      while todo != {}
        invariant todo <= rows.Keys
        invariant Now() == SweptRemote(w, dead - todo, vanished - todo, orphans - todo)
        decreases todo
      {
        var k :| k in todo;
        var entry := rows[k];
        AfterOne(dead, todo, k);
        AfterOne(vanished, todo, k);
        AfterOne(orphans, todo, k);
        if entry.remoteId.None? || entry.remoteId.value in s.ids || entry.parentPath !in s.visited {
        } else if entry.tombstone {
          RemovalStep(w, dead - todo, vanished - todo, orphans - todo, k, false);
          state.RemoveSubtree(k);
        } else if entry.dirty {
          OrphanStep(w, dead - todo, vanished - todo, orphans - todo, k);
          state.ClearRemoteIdentity(k);
        } else if !(entry.lastSynced.Some? && entry.lastSynced.value >= started) {
          RemovalStep(w, dead - todo, vanished - todo, orphans - todo, k, true);
          mirror.RemoveTree(k);
          state.RemoveSubtree(k);
        }
        todo := todo - {k};
      }
      assert dead - todo == dead && vanished - todo == vanished && orphans - todo == orphans;
    }

    method ApplyItems(items: seq<Item>, envs: seq<RemoteEnv>) returns (ok: bool)
      requires |envs| == |items| && FreshItems(Now(), items, envs) && ROOT !in state.rows
      requires forall i :: 0 <= i < |items| ==> items[i].0 != ROOT
      modifies mirror, state
      ensures var a := Crawl.ApplyItems(old(Now()), items, envs);
              ok == a.ok && state.View() == a.world.db && (ok ==> Now() == a.world)
    {
      var i := 0;
      while i < |items|
        invariant 0 <= i <= |items| && ROOT !in state.rows
        invariant FreshItems(Now(), items[i..], envs[i..])
        invariant Crawl.ApplyItems(Now(), items[i..], envs[i..]) == Crawl.ApplyItems(old(Now()), items, envs)
      {
        ghost var w := Now();
        assert items[i..][0] == items[i] && items[i..][1..] == items[i + 1..];
        assert envs[i..][0] == envs[i] && envs[i..][1..] == envs[i + 1..];
        ok := ApplyRemoteItem(items[i].0, items[i].1, envs[i]);
        if !ok { return; }
        ApplyKeepsRootFree(w, items[i].0, items[i].1, envs[i]);
        i := i + 1;
      }
      ok := true;
    }

    /** Reconcile the whole drive with what a crawl found. */
    method ApplySnapshot(s: Snapshot, started: int, envs: seq<RemoteEnv>) returns (ok: bool)
      requires |envs| == |s.items| && FreshItems(Now(), s.items, envs) && ROOT !in state.rows && ParentsFirst(s.items)
      modifies mirror, state
      ensures var a := Crawl.ApplySnapshot(old(Now()), s, started, envs);
              ok == a.ok && state.View() == a.world.db && (ok ==> Now() == a.world)
    {
      ok := ApplyItems(s.items, envs);
      if ok {
        SweepRemote(s, started);
      }
    }
  }
}
