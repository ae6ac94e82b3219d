/** Crawling the whole drive: what a breadth-first crawl inside the boundary finds, and what
    the sweep after it may remove. */
module Crawl {
  import opened Paths
  import opened Tables
  import opened Names
  import opened Policy
  import opened FsSpec
  import opened Listing
  import opened Seqs

  /** A remote item with what asking for its children gives; `listed` is false when the call
      fails. */
  datatype RemoteTree = RemoteTree(node: RemoteNode, listed: bool, children: seq<RemoteTree>)

  type Item = (Path, RemoteNode)

  /** What a crawl found, and which folders it managed to read. */
  datatype Snapshot = Snapshot(items: seq<Item>, ids: set<string>, visited: set<Path>)

  predicate Enters(policy: SyncPolicy, path: Path, t: RemoteTree) {
    IsDir(t.node.kind) && ShouldDescend(policy, path)
  }

  // ---- what there is to find --------------------------------------------------------

  /** The items below folder `t` at `p`, each as often as the crawl should find it. */
  function Below(t: RemoteTree, p: Path, policy: SyncPolicy): multiset<Item>
    decreases t, 0
  {
    if t.listed then BelowThese(t.children, p, policy) else multiset{}
  }

  function BelowThese(ts: seq<RemoteTree>, p: Path, policy: SyncPolicy): multiset<Item>
    decreases ts, 0
  {
    if ts == [] then multiset{} else OfChild(ts[0], p, policy) + BelowThese(ts[1..], p, policy)
  }

  function OfChild(t: RemoteTree, p: Path, policy: SyncPolicy): multiset<Item>
    decreases t, 1
  {
    if !IsValidName(t.node.name) then multiset{}
    else
      var path := p + [t.node.name];
      multiset{(path, t.node)} + if Enters(policy, path, t) then Below(t, path, policy) else multiset{}
  }

  /** The folders that list successfully. */
  function Readable(t: RemoteTree, p: Path, policy: SyncPolicy): set<Path>
    decreases t, 0
  {
    if t.listed then {p} + ReadableThese(t.children, p, policy) else {}
  }

  function ReadableThese(ts: seq<RemoteTree>, p: Path, policy: SyncPolicy): set<Path>
    decreases ts, 0
  {
    if ts == [] then {} else ReadableChild(ts[0], p, policy) + ReadableThese(ts[1..], p, policy)
  }

  function ReadableChild(t: RemoteTree, p: Path, policy: SyncPolicy): set<Path>
    decreases t, 1
  {
    if IsValidName(t.node.name) && Enters(policy, p + [t.node.name], t)
    then Readable(t, p + [t.node.name], policy) else {}
  }

  /** Independently of any boundary: the item `n` is at `q` somewhere below `t` at `p`, every
      folder on the way lists and every name on the way is usable. */
  ghost predicate Holds(t: RemoteTree, p: Path, q: Path, n: RemoteNode)
    decreases t, 0
  {
    t.listed && exists i :: 0 <= i < |t.children| && HoldsVia(t.children[i], p, q, n)
  }

  ghost predicate HoldsVia(c: RemoteTree, p: Path, q: Path, n: RemoteNode)
    decreases c, 1
  {
    && IsValidName(c.node.name)
    && ((q == p + [c.node.name] && n == c.node) || (IsDir(c.node.kind) && Holds(c, p + [c.node.name], q, n)))
  }

  lemma {:induction false} HoldsBelow(t: RemoteTree, p: Path, q: Path, n: RemoteNode)
    requires Holds(t, p, q, n)
    ensures Within(q, p) && q != p && Within(Parent(q), p)
    decreases t
  {
    var i :| 0 <= i < |t.children| && HoldsVia(t.children[i], p, q, n);
    var c := t.children[i];
    if !(q == p + [c.node.name] && n == c.node) {
      HoldsBelow(c, p + [c.node.name], q, n);
      assert Within(Parent(q), p + [c.node.name]);
    }
  }

  /** Whoever enters a folder enters every folder above it. */
  lemma DescendsThroughAncestors(policy: SyncPolicy, folder: Path, above: Path)
    requires ShouldDescend(policy, folder) && Within(folder, above)
    ensures ShouldDescend(policy, above)
  {
    if policy.allow.Some? {
      var a :| a in policy.allow.value && (Within(folder, a) || Within(a, folder));
      assert if |a| <= |above| then Within(above, a) else Within(a, above);
    }
  }

  lemma {:induction false} InBelowThese(ts: seq<RemoteTree>, p: Path, policy: SyncPolicy, item: Item)
    ensures item in BelowThese(ts, p, policy) <==> exists i :: 0 <= i < |ts| && item in OfChild(ts[i], p, policy)
  {
    if ts != [] {
      InBelowThese(ts[1..], p, policy, item);
      if item in BelowThese(ts[1..], p, policy) {
        var i :| 0 <= i < |ts[1..]| && item in OfChild(ts[1..][i], p, policy);
        assert item in OfChild(ts[i + 1], p, policy);
      }
      if i :| 0 <= i < |ts| && item in OfChild(ts[i], p, policy) {
        assert i > 0 ==> ts[1..][i - 1] == ts[i];
      }
    }
  }

  /** Exactly the items are found that are held where the crawl reads: directly in the top
      folder, or in a folder the boundary lets it enter. */
  lemma {:induction false} FoundExactly(t: RemoteTree, p: Path, policy: SyncPolicy, q: Path, n: RemoteNode)
    ensures (q, n) in Below(t, p, policy) <==> Holds(t, p, q, n) && (Parent(q) == p || ShouldDescend(policy, Parent(q)))
    decreases t, 0
  {
    if t.listed {
      InBelowThese(t.children, p, policy, (q, n));
      if i :| 0 <= i < |t.children| && (q, n) in OfChild(t.children[i], p, policy) {
        FoundInChild(t.children[i], p, policy, q, n);
        assert HoldsVia(t.children[i], p, q, n);
      }
      if Holds(t, p, q, n) && (Parent(q) == p || ShouldDescend(policy, Parent(q))) {
        var i :| 0 <= i < |t.children| && HoldsVia(t.children[i], p, q, n);
        FoundInChild(t.children[i], p, policy, q, n);
      }
    }
  }

  lemma {:induction false} FoundInChild(c: RemoteTree, p: Path, policy: SyncPolicy, q: Path, n: RemoteNode)
    ensures (q, n) in OfChild(c, p, policy) <==>
              HoldsVia(c, p, q, n) && (Parent(q) == p || ShouldDescend(policy, Parent(q)))
    decreases c, 1
  {
    var path := p + [c.node.name];
    assert Parent(path) == p;
    FoundExactly(c, path, policy, q, n);
    if Holds(c, path, q, n) {
      HoldsBelow(c, path, q, n);
      if ShouldDescend(policy, Parent(q)) {
        DescendsThroughAncestors(policy, Parent(q), path);
      }
    }
  }

  /** Everything the allow-list admits is found, if the folders above it list and the names
      on the way are usable. */
  lemma AllowedIsFound(t: RemoteTree, p: Path, policy: SyncPolicy, q: Path, n: RemoteNode)
    requires Holds(t, p, q, n) && Allows(policy, q)
    ensures (q, n) in Below(t, p, policy)
  {
    AllowedIsReachable(policy, q, Parent(q));
    FoundExactly(t, p, policy, q, n);
  }

  // ---- the crawl's result ------------------------------------------------------------

  /** The folder at `p` is the top, or among the items. */
  ghost predicate Known(p: Path, items: seq<Item>) {
    p == ROOT || exists j :: 0 <= j < |items| && items[j].0 == p && IsDir(items[j].1.kind)
  }

  /** An item is found after the folder it is in. */
  ghost predicate ParentsFirst(items: seq<Item>) {
    forall i :: 0 <= i < |items| ==> items[i].0 != ROOT && Known(Parent(items[i].0), items[..i])
  }

  /** The crawl found everything there is to find, each item once, parents first. */
  ghost predicate IsSnapshot(root: RemoteTree, policy: SyncPolicy, s: Snapshot) {
    && multiset(s.items) == Below(root, ROOT, policy)
    && ParentsFirst(s.items)
    && s.ids == IdsOf(s.items)
    && s.visited == Readable(root, ROOT, policy)
  }

  function IdsOf(items: seq<Item>): set<string> {
    set i | 0 <= i < |items| :: items[i].1.id
  }

  /** Folders waiting to be read. */
  type Queue = seq<(RemoteTree, Path)>

  function ToFind(queue: Queue, policy: SyncPolicy): multiset<Item> {
    if queue == [] then multiset{} else Below(queue[0].0, queue[0].1, policy) + ToFind(queue[1..], policy)
  }

  function ToRead(queue: Queue, policy: SyncPolicy): set<Path> {
    if queue == [] then {} else Readable(queue[0].0, queue[0].1, policy) + ToRead(queue[1..], policy)
  }

  /** How many items there are, the top included. */
  function Size(t: RemoteTree): nat
    decreases t, 0
  {
    1 + SizeThese(t.children)
  }

  function SizeThese(ts: seq<RemoteTree>): nat
    decreases ts, 0
  {
    if ts == [] then 0 else Size(ts[0]) + SizeThese(ts[1..])
  }

  function Work(queue: Queue): nat {
    if queue == [] then 0 else Size(queue[0].0) + Work(queue[1..])
  }

  lemma {:induction false} QueueGrows(queue: Queue, entry: (RemoteTree, Path), policy: SyncPolicy)
    ensures ToFind(queue + [entry], policy) == ToFind(queue, policy) + Below(entry.0, entry.1, policy)
    ensures ToRead(queue + [entry], policy) == ToRead(queue, policy) + Readable(entry.0, entry.1, policy)
    ensures Work(queue + [entry]) == Work(queue) + Size(entry.0)
  {
    if queue != [] {
      QueueGrows(queue[1..], entry, policy);
      assert (queue + [entry])[1..] == queue[1..] + [entry];
    }
  }

  lemma Regroup<T>(a: multiset<T>, b: multiset<T>, c: multiset<T>)
    ensures a + (b + c) == a + b + c
  {
  }

  lemma {:induction false} BelowGrow(ts: seq<RemoteTree>, t: RemoteTree, p: Path, policy: SyncPolicy)
    ensures BelowThese(ts + [t], p, policy) == BelowThese(ts, p, policy) + OfChild(t, p, policy)
    decreases |ts|
  {
    if ts == [] {
      assert [] + [t] == [t] && [t][1..] == [];
      assert BelowThese([t], p, policy) == OfChild(t, p, policy) + BelowThese([], p, policy);
    } else {
      Tail(ts, [t]);
      BelowGrow(ts[1..], t, p, policy);
      Regroup(OfChild(ts[0], p, policy), BelowThese(ts[1..], p, policy), OfChild(t, p, policy));
    }
  }

  lemma {:induction false} ReadableGrow(ts: seq<RemoteTree>, t: RemoteTree, p: Path, policy: SyncPolicy)
    ensures ReadableThese(ts + [t], p, policy) == ReadableThese(ts, p, policy) + ReadableChild(t, p, policy)
    ensures SizeThese(ts + [t]) == SizeThese(ts) + Size(t)
    decreases |ts|
  {
    if ts == [] {
      assert [] + [t] == [t] && [t][1..] == [];
    } else {
      Tail(ts, [t]);
      ReadableGrow(ts[1..], t, p, policy);
    }
  }

  /** Between two states of the crawl, `found` and `read` were added to what is known or
      waiting, and at most `work` to what is left to do. */
  ghost predicate Advance(queue: Queue, items: seq<Item>, queue': Queue, items': seq<Item>, policy: SyncPolicy,
                          found: multiset<Item>, read: set<Path>, work: nat)
  {
    && multiset(items') + ToFind(queue', policy) == multiset(items) + ToFind(queue, policy) + found
    && ToRead(queue', policy) == ToRead(queue, policy) + read
    && Work(queue') <= Work(queue) + work
  }

  lemma AdvanceTwice(queue: Queue, items: seq<Item>, queue1: Queue, items1: seq<Item>, queue2: Queue, items2: seq<Item>,
                     policy: SyncPolicy, found1: multiset<Item>, read1: set<Path>, work1: nat,
                     found2: multiset<Item>, read2: set<Path>, work2: nat)
    requires Advance(queue, items, queue1, items1, policy, found1, read1, work1)
    requires Advance(queue1, items1, queue2, items2, policy, found2, read2, work2)
    ensures Advance(queue, items, queue2, items2, policy, found1 + found2, read1 + read2, work1 + work2)
  {
  }

  lemma AdvanceOneMore(queue: Queue, items: seq<Item>, queue1: Queue, items1: seq<Item>, queue2: Queue,
                       items2: seq<Item>,
                       policy: SyncPolicy, p: Path, children: seq<RemoteTree>, i: nat)
    requires i < |children|
    requires Advance(queue, items, queue1, items1, policy, BelowThese(children[..i], p, policy),
                     ReadableThese(children[..i], p, policy), SizeThese(children[..i]))
    requires Advance(queue1, items1, queue2, items2, policy, OfChild(children[i], p, policy),
                     ReadableChild(children[i], p, policy), Size(children[i]))
    ensures Advance(queue, items, queue2, items2, policy, BelowThese(children[..i + 1], p, policy),
                    ReadableThese(children[..i + 1], p, policy), SizeThese(children[..i + 1]))
  {
    AdvanceTwice(queue, items, queue1, items1, queue2, items2, policy,
                 BelowThese(children[..i], p, policy), ReadableThese(children[..i], p, policy),
                 SizeThese(children[..i]),
                 OfChild(children[i], p, policy), ReadableChild(children[i], p, policy), Size(children[i]));
    BelowGrow(children[..i], children[i], p, policy);
    ReadableGrow(children[..i], children[i], p, policy);
    assert children[..i + 1] == children[..i] + [children[i]];
  }

  /** Nothing is forgotten: what was found and what is still to be found is everything. */
  ghost predicate Accounted(root: RemoteTree, policy: SyncPolicy, queue: Queue, items: seq<Item>, visited: set<Path>) {
    && multiset(items) + ToFind(queue, policy) == Below(root, ROOT, policy)
    && visited + ToRead(queue, policy) == Readable(root, ROOT, policy)
  }

  lemma FolderRead(root: RemoteTree, policy: SyncPolicy, queue: Queue, items: seq<Item>, queue': Queue,
                   items': seq<Item>,
                   visited: set<Path>)
    requires queue != [] && queue[0].0.listed && Accounted(root, policy, queue, items, visited)
    requires Advance(queue[1..], items, queue', items', policy, BelowThese(queue[0].0.children, queue[0].1, policy),
                     ReadableThese(queue[0].0.children, queue[0].1, policy), SizeThese(queue[0].0.children))
    ensures Accounted(root, policy, queue', items', visited + {queue[0].1}) && Work(queue') < Work(queue)
  {
    Regroup(multiset(items), ToFind(queue[1..], policy), BelowThese(queue[0].0.children, queue[0].1, policy));
  }

  lemma FolderSkipped(root: RemoteTree, policy: SyncPolicy, queue: Queue, items: seq<Item>, visited: set<Path>)
    requires queue != [] && !queue[0].0.listed && Accounted(root, policy, queue, items, visited)
    ensures Accounted(root, policy, queue[1..], items, visited) && Work(queue[1..]) < Work(queue)
  {
  }

  lemma QueueTail(queue: Queue, items: seq<Item>)
    requires queue != [] && QueueKnown(queue, items)
    ensures QueueKnown(queue[1..], items) && Known(queue[0].1, items)
  {
    assert forall i :: 0 <= i < |queue[1..]| ==> queue[1..][i] == queue[i + 1];
  }

  /** The folders in the queue were found, or are the top. */
  ghost predicate QueueKnown(queue: Queue, items: seq<Item>) {
    forall i :: 0 <= i < |queue| ==> Known(queue[i].1, items)
  }

  lemma StaysKnown(p: Path, items: seq<Item>, item: Item)
    requires Known(p, items)
    ensures Known(p, items + [item])
  {
    if p != ROOT {
      var j :| 0 <= j < |items| && items[j].0 == p && IsDir(items[j].1.kind);
      assert (items + [item])[j] == items[j];
    }
  }

  lemma FoundOneMore(items: seq<Item>, queue: Queue, p: Path, item: Item)
    requires ParentsFirst(items) && QueueKnown(queue, items) && Known(p, items)
    requires item.0 != ROOT && Parent(item.0) == p
    ensures ParentsFirst(items + [item]) && QueueKnown(queue, items + [item]) && Known(p, items + [item])
    ensures IsDir(item.1.kind) ==> Known(item.0, items + [item])
  {
    var items' := items + [item];
    assert items'[|items|] == item;
    forall i | 0 <= i < |items'| ensures items'[i].0 != ROOT && Known(Parent(items'[i].0), items'[..i]) {
      assert items'[..i] == items[..i];
      assert items[..|items|] == items;
    }
    forall i | 0 <= i < |queue| ensures Known(queue[i].1, items') {
      StaysKnown(queue[i].1, items, item);
    }
    StaysKnown(p, items, item);
  }

  lemma IdsGrow(items: seq<Item>, item: Item)
    ensures IdsOf(items + [item]) == IdsOf(items) + {item.1.id}
    ensures multiset(items + [item]) == multiset(items) + multiset{item}
  {
    var items' := items + [item];
    assert items'[|items|] == item;
    forall id | id in IdsOf(items) ensures id in IdsOf(items') {
      var i :| 0 <= i < |items| && items[i].1.id == id;
      assert items'[i] == items[i];
    }
  }

  lemma ChildAdvances(child: RemoteTree, p: Path, queue: Queue, items: seq<Item>, policy: SyncPolicy)
    requires IsValidName(child.node.name)
    ensures var path := p + [child.node.name];
            var queue' := if Enters(policy, path, child) then queue + [(child, path)] else queue;
            Advance(queue, items, queue', items + [(path, child.node)], policy,
                    OfChild(child, p, policy), ReadableChild(child, p, policy), Size(child))
  {
    var path := p + [child.node.name];
    IdsGrow(items, (path, child.node));
    QueueGrows(queue, (child, path), policy);
  }

  // ---- applying what was found -----------------------------------------------------------

  ghost predicate FreshItems(w: World, items: seq<Item>, envs: seq<RemoteEnv>)
    requires |envs| == |items|
    decreases |items|
  {
    items == [] ||
    (FreshFor(w, items[0].0, items[0].1, envs[0])
     && var a := ApplyItem(w, items[0].0, items[0].1, envs[0]);
        a.ok ==> FreshItems(a.world, items[1..], envs[1..]))
  }

  /** The items one after the other, as they were found. */
  ghost function ApplyItems(w: World, items: seq<Item>, envs: seq<RemoteEnv>): Applied
    requires |envs| == |items| && FreshItems(w, items, envs)
    decreases |items|
  {
    if items == [] then Applied(w, true)
    else
      var a := ApplyItem(w, items[0].0, items[0].1, envs[0]);
      if !a.ok then a else ApplyItems(a.world, items[1..], envs[1..])
  }

  ghost predicate DistinctItems(items: seq<Item>) {
    forall i, j :: 0 <= i < j < |items| ==> items[i].0 != items[j].0 && items[i].1.id != items[j].1.id
  }

  /** No row is for one of the items, or in the way of one. */
  ghost predicate AllNew(rows: Rows, items: seq<Item>) {
    forall k, i :: k in rows && 0 <= i < |items| ==> k != items[i].0 && rows[k].remoteId != Some(items[i].1.id)
  }

  /** The rows are the old ones and one for each item, as iCloud describes it. */
  ghost predicate Added(rows: Rows, rows': Rows, items: seq<Item>) {
    && (forall k :: k in rows ==> k in rows' && rows'[k] == rows[k])
    && (forall i :: 0 <= i < |items| ==> items[i].0 in rows' && rows'[items[i].0] == RemoteRow(items[i].0, items[i].1))
    && (forall k :: k in rows' && k !in rows ==> exists i :: 0 <= i < |items| && k == items[i].0)
  }

  lemma NewItem(w: World, path: Path, node: RemoteNode, env: RemoteEnv)
    requires path !in w.db.rows && forall k :: k in w.db.rows ==> w.db.rows[k].remoteId != Some(node.id)
    ensures FreshFor(w, path, node, env) && ApplyItem(w, path, node, env) == Materialize(w, path, node)
  {
  }

  lemma AddedFirst(rows: Rows, rows': Rows, items: seq<Item>)
    requires items != [] && DistinctItems(items) && AllNew(rows, items)
    ensures var mid := rows[items[0].0 := RemoteRow(items[0].0, items[0].1)];
            && DistinctItems(items[1..]) && AllNew(mid, items[1..])
            && (Added(mid, rows', items[1..]) ==> Added(rows, rows', items))
  {
    var mid := rows[items[0].0 := RemoteRow(items[0].0, items[0].1)];
    assert forall i :: 0 <= i < |items[1..]| ==> items[1..][i] == items[i + 1];
    if Added(mid, rows', items[1..]) {
      forall i | 0 <= i < |items|
        ensures items[i].0 in rows' && rows'[items[i].0] == RemoteRow(items[i].0, items[i].1)
      {
        assert i > 0 ==> items[i] == items[1..][i - 1];
      }
      forall k | k in rows' && k !in rows ensures exists i :: 0 <= i < |items| && k == items[i].0 {
        if k in mid {
          assert k == items[0].0;
        } else {
          var i :| 0 <= i < |items[1..]| && k == items[1..][i].0;
          assert k == items[i + 1].0;
        }
      }
    }
  }

  lemma {:induction false} NewItemsAreAdded(w: World, items: seq<Item>, envs: seq<RemoteEnv>)
    requires |envs| == |items| && DistinctItems(items) && AllNew(w.db.rows, items)
    ensures FreshItems(w, items, envs)
    ensures var a := ApplyItems(w, items, envs); a.ok ==> Added(w.db.rows, a.world.db.rows, items)
    decreases |items|
  {
    if items != [] {
      NewItem(w, items[0].0, items[0].1, envs[0]);
      var a := Materialize(w, items[0].0, items[0].1);
      if a.ok {
        AddedFirst(w.db.rows, a.world.db.rows, items);
        NewItemsAreAdded(a.world, items[1..], envs[1..]);
        AddedFirst(w.db.rows, ApplyItems(a.world, items[1..], envs[1..]).world.db.rows, items);
      }
    }
  }

  // ---- the sweep ------------------------------------------------------------------------

  /** Rows iCloud had, directly in a folder that was read, whose id turned up nowhere. */
  function Gone(rows: Rows, s: Snapshot): set<Path> {
    set k | k in rows && rows[k].remoteId.Some? && rows[k].remoteId.value !in s.ids && rows[k].parentPath in s.visited
  }

  /** Changed here: kept to upload as something new. */
  predicate Orphaned(r: Row) {
    r.dirty && !r.tombstone
  }

  /** Uploaded while the crawl ran. */
  predicate JustSynced(r: Row, started: int) {
    r.lastSynced.Some? && r.lastSynced.value >= started
  }

  /** The pending delete has nothing left to do. */
  function DeadTombstones(rows: Rows, s: Snapshot): set<Path> {
    set k | k in Gone(rows, s) && rows[k].tombstone
  }

  function Vanished(rows: Rows, s: Snapshot, started: int): set<Path> {
    set k | k in Gone(rows, s) && !rows[k].tombstone && !rows[k].dirty && !JustSynced(rows[k], started)
  }

  function Orphans(rows: Rows, s: Snapshot): set<Path> {
    set k | k in Gone(rows, s) && Orphaned(rows[k])
  }

  /** Drop the rows of both kinds with what is below them, the mirror's copy of the vanished
      ones too, and detach the orphans. */
  function SweptRemote(w: World, dead: set<Path>, vanished: set<Path>, orphans: set<Path>): World {
    World(SweptDb(w.db, dead + vanished, orphans), map k | k in w.disk && !BelowAny(k, vanished) :: w.disk[k])
  }

  function SweptDb(db: Db, removed: set<Path>, orphans: set<Path>): Db {
    Db(map k | k in db.rows && !BelowAny(k, removed) :: if k in orphans then Detached(db.rows[k]) else db.rows[k],
       KeepOps(db.ops, (o: Op) => !MentionsBelowAny(o, removed)),
       map k | k in db.listings && !BelowAny(k, removed) :: db.listings[k])
  }

  function AfterSweep(w: World, s: Snapshot, started: int): World {
    SweptRemote(w, DeadTombstones(w.db.rows, s), Vanished(w.db.rows, s, started), Orphans(w.db.rows, s))
  }

  /** What the boundary shows of iCloud. */
  ghost predicate Shown(root: RemoteTree, policy: SyncPolicy, q: Path, n: RemoteNode) {
    Holds(root, ROOT, q, n) && (Parent(q) == ROOT || ShouldDescend(policy, Parent(q)))
  }

  lemma ShownIsFound(root: RemoteTree, policy: SyncPolicy, s: Snapshot, q: Path, n: RemoteNode)
    requires IsSnapshot(root, policy, s)
    ensures Shown(root, policy, q, n) <==> exists i :: 0 <= i < |s.items| && s.items[i] == (q, n)
  {
    FoundExactly(root, ROOT, policy, q, n);
    assert (q, n) in multiset(s.items) <==> (q, n) in s.items;
  }

  /** The snapshot has exactly the ids of what the boundary shows, stubs outside the allow-list
      and denied items included. */
  lemma IdsAreShown(root: RemoteTree, policy: SyncPolicy, s: Snapshot, id: string)
    requires IsSnapshot(root, policy, s)
    ensures id in s.ids <==> exists q, n :: Shown(root, policy, q, n) && n.id == id
  {
    if id in s.ids {
      var i :| 0 <= i < |s.items| && s.items[i].1.id == id;
      assert s.items[i] == (s.items[i].0, s.items[i].1);
      ShownIsFound(root, policy, s, s.items[i].0, s.items[i].1);
    }
    forall q, n | Shown(root, policy, q, n) ensures n.id in s.ids {
      ShownIsFound(root, policy, s, q, n);
    }
  }

  /** An allowed item that is still in place is shown, so its id is in the snapshot. */
  lemma StillThere(root: RemoteTree, policy: SyncPolicy, s: Snapshot, q: Path, n: RemoteNode)
    requires IsSnapshot(root, policy, s) && Holds(root, ROOT, q, n) && Allows(policy, q)
    ensures Shown(root, policy, q, n) && n.id in s.ids
  {
    AllowedIsReachable(policy, q, Parent(q));
    assert Shown(root, policy, q, n);
    IdsAreShown(root, policy, s, n.id);
  }

  /** A row the sweep removed is, or is below, a row directly in a folder that was read, whose
      id is nowhere in the crawl, so that the boundary shows its item nowhere, and that is a
      pending delete, or unchanged and not synced since the crawl began. */
  lemma SweepIsSafe(w: World, root: RemoteTree, policy: SyncPolicy, s: Snapshot, started: int, k: Path)
    requires IsSnapshot(root, policy, s) && k in w.db.rows && k !in AfterSweep(w, s, started).db.rows
    ensures exists d ::
      && d in w.db.rows && Within(k, d) && w.db.rows[d].parentPath in Readable(root, ROOT, policy)
      && w.db.rows[d].remoteId.Some?
      && (w.db.rows[d].tombstone
          || (!w.db.rows[d].dirty && (w.db.rows[d].lastSynced.None? || w.db.rows[d].lastSynced.value < started)))
      && w.db.rows[d].remoteId.value !in s.ids
      && forall q, n :: Shown(root, policy, q, n) ==> n.id != w.db.rows[d].remoteId.value
  {
    var d :| d in DeadTombstones(w.db.rows, s) + Vanished(w.db.rows, s, started) && Within(k, d);
    IdsAreShown(root, policy, s, w.db.rows[d].remoteId.value);
  }

  /** What the crawl says of a row: iCloud had it, its folder was read, and its id turned up nowhere. */
  predicate Lost(r: Row, s: Snapshot) {
    r.remoteId.Some? && r.remoteId.value !in s.ids && r.parentPath in s.visited
  }

  /** Lost, unchanged here, and not synced since the crawl began. */
  predicate LostClean(r: Row, s: Snapshot, started: int) {
    Lost(r, s) && !r.dirty && !r.tombstone && !(r.lastSynced.Some? && started <= r.lastSynced.value)
  }

  /** At or below a lost clean item or a lost pending delete. */
  ghost predicate SweptAway(rows: Rows, s: Snapshot, started: int, k: Path) {
    exists d :: d in rows && Within(k, d) && (LostClean(rows[d], s, started) || (Lost(rows[d], s) && rows[d].tombstone))
  }

  /** The sweep, row by row and file by file: lost pending deletes and lost clean items go with all
      that is below them, the files below lost clean items go, a lost local change becomes
      something new, and everything else stays as it was. */
  lemma SweepExactly(w: World, s: Snapshot, started: int, k: Path)
    ensures var rows, w' := w.db.rows, AfterSweep(w, s, started);
            && (k in w'.db.rows <==> k in rows && !SweptAway(rows, s, started, k))
            && (k in w'.db.listings <==> k in w.db.listings && !SweptAway(rows, s, started, k))
            && (k in w'.db.rows ==>
                  w'.db.rows[k] ==
                  if Lost(rows[k], s) && rows[k].dirty then rows[k].(remoteId := None, etag := None, syncedPath := None)
                  else rows[k])
            && (k in w'.disk <==>
                  k in w.disk && !exists d :: d in rows && Within(k, d) && LostClean(rows[d], s, started))
            && (k in w'.disk ==> w'.disk[k] == w.disk[k])
  {
    var rows, w' := w.db.rows, AfterSweep(w, s, started);
    forall d | d in rows && LostClean(rows[d], s, started) ensures d in Vanished(rows, s, started) {
      assert d in Gone(rows, s);
    }
    forall d | d in rows && Lost(rows[d], s) && rows[d].tombstone ensures d in DeadTombstones(rows, s) {
      assert d in Gone(rows, s);
    }
    assert Within(k, k);
  }

  /** Content operations of what is swept away go, the others stay. */
  lemma SweepKeepsOps(w: World, s: Snapshot, started: int, q: Path)
    requires Untargeted(w.db.ops)
    ensures PendingContent(AfterSweep(w, s, started).db.ops, q) <==>
              PendingContent(w.db.ops, q) && !SweptAway(w.db.rows, s, started, q)
  {
    var rows, ops := w.db.rows, AfterSweep(w, s, started).db.ops;
    var removed := DeadTombstones(rows, s) + Vanished(rows, s, started);
    forall d | d in rows
      ensures d in removed <==> LostClean(rows[d], s, started) || (Lost(rows[d], s) && rows[d].tombstone)
    {
      assert d in Gone(rows, s) <==> Lost(rows[d], s);
    }
    if PendingContent(w.db.ops, q) && !SweptAway(rows, s, started, q) {
      var o :| o in w.db.ops && o.path == q && o.kind in {CreateOp, UpdateOp, ConflictCopyOp};
      assert IsContentOp(o) && o in ops;
    }
  }

  /** A file that reached iCloud after its folder was read keeps its row and its bytes. */
  lemma SyncedMeanwhileStays(w: World, s: Snapshot, started: int, k: Path)
    requires k in w.db.rows && !w.db.rows[k].dirty && !w.db.rows[k].tombstone
    requires w.db.rows[k].lastSynced.Some? && started <= w.db.rows[k].lastSynced.value
    requires forall d :: d in w.db.rows && d != k && Within(k, d) ==> !Lost(w.db.rows[d], s)
    ensures var w' := AfterSweep(w, s, started);
            && k in w'.db.rows && w'.db.rows[k] == w.db.rows[k]
            && (k in w.disk ==> k in w'.disk && w'.disk[k] == w.disk[k])
  {
    SweepExactly(w, s, started, k);
  }

  /** In particular one whose upload the crawl did not see. */
  lemma UploadedMeanwhileStays(w: World, s: Snapshot, started: int, k: Path, node: RemoteNode, now: int)
    requires k in w.db.rows && started <= now
    requires forall d :: d in w.db.rows && d != k && Within(k, d) ==> !Lost(w.db.rows[d], s)
    ensures var w1 := w.(db := MarkClean(w.db, k, node, now));
            var w' := AfterSweep(w1, s, started);
            && k in w'.db.rows && w'.db.rows[k] == w1.db.rows[k]
            && (k in w.disk ==> k in w'.disk && w'.disk[k] == w.disk[k])
  {
    SyncedMeanwhileStays(w.(db := MarkClean(w.db, k, node, now)), s, started, k);
  }

  /** Local changes outside the removed folders survive, detached if iCloud lost the item, and
      the mirror keeps the bytes. */
  lemma SweepKeepsLocalWork(w: World, s: Snapshot, started: int, k: Path)
    requires k in w.db.rows && w.db.rows[k].dirty && !w.db.rows[k].tombstone
    requires forall d :: d in Gone(w.db.rows, s) && d != k ==> !Within(k, d)
    ensures var w' := AfterSweep(w, s, started);
            && k in w'.db.rows && w'.db.rows[k].dirty && !w'.db.rows[k].tombstone
            && w'.db.rows[k].remoteId == (if k in Gone(w.db.rows, s) then None else w.db.rows[k].remoteId)
            && (k in w.disk ==> k in w'.disk && w'.disk[k] == w.disk[k])
  {
    var removed := DeadTombstones(w.db.rows, s) + Vanished(w.db.rows, s, started);
    forall d | d in removed ensures !Within(k, d) {
    }
  }

  // ---- the first scan -----------------------------------------------------------------------

  /** Apply the crawl and sweep. */
  ghost function ApplySnapshot(w: World, s: Snapshot, started: int, envs: seq<RemoteEnv>): Applied
    requires |envs| == |s.items| && FreshItems(w, s.items, envs)
  {
    var a := ApplyItems(w, s.items, envs);
    if a.ok then Applied(AfterSweep(a.world, s, started), true) else a
  }

  lemma NothingGone(w: World, s: Snapshot, started: int)
    requires Added(map[], w.db.rows, s.items) && s.ids == IdsOf(s.items)
    ensures AfterSweep(w, s, started).db.rows == w.db.rows
  {
    forall k | k in w.db.rows ensures k !in Gone(w.db.rows, s) {
      var i :| 0 <= i < |s.items| && k == s.items[i].0;
      assert s.items[i].1.id in IdsOf(s.items);
    }
    assert Gone(w.db.rows, s) == {};
    assert DeadTombstones(w.db.rows, s) + Vanished(w.db.rows, s, started) == {} && Orphans(w.db.rows, s) == {};
  }

  /** A full scan into an empty database makes the rows exactly what the boundary shows of
      iCloud, each row saying what iCloud said. */
  lemma FirstScan(w: World, root: RemoteTree, policy: SyncPolicy, s: Snapshot, started: int, envs: seq<RemoteEnv>)
    requires w.db.rows == map[] && IsSnapshot(root, policy, s) && DistinctItems(s.items) && |envs| == |s.items|
    ensures FreshItems(w, s.items, envs)
    ensures var a := ApplySnapshot(w, s, started, envs);
            a.ok ==>
              && (forall q, n :: Shown(root, policy, q, n) ==>
                    q in a.world.db.rows && a.world.db.rows[q] == RemoteRow(q, n))
              && (forall q :: q in a.world.db.rows ==> exists n :: Shown(root, policy, q, n))
  {
    NewItemsAreAdded(w, s.items, envs);
    var a := ApplyItems(w, s.items, envs);
    if a.ok {
      NothingGone(a.world, s, started);
      forall q, n | Shown(root, policy, q, n) ensures q in a.world.db.rows && a.world.db.rows[q] == RemoteRow(q, n) {
        ShownIsFound(root, policy, s, q, n);
      }
      forall q | q in a.world.db.rows ensures exists n :: Shown(root, policy, q, n) {
        var i :| 0 <= i < |s.items| && q == s.items[i].0;
        assert s.items[i] == (q, s.items[i].1);
        ShownIsFound(root, policy, s, q, s.items[i].1);
      }
    }
  }
}
