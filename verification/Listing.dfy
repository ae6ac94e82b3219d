/** Reconciling what iCloud reports with the rows and the mirror: one item, a folder's
    listing, and the conflict path that keeps a local version. */
module Listing {
  import opened Paths
  import opened Rekeying
  import opened Tables
  import opened Files
  import opened Names
  import opened FsSpec
  import opened Search

  // ---- conflict paths -----------------------------------------------------------

  /** `join`: a single valid component below `p`. */
  function Join(p: Path, name: string): Option<Path> {
    if IsValidName(name) then Some(p + [name]) else None
  }

  function FileName(p: Path): string {
    if p == ROOT then "root" else Last(p)
  }

  function CandidateName(p: Path, stamp: string, attempt: nat): string {
    FileName(p) + ".local-conflict-" + stamp + if attempt == 1 then "" else "-" + Decimal(attempt)
  }

  function Candidate(p: Path, stamp: string, attempt: nat): Option<Path> {
    Join(Parent(p), CandidateName(p, stamp, attempt))
  }

  predicate Free(w: World, p: Path) {
    p !in w.disk && p !in w.db.rows
  }

  /** The attempt at which the search for a conflict path ends. */
  predicate Stops(w: World, p: Path, stamp: string, attempt: nat) {
    Candidate(p, stamp, attempt).None? || Free(w, Candidate(p, stamp, attempt).value)
  }

  predicate FirstStop(w: World, p: Path, stamp: string, attempt: nat) {
    && attempt >= 1 && Stops(w, p, stamp, attempt)
    && forall i :: 1 <= i < attempt ==> !Stops(w, p, stamp, i)
  }

  function Fallback(p: Path, stamp: string): Path {
    var short := Join(Parent(p), "conflict-" + stamp);
    if short.Some? then short.value else p
  }

  lemma CandidatesDiffer(p: Path, stamp: string, i: nat, j: nat)
    requires 1 <= i < j
    ensures CandidateName(p, stamp, i) != CandidateName(p, stamp, j)
  {
    var base := FileName(p) + ".local-conflict-" + stamp;
    var si := if i == 1 then "" else "-" + Decimal(i);
    var sj := "-" + Decimal(j);
    assert si != sj by {
      DecimalInjective(i, j);
      assert i != 1 ==> si[1..] == Decimal(i);
      assert sj[1..] == Decimal(j);
    }
    assert (base + si)[|base|..] == si && (base + sj)[|base|..] == sj;
  }

  function Occupied(w: World): set<Path> {
    w.disk.Keys + w.db.rows.Keys
  }

  /** Different names cannot all be occupied: among the first `|occupied| + 1` attempts one
      is free or not a valid name. */
  lemma SearchEnds(w: World, p: Path, stamp: string)
    ensures exists n: nat :: 1 <= n <= |Occupied(w)| + 1 && Stops(w, p, stamp, n)
  {
    var f := (n: nat) => Parent(p) + [CandidateName(p, stamp, n)];
    forall i: nat, j: nat | 1 <= i < j ensures f(i) != f(j) {
      CandidatesDiffer(p, stamp, i, j);
      assert Last(f(i)) == CandidateName(p, stamp, i) && Last(f(j)) == CandidateName(p, stamp, j);
    }
    var n := Pigeonhole(f, Occupied(w));
    assert Stops(w, p, stamp, n);
  }

  lemma {:induction false} FirstStopExists(w: World, p: Path, stamp: string, n: nat)
    requires n >= 1 && Stops(w, p, stamp, n)
    ensures exists m: nat :: m <= n && FirstStop(w, p, stamp, m)
  {
    if i: nat :| 1 <= i < n && Stops(w, p, stamp, i) {
      FirstStopExists(w, p, stamp, i);
    } else {
      assert FirstStop(w, p, stamp, n);
    }
  }

  ghost function LastAttempt(w: World, p: Path, stamp: string): (n: nat)
    ensures FirstStop(w, p, stamp, n)
  {
    SearchEnds(w, p, stamp);
    var n: nat :| 1 <= n <= |Occupied(w)| + 1 && Stops(w, p, stamp, n);
    FirstStopExists(w, p, stamp, n);
    var m: nat :| FirstStop(w, p, stamp, m);
    m
  }

  /** A name too long to extend falls back to a short one, free or not. */
  ghost predicate UsesFallback(w: World, p: Path, stamp: string) {
    Candidate(p, stamp, LastAttempt(w, p, stamp)).None?
  }

  ghost function ConflictPath(w: World, p: Path, stamp: string): Path {
    if UsesFallback(w, p, stamp) then Fallback(p, stamp)
    else Candidate(p, stamp, LastAttempt(w, p, stamp)).value
  }

  /** Outside the fallback the conflict path is a new name next to the old one, free in both
      the mirror and the rows. */
  lemma ConflictPathIsFresh(w: World, p: Path, stamp: string)
    requires p != ROOT && !UsesFallback(w, p, stamp)
    ensures var c := ConflictPath(w, p, stamp);
            && Free(w, c) && c != ROOT && Parent(c) == Parent(p) && Apart(c, p) && IsValidName(Last(c))
            && !Reserved(c)
  {
    var c := ConflictPath(w, p, stamp);
    assert |c| == |p| && c[..|c| - 1] == p[..|p| - 1];
    var base := Last(p) + ".local-conflict-" + stamp;
    assert Last(c)[..|base|] == base && |base| > |Last(p)|;
    assert |".local-conflict-"| == 16;
    assert |Last(c)| >= 16 > |TRACKER_IGNORE|;
  }

  /** In any case it is the old place or one beside it. */
  lemma ConflictPathIsBeside(w: World, p: Path, stamp: string)
    requires p != ROOT
    ensures var c := ConflictPath(w, p, stamp);
            c != ROOT && |c| == |p| && Parent(c) == Parent(p) && (Apart(p, c) || p == c)
  {
  }

  // ---- when the name is too long ----------------------------------------------------

  /** Bytes the numbering adds. */
  function SuffixLength(attempt: nat): nat {
    if attempt == 1 then 0 else 1 + |Decimal(attempt)|
  }

  /** The name of `p` can take the conflict suffix of that attempt: no character of it is
      forbidden, and the result is at most 255 bytes long. */
  predicate Extends(p: Path, stamp: string, attempt: nat) {
    && '/' !in FileName(p) && '\0' !in FileName(p) && '/' !in stamp && '\0' !in stamp
    && Utf8Length(FileName(p)) + 16 + Utf8Length(stamp) + SuffixLength(attempt) <= 255
  }

  lemma SuffixIsPlain(attempt: nat)
    ensures var suffix := if attempt == 1 then "" else "-" + Decimal(attempt);
            Plain(suffix) && |suffix| == SuffixLength(attempt)
  {
    DecimalIsDigits(attempt);
  }

  /** What a name made of four parts has to be like to be valid, the second and last plain. */
  lemma ValidParts(name: string, middle: string, stamp: string, suffix: string)
    requires |middle| == 16 && Plain(middle) && Plain(suffix)
    ensures IsValidName(name + middle + stamp + suffix) <==>
              && '/' !in name && '\0' !in name && '/' !in stamp && '\0' !in stamp
              && Utf8Length(name) + 16 + Utf8Length(stamp) + |suffix| <= 255
  {
    PlainLength(middle);
    PlainLength(suffix);
    Utf8Join(name, middle);
    Utf8Join(name + middle, stamp);
    Utf8Join(name + middle + stamp, suffix);
    var whole := name + middle + stamp + suffix;
    assert |whole| >= 16;
    assert |"."| == 1 && |".."| == 2;
  }

  lemma MiddleIsPlain(middle: string)
    requires middle == ".local-conflict-"
    ensures Plain(middle) && |middle| == 16
  {
  }

  lemma CandidateParts(p: Path, stamp: string, attempt: nat, middle: string, suffix: string)
    requires middle == ".local-conflict-" && suffix == if attempt == 1 then "" else "-" + Decimal(attempt)
    ensures CandidateName(p, stamp, attempt) == FileName(p) + middle + stamp + suffix
  {
  }

  lemma ExtendsMeansValid(p: Path, stamp: string, attempt: nat)
    ensures Candidate(p, stamp, attempt).Some? <==> Extends(p, stamp, attempt)
  {
    var suffix := if attempt == 1 then "" else "-" + Decimal(attempt);
    var middle :| middle == ".local-conflict-";
    SuffixIsPlain(attempt);
    MiddleIsPlain(middle);
    CandidateParts(p, stamp, attempt, middle, suffix);
    ValidParts(FileName(p), middle, stamp, suffix);
  }

  lemma ShorterExtends(p: Path, stamp: string, i: nat, j: nat)
    requires 1 <= i <= j && Extends(p, stamp, j)
    ensures Extends(p, stamp, i)
  {
    DecimalGrows(i, j);
  }

  /** The fallback is used exactly when every conflict name short enough to be one is taken; in
      particular when the name is too long for any. */
  lemma UsesFallbackExactly(w: World, p: Path, stamp: string)
    ensures UsesFallback(w, p, stamp) <==>
              forall n: nat :: n >= 1 && Extends(p, stamp, n) ==> !Free(w, Parent(p) + [CandidateName(p, stamp, n)])
  {
    var last := LastAttempt(w, p, stamp);
    ExtendsMeansValid(p, stamp, last);
    if UsesFallback(w, p, stamp) {
      forall n: nat | n >= 1 && Extends(p, stamp, n) ensures !Free(w, Parent(p) + [CandidateName(p, stamp, n)]) {
        ExtendsMeansValid(p, stamp, n);
        if n >= last {
          ShorterExtends(p, stamp, last, n);
        }
        assert !Stops(w, p, stamp, n);
      }
    } else {
      assert Extends(p, stamp, last) && Free(w, Parent(p) + [CandidateName(p, stamp, last)]);
    }
  }

  /** A name that leaves no room for the suffix goes straight to the fallback. */
  lemma LongNamesFallBack(w: World, p: Path, stamp: string)
    requires Utf8Length(FileName(p)) + 16 + Utf8Length(stamp) > 255
    ensures UsesFallback(w, p, stamp)
  {
    UsesFallbackExactly(w, p, stamp);
  }

  // ---- one item ------------------------------------------------------------------

  ghost predicate IsListing(s: seq<Path>, keys: set<Path>) {
    |s| == |keys| && forall k :: k in s <==> k in keys
  }

  /** The order in which the database returns a set of rows. */
  ghost predicate Lists(order: set<Path> -> seq<Path>) {
    forall keys: set<Path> :: IsListing(order(keys), keys)
  }

  ghost function Listed(keys: set<Path>): (s: seq<Path>)
    ensures IsListing(s, keys)
  {
    if keys == {} then []
    else
      var k :| k in keys;
      [k] + Listed(keys - {k})
  }

  type Order = order: set<Path> -> seq<Path> | Lists(order) ghost witness Listed

  /** What happens while an item is applied: the clock, the random markers, and the order of
      query results. */
  datatype RemoteEnv = RemoteEnv(stamp: Path -> string, mark: Path -> string, order: Order)

  datatype Applied = Applied(world: World, ok: bool)

  ghost predicate UniqueIds(rows: Rows) {
    forall k, k' :: k in rows && k' in rows && rows[k].remoteId.Some? && rows[k].remoteId == rows[k'].remoteId ==>
      k == k'
  }

  /** The first row with this remote id; nothing forbids several. */
  function FindById(rows: Rows, id: string, env: RemoteEnv): (r: Option<Path>)
    ensures r.Some? ==> r.value in rows && rows[r.value].remoteId == Some(id)
    ensures r.None? ==> forall k :: k in rows ==> rows[k].remoteId != Some(id)
  {
    var found := Holders(rows, id);
    if found == {} then
      assert forall k :: k in rows ==> k !in found;
      None
    else
      assert IsListing(env.order(found), found);
      assert env.order(found)[0] in found;
      Some(env.order(found)[0])
  }

  predicate DirtyAt(w: World, p: Path) {
    p in w.db.rows && w.db.rows[p].dirty
  }

  /** Did the remote item move or change under a locally modified row? */
  predicate Conflicts(r: Row, path: Path, node: RemoteNode) {
    || (r.syncedPath.Some? && r.syncedPath.value != path)
    || (r.etag.Some? && r.etag != node.etag)
  }

  function CopyOps(keys: seq<Path>): seq<Op> {
    seq(|keys|, i requires 0 <= i < |keys| => Op(ConflictCopyOp, keys[i], None))
  }

  /** Both sides changed: the local version moves to a conflict path, detached from iCloud. */
  ghost function ResolveConflict(w: World, p: Path, env: RemoteEnv): Applied {
    var c := ConflictPath(w, p, env.stamp(p));
    var moved := if p in w.disk then RenameDisk(w.disk, p, c) else Ok(w.disk);
    if moved.Err? then Applied(w, false)
    else if Clash(w.db.rows, p, c) then Applied(w.(disk := moved.value), false)
    else
      var rows := DetachedRows(w.db.rows, p, c);
      Applied(World(w.db.(rows := rows, ops := w.db.ops + CopyOps(env.order(Subtree(rows, c)))), moved.value), true)
  }

  function Materialize(w: World, path: Path, node: RemoteNode): Applied {
    match if IsDir(node.kind) then EnsureDir(w.disk, path) else Placeholder(w.disk, path, node.size, node.modified)
    case Err(_) => Applied(w, false)
    case Ok(d) => Applied(World(w.db.(rows := w.db.rows[path := RemoteRow(path, node)]), d), true)
  }

  predicate ContentChanged(r: Row, node: RemoteNode, moved: bool) {
    r.size != node.size || r.mtime != node.modified || (!moved && r.etag != node.etag)
  }

  /** The row after a clean item was seen again. */
  function RefreshedRow(r: Row, path: Path, node: RemoteNode, moved: bool): Row {
    var hydrated :=
      if IsDir(node.kind) then true
      else if ContentChanged(r, node, moved) then node.size == 0
      else r.hydrated;
    RemoteRow(path, node).(hydrated := hydrated, lastSynced := r.lastSynced)
  }

  /** Follow a remote move.  A move into or above the item's own place is refused by the
      disk; without a mirror copy to refuse it, such a move is outside this model. */
  ghost function FollowMove(w: World, p: Path, path: Path, env: RemoteEnv): Applied
    requires p in w.db.rows && (Apart(p, path) ==> FreshMarks(w.db.rows, p, path, env.mark))
  {
    var moved := if p in w.disk then RenameDisk(w.disk, p, path) else Ok(w.disk);
    if moved.Err? || !Apart(p, path) then Applied(w, false)
    else Applied(World(RenameTree(w.db, p, path, false, true, env.mark), moved.value), true)
  }

  function UpdateClean(w: World, path: Path, r: Row, node: RemoteNode, moved: bool): Applied {
    var disk :=
      if IsDir(node.kind) then EnsureDir(w.disk, path)
      else if ContentChanged(r, node, moved) then Placeholder(w.disk, path, node.size, node.modified)
      else Ok(w.disk);
    if disk.Err? then Applied(w, false)
    else Applied(World(w.db.(rows := w.db.rows[path := RefreshedRow(r, path, node, moved)]), disk.value), true)
  }

  ghost function RefreshClean(w: World, p: Path, path: Path, node: RemoteNode, env: RemoteEnv): Applied
    requires p in w.db.rows && (Apart(p, path) ==> FreshMarks(w.db.rows, p, path, env.mark))
  {
    if p == path then UpdateClean(w, path, w.db.rows[path], node, false)
    else
      var a := FollowMove(w, p, path, env);
      if !a.ok then a
      else
        var r := if path in a.world.db.rows then a.world.db.rows[path] else w.db.rows[p];
        UpdateClean(a.world, path, r, node, true)
  }

  ghost predicate FreshFor(w: World, path: Path, node: RemoteNode, env: RemoteEnv) {
    var known := FindById(w.db.rows, node.id, env);
    known.Some? && Apart(known.value, path) ==> FreshMarks(w.db.rows, known.value, path, env.mark)
  }

  /** An item iCloud reported that no clean row stands for. */
  ghost function ApplyUnknown(w: World, path: Path, node: RemoteNode, env: RemoteEnv): Applied {
    var a := if path in w.db.rows && w.db.rows[path].dirty then ResolveConflict(w, path, env) else Applied(w, true);
    if !a.ok then a else Materialize(a.world, path, node)
  }

  /** Reconcile one item iCloud reported at `path` with what is stored locally. */
  ghost function ApplyItem(w: World, path: Path, node: RemoteNode, env: RemoteEnv): Applied
    requires FreshFor(w, path, node, env)
  {
    var known := FindById(w.db.rows, node.id, env);
    if known.None? then ApplyUnknown(w, path, node, env)
    else
      var r := w.db.rows[known.value];
      if r.dirty && Conflicts(r, path, node) then
        var a := ResolveConflict(w, known.value, env);
        if !a.ok then a else ApplyUnknown(a.world, path, node, env)
      else if r.dirty then Applied(w, true)
      else RefreshClean(w, known.value, path, node, env)
  }

  // ---- the root never gets a row ----------------------------------------------------

  lemma ResolveKeepsRootFree(w: World, p: Path, env: RemoteEnv)
    requires ROOT !in w.db.rows && p != ROOT
    ensures ROOT !in ResolveConflict(w, p, env).world.db.rows
  {
    var c := ConflictPath(w, p, env.stamp(p));
    if !Clash(w.db.rows, p, c) {
      DetachedKeysDistinct(w.db.rows, p, c);
      assert |c| == |p|;
      assert forall k :: k in w.db.rows ==> DetachedKeys(w.db.rows, p, c)[k] != ROOT;
    }
  }

  lemma UnknownKeepsRootFree(w: World, path: Path, node: RemoteNode, env: RemoteEnv)
    requires ROOT !in w.db.rows && path != ROOT
    ensures ROOT !in ApplyUnknown(w, path, node, env).world.db.rows
  {
    ResolveKeepsRootFree(w, path, env);
  }

  lemma RefreshKeepsRootFree(w: World, p: Path, path: Path, node: RemoteNode, env: RemoteEnv)
    requires ROOT !in w.db.rows && path != ROOT && p in w.db.rows
    requires Apart(p, path) ==> FreshMarks(w.db.rows, p, path, env.mark)
    ensures ROOT !in RefreshClean(w, p, path, node, env).world.db.rows
  {
    if Apart(p, path) {
      MoveKeepsRootFree(w.db.rows, p, path, env.mark);
      assert ROOT !in FollowMove(w, p, path, env).world.db.rows;
    }
  }

  /** The root never gets a row. */
  lemma ApplyKeepsRootFree(w: World, path: Path, node: RemoteNode, env: RemoteEnv)
    requires FreshFor(w, path, node, env) && ROOT !in w.db.rows && path != ROOT
    ensures ROOT !in ApplyItem(w, path, node, env).world.db.rows
  {
    var known := FindById(w.db.rows, node.id, env);
    if known.None? {
      UnknownKeepsRootFree(w, path, node, env);
    } else if w.db.rows[known.value].dirty {
      ResolveKeepsRootFree(w, known.value, env);
      UnknownKeepsRootFree(ResolveConflict(w, known.value, env).world, path, node, env);
    } else {
      RefreshKeepsRootFree(w, known.value, path, node, env);
    }
  }

  lemma MoveKeepsRootFree(rows: Rows, from: Path, to: Path, mark: Path -> string)
    requires ROOT !in rows && Apart(from, to) && FreshMarks(rows, from, to, mark)
    ensures Injective(RenamedKeys(rows, from, to, mark))
    ensures ROOT !in RenamedRows(rows, from, to, false, true, mark)
  {
    RenamedKeysDistinct(rows, from, to, mark);
    assert forall k :: k in RenamedKeys(rows, from, to, mark) ==> RenamedKeys(rows, from, to, mark)[k] != ROOT;
  }

  // ---- a folder's listing -----------------------------------------------------------

  ghost predicate FreshAll(w: World, p: Path, answer: seq<RemoteNode>, envs: seq<RemoteEnv>)
    requires |envs| == |answer|
    decreases |answer|
  {
    answer == [] ||
    var target := Join(p, answer[0].name);
    if target.None? then FreshAll(w, p, answer[1..], envs[1..])
    else
      && FreshFor(w, target.value, answer[0], envs[0])
      && var a := ApplyItem(w, target.value, answer[0], envs[0]);
         a.ok ==> FreshAll(a.world, p, answer[1..], envs[1..])
  }

  /** The items in the order iCloud sent them; unusable names are skipped. */
  ghost function ApplyAll(w: World, p: Path, answer: seq<RemoteNode>, envs: seq<RemoteEnv>): Applied
    requires |envs| == |answer| && FreshAll(w, p, answer, envs)
    decreases |answer|
  {
    if answer == [] then Applied(w, true)
    else
      var target := Join(p, answer[0].name);
      if target.None? then ApplyAll(w, p, answer[1..], envs[1..])
      else
        var a := ApplyItem(w, target.value, answer[0], envs[0]);
        if !a.ok then a else ApplyAll(a.world, p, answer[1..], envs[1..])
  }

  /** The ids in the answer, of items with usable names. */
  function Seen(p: Path, answer: seq<RemoteNode>): set<string> {
    set i | 0 <= i < |answer| && Join(p, answer[i].name).Some? :: answer[i].id
  }

  /** Clean direct children iCloud no longer lists. */
  function Doomed(rows: Rows, p: Path, seen: set<string>): set<Path> {
    set k | k in rows && rows[k].parentPath == p && rows[k].remoteId.Some? && rows[k].remoteId.value !in seen
            && !rows[k].dirty
  }

  predicate BelowAny(k: Path, doomed: set<Path>) {
    exists d :: d in doomed && Within(k, d)
  }

  predicate MentionsBelowAny(o: Op, doomed: set<Path>) {
    exists d :: d in doomed && MentionsBelow(o, d)
  }

  /** Remove every doomed item with all that is below it. */
  function Swept(w: World, doomed: set<Path>): World {
    World(Db(map k | k in w.db.rows && !BelowAny(k, doomed) :: w.db.rows[k],
             KeepOps(w.db.ops, (o: Op) => !MentionsBelowAny(o, doomed)),
             map k | k in w.db.listings && !BelowAny(k, doomed) :: w.db.listings[k]),
          map k | k in w.disk && !BelowAny(k, doomed) :: w.disk[k])
  }

  /** What a listing needs from outside: the clock, whether the folder failed to list a
      moment ago, iCloud's answer if it gave one. */
  datatype Request =
    Request(force: bool, now: int, interval: int, failedRecently: bool, answer: Option<seq<RemoteNode>>)

  datatype Verdict = Ask | NothingToDo | LocalFolder | Failing

  /** Is there anything to ask iCloud about? */
  function Ponder(db: Db, p: Path, req: Request): Verdict {
    if !req.force && p in db.listings && req.now - db.listings[p] < req.interval then NothingToDo
    else if !req.force && req.failedRecently then Failing
    else if p == ROOT then Ask
    else if p !in db.rows || db.rows[p].tombstone || !IsDir(db.rows[p].kind) then NothingToDo
    else if db.rows[p].remoteId.None? then LocalFolder
    else Ask
  }

  function MarkListed(w: World, p: Path, now: int): World {
    w.(db := w.db.(listings := w.db.listings[p := now]))
  }

  /** List the direct children of `p` once. */
  ghost function ListDirectory(w: World, p: Path, req: Request, envs: seq<RemoteEnv>): Applied
    requires req.answer.Some? ==> |envs| == |req.answer.value| && FreshAll(w, p, req.answer.value, envs)
  {
    match Ponder(w.db, p, req)
    case NothingToDo => Applied(w, true)
    case Failing => Applied(w, false)
    // Created here and not yet on iCloud: the folder is complete as it is.
    case LocalFolder => Applied(MarkListed(w, p, req.now), true)
    case Ask =>
      if req.answer.None? then Applied(w, false)
      else
        var a := ApplyAll(w, p, req.answer.value, envs);
        if !a.ok then a
        else
          var doomed := Doomed(a.world.db.rows, p, Seen(p, req.answer.value));
          Applied(MarkListed(Swept(a.world, doomed), p, req.now), true)
  }
}
