/** Applying an item iCloud reported never overwrites local changes: every live dirty file
    keeps its bytes, at its own path or below a fresh conflict path. */
module Conflicts {
  import opened Paths
  import opened Tables
  import opened Files
  import opened Names
  import opened FsSpec
  import opened Listing

  /** A file with local changes iCloud does not have. */
  ghost predicate LocalWork(w: World, q: Path) {
    && Live(w.db.rows, q) && w.db.rows[q].dirty && !IsDir(w.db.rows[q].kind)
    && IsFile(w.disk, q)
  }

  /** The mirror is a file tree, and the root has no row. */
  ghost predicate Sound(w: World) {
    Rooted(w.disk) && ROOT !in w.db.rows
  }

  /** The bytes at `q` are still there, at `q'`, still live and still to be uploaded. */
  ghost predicate KeptAt(w: World, q: Path, w': World, q': Path)
    requires LocalWork(w, q)
  {
    LocalWork(w', q') && w'.disk[q'].bytes == w.disk[q].bytes
  }

  lemma KeptTwice(w: World, q: Path, w1: World, q1: Path, w2: World, q2: Path)
    requires LocalWork(w, q) && KeptAt(w, q, w1, q1) && KeptAt(w1, q1, w2, q2)
    ensures KeptAt(w, q, w2, q2)
  {
  }

  // ---- one conflict ---------------------------------------------------------------

  function Relocated(q: Path, p: Path, c: Path): Path {
    if Within(q, p) then Rebase(q, p, c) else q
  }

  /** Everything at or below `p` is now at or below `c`, where no row and no file tree was. */
  ghost predicate MovedAside(w: World, p: Path, c: Path, w': World) {
    && Apart(p, c) && Parent(c) == Parent(p) && c != ROOT
    && !Clash(w.db.rows, p, c) && (p in w.disk ==> Replaceable(w.disk, p, c))
    && w'.disk == (if p in w.disk then MoveTree(w.disk, p, c) else w.disk)
    && w'.db.rows == DetachedRows(w.db.rows, p, c)
  }

  /** What `rename(2)` moves onto the name `c`: nothing there, a file under a file, an empty
      folder under a folder. */
  ghost predicate Replaceable(d: Disk, p: Path, c: Path)
    requires p in d
  {
    c !in d || (d[c].Dir? == d[p].Dir? && !HasChild(d, c))
  }

  lemma AsideOnDisk(d: Disk, p: Path, c: Path)
    requires Rooted(d) && p in d && Apart(p, c) && Parent(c) == Parent(p)
    ensures Replaceable(d, p, c) ==> RenameDisk(d, p, c) == Ok(MoveTree(d, p, c))
    ensures !Replaceable(d, p, c) ==> RenameDisk(d, p, c).Err?
  {
    AncestorsAreFolders(d, p, Parent(p));
    ExistingFolder(d, Parent(c));
    forall k | k in d && Within(k, c) ensures c in d && (k != c ==> HasChild(d, c)) {
      AncestorsAreFolders(d, k, c);
    }
  }

  /** Is there a place for the local version: the chosen name is free in the mirror and the
      rows, and no row is where one of the subtree will land?  Only the fallback name is
      chosen without looking, and only rows left below a name that is gone can be in the way. */
  ghost predicate HasRoom(w: World, p: Path, env: RemoteEnv) {
    var c := ConflictPath(w, p, env.stamp(p));
    (UsesFallback(w, p, env.stamp(p)) ==> Free(w, c)) && !Clash(w.db.rows, p, c)
  }

  lemma ResolveMovesAside(w: World, p: Path, env: RemoteEnv)
    requires Sound(w) && p in w.db.rows && HasRoom(w, p, env)
    ensures ResolveConflict(w, p, env).ok
    ensures var c := ConflictPath(w, p, env.stamp(p));
            Free(w, c) && MovedAside(w, p, c, ResolveConflict(w, p, env).world)
  {
    var c := ConflictPath(w, p, env.stamp(p));
    ConflictPathIsBeside(w, p, env.stamp(p));
    if !UsesFallback(w, p, env.stamp(p)) {
      ConflictPathIsFresh(w, p, env.stamp(p));
    }
    if p in w.disk {
      AsideOnDisk(w.disk, p, c);
    }
  }

  lemma MovedAsideKeeps(w: World, p: Path, c: Path, w': World, q: Path)
    requires Sound(w) && p in w.db.rows && MovedAside(w, p, c, w') && LocalWork(w, q)
    ensures KeptAt(w, q, w', Relocated(q, p, c))
    ensures Within(q, p) ==> p in w.disk
  {
    if Within(q, p) {
      RebaseLands(q, p, c);
      AncestorsAreFolders(w.disk, q, p);
      DetachedRowAt(w.db.rows, p, c, Rebase(q, p, c));
    } else {
      NotWhereRowsLand(w.db.rows, p, c, q);
      DetachedRowAt(w.db.rows, p, c, q);
      NoFileAtTarget(w, p, c, q);
    }
    MoveTreeAt(w.disk, p, c);
  }

  /** No local work is at or below the place a subtree moves to. */
  lemma NoFileAtTarget(w: World, p: Path, c: Path, q: Path)
    requires Sound(w) && LocalWork(w, q) && q != c && (p in w.disk ==> Replaceable(w.disk, p, c))
    ensures p in w.disk ==> !Within(q, c)
  {
    if p in w.disk && Within(q, c) {
      AncestorsAreFolders(w.disk, q, c);
      assert HasChild(w.disk, c);
    }
  }

  /** A row already there is not where another lands. */
  lemma NotWhereRowsLand(rows: Rows, p: Path, c: Path, q: Path)
    requires Apart(p, c) && !Clash(rows, p, c) && p in rows && q in rows
    ensures !Landed(rows, p, c, q) && q != c
  {
    RebaseLands(p, p, c);
    if Within(q, c) {
      RebaseLands(q, c, p);
    }
  }

  /** The world is still sound after moving a subtree aside. */
  lemma MovedAsideSound(w: World, p: Path, c: Path, w': World)
    requires Sound(w) && p in w.db.rows && MovedAside(w, p, c, w')
    ensures Sound(w')
  {
    DetachedRowsAt(w.db.rows, p, c);
    if p in w.disk {
      AsideRooted(w.disk, p, c);
    }
  }

  lemma AsideRooted(d: Disk, p: Path, c: Path)
    requires Rooted(d) && p in d && c != ROOT && Apart(p, c) && Parent(c) == Parent(p)
    ensures Rooted(MoveTree(d, p, c))
  {
    MoveTreeAt(d, p, c);
    var d' := MoveTree(d, p, c);
    forall j | j in d' && j != ROOT ensures Parent(j) in d' && d'[Parent(j)].Dir? {
      if j == c {
        RebaseLands(p, p, c);
      } else if Within(j, c) {
        RebaseLands(j, c, p);
        RebaseParent(j, c, p);
      } else {
        assert Within(j, Parent(j));
      }
    }
  }

  // ---- exactly when the local versions survive ----------------------------------------

  /** The mirror moves, and then the rows cannot: the database rolls back, the files do not. */
  ghost predicate Overrun(w: World, p: Path, c: Path) {
    p in w.disk && Replaceable(w.disk, p, c) && Clash(w.db.rows, p, c)
  }

  /** Local work whose bytes an overrun takes away from its row. */
  ghost predicate AtStake(w: World, p: Path, c: Path, q: Path) {
    LocalWork(w, q) && (Within(q, p) || (q == c && IsFile(w.disk, p) && w.disk[p].bytes != w.disk[c].bytes))
  }

  /** After a conflict every local version is at its place, relocated with its subtree if the
      conflict was resolved. */
  ghost predicate AllKept(w: World, p: Path, env: RemoteEnv) {
    var c, a := ConflictPath(w, p, env.stamp(p)), ResolveConflict(w, p, env);
    forall q :: LocalWork(w, q) ==> KeptAt(w, q, a.world, if a.ok then Relocated(q, p, c) else q)
  }

  /** Resolving a conflict keeps every local version exactly unless the mirror takes the move,
      the rows do not, and local work is below the old place or replaced at the new one.  With
      the fallback name free, or any other name, that cannot happen. */
  lemma ResolveKeepsExactly(w: World, p: Path, env: RemoteEnv)
    requires Sound(w) && p in w.db.rows
    ensures var c := ConflictPath(w, p, env.stamp(p));
            AllKept(w, p, env) <==> !(Overrun(w, p, c) && exists q :: AtStake(w, p, c, q))
  {
    var c, a := ConflictPath(w, p, env.stamp(p)), ResolveConflict(w, p, env);
    ConflictPathIsBeside(w, p, env.stamp(p));
    if p == c {
      InPlaceKeeps(w, p, env);
    } else {
      if p in w.disk {
        AsideOnDisk(w.disk, p, c);
      }
      if a.ok {
        assert MovedAside(w, p, c, a.world);
        forall q | LocalWork(w, q) ensures KeptAt(w, q, a.world, Relocated(q, p, c)) {
          MovedAsideKeeps(w, p, c, a.world, q);
        }
      } else if Overrun(w, p, c) {
        OverrunLoses(w, p, c, a.world);
      } else {
        assert a.world.disk == w.disk;
      }
    }
  }

  /** With an unusable time stamp the conflict name is the old one: rows are detached in place. */
  lemma InPlaceResult(w: World, p: Path, env: RemoteEnv)
    requires Sound(w) && p in w.db.rows && ConflictPath(w, p, env.stamp(p)) == p
    ensures var a := ResolveConflict(w, p, env);
            && !Clash(w.db.rows, p, p) && a.ok && a.world.disk == w.disk
            && a.world.db.rows == DetachedHere(w.db.rows, p)
  {
    DetachedRowsHere(w.db.rows, p);
    if p in w.disk {
      AncestorsAreFolders(w.disk, p, Parent(p));
      ExistingFolder(w.disk, Parent(p));
    }
  }

  lemma InPlaceKeeps(w: World, p: Path, env: RemoteEnv)
    requires Sound(w) && p in w.db.rows && ConflictPath(w, p, env.stamp(p)) == p
    ensures !Clash(w.db.rows, p, p) && AllKept(w, p, env)
  {
    InPlaceResult(w, p, env);
    var w' := ResolveConflict(w, p, env).world;
    forall q | LocalWork(w, q) ensures KeptAt(w, q, w', Relocated(q, p, p)) {
      InPlaceKept(w, p, w', q);
    }
  }

  lemma InPlaceKept(w: World, p: Path, w': World, q: Path)
    requires LocalWork(w, q) && w'.disk == w.disk && w'.db.rows == DetachedHere(w.db.rows, p)
    ensures KeptAt(w, q, w', Relocated(q, p, p))
  {
    assert Within(q, p) ==> Rebase(q, p, p) == q;
  }

  lemma OverrunLoses(w: World, p: Path, c: Path, w': World)
    requires Sound(w) && Apart(p, c) && Overrun(w, p, c) && w' == w.(disk := MoveTree(w.disk, p, c))
    ensures (forall q :: LocalWork(w, q) ==> KeptAt(w, q, w', q)) <==> !exists q :: AtStake(w, p, c, q)
  {
    MoveTreeAt(w.disk, p, c);
    forall q | LocalWork(w, q) ensures KeptAt(w, q, w', q) <==> !AtStake(w, p, c, q) {
      if Within(q, c) {
        ApartBelow(q, c, p);
        AncestorsAreFolders(w.disk, q, c);
        assert q != c ==> HasChild(w.disk, c);
        RebaseLands(c, c, p);
      }
    }
  }

  // ---- the item itself --------------------------------------------------------------

  lemma PlaceSucceeds(d: Disk, path: Path, size: nat, mtime: int)
    requires path != ROOT && WayIsClear(d, path)
    ensures EnsureDir(d, path).Ok?
    ensures Placeholder(d, path, size, mtime).Ok?
  {
    var d' := if IsFile(d, path) then d - {path} else d;
    forall i | 0 <= i <= |path| ensures !IsFile(d', path[..i]) {
      assert i == |path| ==> path[..i] == path;
    }
    forall i | 0 <= i <= |Parent(path)| ensures !IsFile(d, Parent(path)[..i]) {
      assert Parent(path)[..i] == path[..i];
    }
  }

  /** Moving a subtree aside puts no file in the way of `path`. */
  lemma WayStaysOpen(w: World, p: Path, c: Path, w': World, path: Path)
    requires MovedAside(w, p, c, w') && WayIsClear(w.disk, path) && (Within(path, c) ==> path == c)
    ensures WayIsClear(w'.disk, path)
  {
    forall i | 0 <= i < |path| ensures !IsFile(w'.disk, path[..i]) {
      PrefixIsElsewhere(path, i, c);
      StaysOpenAt(w.disk, p, c, path[..i]);
    }
  }

  lemma PrefixIsElsewhere(path: Path, i: nat, c: Path)
    requires i < |path| && (Within(path, c) ==> path == c)
    ensures !Within(path[..i], c)
  {
    assert Within(path, path[..i]);
  }

  lemma StaysOpenAt(d: Disk, p: Path, c: Path, k: Path)
    requires !Within(k, c) && !IsFile(d, k)
    ensures !IsFile(MoveTree(d, p, c), k)
  {
    MoveTreeAt(d, p, c);
  }

  // ---- the theorem --------------------------------------------------------------------

  lemma MaterializeSucceeds(w: World, path: Path, node: RemoteNode)
    requires path != ROOT && WayIsClear(w.disk, path)
    ensures Materialize(w, path, node).ok
  {
    PlaceSucceeds(w.disk, path, node.size, node.modified);
  }

  /** Putting an item at `path` touches nothing but `path`, and what is below it when a file
      takes its place. */
  lemma MaterializeKeeps(w: World, path: Path, node: RemoteNode, q: Path)
    requires Rooted(w.disk) && path != ROOT && Materialize(w, path, node).ok
    requires LocalWork(w, q) && q != path && (!IsDir(node.kind) ==> !Within(q, path))
    ensures KeptAt(w, q, Materialize(w, path, node).world, q)
  {
    var d := Materialize(w, path, node).world.disk;
    assert IsFile(d, q) && d[q] == w.disk[q];
  }

  /** Where the local work at `q` is after an item no clean row stands for was applied. */
  ghost function PlaceAfterUnknown(w: World, path: Path, env: RemoteEnv, q: Path): Path {
    if DirtyAt(w, path) then Relocated(q, path, ConflictPath(w, path, env.stamp(path))) else q
  }

  lemma UnknownItemSucceeds(w: World, path: Path, node: RemoteNode, env: RemoteEnv)
    requires Sound(w) && path != ROOT && WayIsClear(w.disk, path)
    requires DirtyAt(w, path) ==> HasRoom(w, path, env)
    ensures ApplyUnknown(w, path, node, env).ok
  {
    if DirtyAt(w, path) {
      ResolveMovesAside(w, path, env);
      WayStaysOpen(w, path, ConflictPath(w, path, env.stamp(path)), ResolveConflict(w, path, env).world, path);
      MaterializeSucceeds(ResolveConflict(w, path, env).world, path, node);
    } else {
      MaterializeSucceeds(w, path, node);
    }
  }

  lemma UnknownItemKeeps(w: World, path: Path, node: RemoteNode, env: RemoteEnv, q: Path)
    requires Sound(w) && path != ROOT && WayIsClear(w.disk, path)
    requires DirtyAt(w, path) ==> HasRoom(w, path, env)
    requires LocalWork(w, q) && (!IsDir(node.kind) && !DirtyAt(w, path) ==> !Within(q, path))
    ensures ApplyUnknown(w, path, node, env).ok
    ensures KeptAt(w, q, ApplyUnknown(w, path, node, env).world, PlaceAfterUnknown(w, path, env, q))
  {
    UnknownItemSucceeds(w, path, node, env);
    if DirtyAt(w, path) {
      var c := ConflictPath(w, path, env.stamp(path));
      var w1 := ResolveConflict(w, path, env).world;
      ResolveMovesAside(w, path, env);
      MovedAsideKeeps(w, path, c, w1, q);
      MovedAsideSound(w, path, c, w1);
      var q1 := Relocated(q, path, c);
      if Within(q, path) {
        RebaseLands(q, path, c);
        ApartBelow(q1, c, path);
      }
      MaterializeKeeps(w1, path, node, q1);
    } else {
      MaterializeKeeps(w, path, node, q);
    }
  }

  /** Where the local work at `q` is after the item was applied. */
  ghost function PlaceAfter(w: World, path: Path, node: RemoteNode, env: RemoteEnv, q: Path): Path {
    var known := FindById(w.db.rows, node.id, env);
    if known.None? then PlaceAfterUnknown(w, path, env, q)
    else if DirtyAt(w, known.value) && Conflicts(w.db.rows[known.value], path, node) then
      var c := ConflictPath(w, known.value, env.stamp(known.value));
      PlaceAfterUnknown(ResolveConflict(w, known.value, env).world, path, env, Relocated(q, known.value, c))
    else q
  }

  /** The cases covered: the item is unknown, or known at the reported path, or known only
      through a dirty row. */
  ghost predicate Covered(w: World, path: Path, node: RemoteNode, env: RemoteEnv) {
    var known := FindById(w.db.rows, node.id, env);
    known.Some? ==> known.value == path || DirtyAt(w, known.value)
  }

  /** No file is reported where a clean folder with local work below it is cached. */
  ghost predicate NoFileOverFolder(w: World, path: Path, node: RemoteNode) {
    !IsDir(node.kind) && !DirtyAt(w, path) ==> forall q :: LocalWork(w, q) ==> !Within(q, path)
  }

  /** Each local version in conflict has a place to go. */
  ghost predicate RoomAside(w: World, path: Path, node: RemoteNode, env: RemoteEnv) {
    var known := FindById(w.db.rows, node.id, env);
    if known.None? then DirtyAt(w, path) ==> HasRoom(w, path, env)
    else
      DirtyAt(w, known.value) && Conflicts(w.db.rows[known.value], path, node) ==>
        && HasRoom(w, known.value, env)
        && var w1 := ResolveConflict(w, known.value, env).world;
           DirtyAt(w1, path) ==> HasRoom(w1, path, env)
  }

  lemma FolderIsOpenWay(d: Disk, path: Path)
    requires Rooted(d) && path != ROOT && IsFolder(d, Parent(path))
    ensures WayIsClear(d, path)
  {
    forall i | 0 <= i < |path| ensures !IsFile(d, path[..i]) {
      assert path[..i] == Parent(path)[..i];
      AncestorsAreFolders(d, Parent(path), path[..i]);
    }
  }

  /** Next to its old place, relocated work is not below a name it was not below before. */
  lemma RelocatedNotBelow(q: Path, p: Path, c: Path, path: Path)
    requires Apart(p, c) && Parent(c) == Parent(p) && !Within(path, c)
    requires Within(path, p) || !Within(q, path)
    ensures !Within(Relocated(q, p, c), path)
  {
    if Within(q, p) {
      RebaseLands(q, p, c);
      var q1 := Rebase(q, p, c);
      assert |c| == |p|;
      assert Within(q1, path) ==> Within(c, path);
      assert Within(c, path) ==> Within(Parent(c), path);
      assert Within(Parent(c), path) ==> Within(p, path) && |path| < |p|;
    }
  }

  /** After the known dirty row moved aside, the reported file is still not over local work. */
  lemma AsideNotBelow(w: World, p: Path, c: Path, w1: World, path: Path, q: Path)
    requires Sound(w) && DirtyAt(w, p) && MovedAside(w, p, c, w1)
    requires !DirtyAt(w1, path) && (Within(path, c) ==> path == c)
    requires !DirtyAt(w, path) ==> !Within(q, path)
    ensures !Within(Relocated(q, p, c), path)
  {
    DetachedRowsAt(w.db.rows, p, c);
    RebaseLands(c, c, p);
    assert DirtyAt(w1, c);
    if DirtyAt(w, path) && !Within(path, p) {
      NotWhereRowsLand(w.db.rows, p, c, path);
    }
    assert DirtyAt(w, path) ==> Within(path, p);
    RelocatedNotBelow(q, p, c, path);
  }

  /** Applying an item succeeds and keeps every live dirty file's bytes, at the same path or
      below a fresh conflict path. */
  lemma NoSilentOverwrite(w: World, path: Path, node: RemoteNode, env: RemoteEnv, q: Path)
    requires Sound(w) && path != ROOT && IsFolder(w.disk, Parent(path))
    requires FreshFor(w, path, node, env) && Covered(w, path, node, env)
    requires NoFileOverFolder(w, path, node) && RoomAside(w, path, node, env)
    requires LocalWork(w, q)
    ensures ApplyItem(w, path, node, env).ok
    ensures KeptAt(w, q, ApplyItem(w, path, node, env).world, PlaceAfter(w, path, node, env, q))
  {
    FolderIsOpenWay(w.disk, path);
    var known := FindById(w.db.rows, node.id, env);
    if known.None? {
      UnknownItemKeeps(w, path, node, env, q);
    } else if DirtyAt(w, known.value) {
      if Conflicts(w.db.rows[known.value], path, node) {
        ConflictKeeps(w, known.value, path, node, env, q);
      }
    } else {
      RefreshKeeps(w, path, node, env, q);
    }
  }

  lemma ConflictKeeps(w: World, p: Path, path: Path, node: RemoteNode, env: RemoteEnv, q: Path)
    requires Sound(w) && path != ROOT && IsFolder(w.disk, Parent(path)) && WayIsClear(w.disk, path)
    requires DirtyAt(w, p) && HasRoom(w, p, env)
    requires var w1 := ResolveConflict(w, p, env).world;
             DirtyAt(w1, path) ==> HasRoom(w1, path, env)
    requires NoFileOverFolder(w, path, node) && LocalWork(w, q)
    ensures var a := ResolveConflict(w, p, env);
            var q1 := Relocated(q, p, ConflictPath(w, p, env.stamp(p)));
            && a.ok && ApplyUnknown(a.world, path, node, env).ok
            && KeptAt(w, q, ApplyUnknown(a.world, path, node, env).world, PlaceAfterUnknown(a.world, path, env, q1))
  {
    var c := ConflictPath(w, p, env.stamp(p));
    var w1 := ResolveConflict(w, p, env).world;
    ResolveMovesAside(w, p, env);
    MovedAsideKeeps(w, p, c, w1, q);
    MovedAsideSound(w, p, c, w1);
    if Within(path, c) && path != c {
      AncestorsAreFolders(w.disk, Parent(path), c);
    }
    WayStaysOpen(w, p, c, w1, path);
    if !IsDir(node.kind) && !DirtyAt(w1, path) {
      AsideNotBelow(w, p, c, w1, path, q);
    }
    UnknownItemKeeps(w1, path, node, env, Relocated(q, p, c));
  }

  lemma RefreshKeeps(w: World, path: Path, node: RemoteNode, env: RemoteEnv, q: Path)
    requires Sound(w) && path != ROOT && WayIsClear(w.disk, path)
    requires path in w.db.rows && !DirtyAt(w, path)
    requires NoFileOverFolder(w, path, node) && LocalWork(w, q)
    ensures UpdateClean(w, path, w.db.rows[path], node, false).ok
    ensures KeptAt(w, q, UpdateClean(w, path, w.db.rows[path], node, false).world, q)
  {
    PlaceSucceeds(w.disk, path, node.size, node.modified);
    var a := UpdateClean(w, path, w.db.rows[path], node, false);
    assert IsFile(a.world.disk, q) && a.world.disk[q] == w.disk[q];
  }

  // ---- what counts as a conflict ----------------------------------------------------------

  /** iCloud reports a changed item where and as it was when it was last in step: nothing happens. */
  lemma UnchangedItemIsLeft(w: World, path: Path, node: RemoteNode, env: RemoteEnv, k: Path)
    requires FreshFor(w, path, node, env) && UniqueIds(w.db.rows)
    requires k in w.db.rows && w.db.rows[k].remoteId == Some(node.id) && w.db.rows[k].dirty
    requires w.db.rows[k].syncedPath == None || w.db.rows[k].syncedPath == Some(path)
    requires w.db.rows[k].etag == None || w.db.rows[k].etag == node.etag
    ensures ApplyItem(w, path, node, env) == Applied(w, true)
  {
    assert FindById(w.db.rows, node.id, env) == Some(k);
  }

  /** A file that was written while it was uploaded: the record the upload left is no conflict, and the
      newer content still asks to go up. */
  lemma HalfUploadedIsLeft(w: World, path: Path, node: RemoteNode, now: int, env: RemoteEnv)
    requires AsksForUpload(w.db, path) && PendingContent(w.db.ops, path)
    requires UniqueIds(MarkUploadedButDirty(w.db.rows, path, node, now))
    ensures var w1 := w.(db := w.db.(rows := MarkUploadedButDirty(w.db.rows, path, node, now)));
            && AsksForUpload(w1.db, path) && FreshFor(w1, path, node, env)
            && ApplyItem(w1, path, node, env) == Applied(w1, true)
  {
    var w1 := w.(db := w.db.(rows := MarkUploadedButDirty(w.db.rows, path, node, now)));
    assert w1.db.rows[path].remoteId == Some(node.id);
    UnchangedItemIsLeft(w1, path, node, env, path);
  }

  /** It moved there or changed: both versions are kept, the local one detached at a fresh path,
      iCloud's where iCloud has it. */
  lemma ChangedItemIsKeptTwice(w: World, path: Path, node: RemoteNode, env: RemoteEnv, k: Path)
    requires Sound(w) && path != ROOT && IsFolder(w.disk, Parent(path)) && FreshFor(w, path, node, env)
    requires UniqueIds(w.db.rows) && LocalWork(w, k) && w.db.rows[k].remoteId == Some(node.id)
    requires (w.db.rows[k].syncedPath.Some? && w.db.rows[k].syncedPath != Some(path))
             || (w.db.rows[k].etag.Some? && w.db.rows[k].etag != node.etag)
    requires HasRoom(w, k, env) && NoFileOverFolder(w, path, node)
    requires var w1 := ResolveConflict(w, k, env).world; DirtyAt(w1, path) ==> HasRoom(w1, path, env)
    ensures var a, c := ApplyItem(w, path, node, env), ConflictPath(w, k, env.stamp(k));
            var q := PlaceAfterUnknown(ResolveConflict(w, k, env).world, path, env, c);
            && a.ok && Free(w, c) && q != path
            && KeptAt(w, k, a.world, q) && a.world.db.rows[q].remoteId.None?
            && path in a.world.db.rows && a.world.db.rows[path] == RemoteRow(path, node)
  {
    var c, w1 := ConflictPath(w, k, env.stamp(k)), ResolveConflict(w, k, env).world;
    FolderIsOpenWay(w.disk, path);
    ConflictKeeps(w, k, path, node, env, k);
    assert Relocated(k, k, c) == c;
    LocalVersionDetached(w, k, env);
    DetachedStays(w1, path, node, env, c);
    ConflictIsResolved(w, k, path, node, env);
  }

  lemma ConflictIsResolved(w: World, k: Path, path: Path, node: RemoteNode, env: RemoteEnv)
    requires UniqueIds(w.db.rows) && k in w.db.rows && w.db.rows[k].remoteId == Some(node.id) && w.db.rows[k].dirty
    requires (w.db.rows[k].syncedPath.Some? && w.db.rows[k].syncedPath != Some(path))
             || (w.db.rows[k].etag.Some? && w.db.rows[k].etag != node.etag)
    requires FreshFor(w, path, node, env) && ResolveConflict(w, k, env).ok
    ensures var a := ApplyUnknown(ResolveConflict(w, k, env).world, path, node, env);
            && ApplyItem(w, path, node, env) == a
            && (a.ok ==> path in a.world.db.rows && a.world.db.rows[path] == RemoteRow(path, node))
  {
    assert FindById(w.db.rows, node.id, env) == Some(k);
  }

  lemma LocalVersionDetached(w: World, k: Path, env: RemoteEnv)
    requires Sound(w) && DirtyAt(w, k) && HasRoom(w, k, env)
    ensures var c, w1 := ConflictPath(w, k, env.stamp(k)), ResolveConflict(w, k, env).world;
            Free(w, c) && Sound(w1) && DirtyAt(w1, c) && w1.db.rows[c].remoteId.None?
  {
    var c, w1 := ConflictPath(w, k, env.stamp(k)), ResolveConflict(w, k, env).world;
    ResolveMovesAside(w, k, env);
    MovedAsideSound(w, k, c, w1);
    RebaseLands(c, c, k);
    DetachedRowAt(w.db.rows, k, c, c);
  }

  /** A row without identity keeps none when another item is applied. */
  lemma DetachedStays(w: World, path: Path, node: RemoteNode, env: RemoteEnv, q: Path)
    requires Sound(w) && path != ROOT && (DirtyAt(w, path) ==> HasRoom(w, path, env))
    requires DirtyAt(w, q) && w.db.rows[q].remoteId.None? && ApplyUnknown(w, path, node, env).ok
    ensures var q', w' := PlaceAfterUnknown(w, path, env, q), ApplyUnknown(w, path, node, env).world;
            q' != path && q' in w'.db.rows && w'.db.rows[q'].remoteId.None?
  {
    if DirtyAt(w, path) {
      var c := ConflictPath(w, path, env.stamp(path));
      ResolveMovesAside(w, path, env);
      if Within(q, path) {
        RebaseLands(q, path, c);
        ApartBelow(Rebase(q, path, c), c, path);
        DetachedRowAt(w.db.rows, path, c, Rebase(q, path, c));
      } else {
        NotWhereRowsLand(w.db.rows, path, c, q);
        DetachedRowAt(w.db.rows, path, c, q);
      }
    }
  }

  // ---- nothing merges ----------------------------------------------------------------

  lemma RelocatedDistinct(w: World, p: Path, c: Path, q1: Path, q2: Path)
    requires Apart(p, c) && !Clash(w.db.rows, p, c) && q1 in w.db.rows && q2 in w.db.rows && q1 != q2
    ensures Relocated(q1, p, c) != Relocated(q2, p, c)
  {
    if Within(q1, p) { RebaseLands(q1, p, c); }
    if Within(q2, p) { RebaseLands(q2, p, c); }
    if Within(q1, p) && Within(q2, p) && Rebase(q1, p, c) == Rebase(q2, p, c) {
      RebaseInjective(q1, q2, p, c);
    }
  }

  lemma UnknownItemDistinct(w: World, path: Path, env: RemoteEnv, q1: Path, q2: Path)
    requires DirtyAt(w, path) ==> HasRoom(w, path, env)
    requires Sound(w) && path != ROOT && q1 in w.db.rows && q2 in w.db.rows && q1 != q2
    ensures PlaceAfterUnknown(w, path, env, q1) != PlaceAfterUnknown(w, path, env, q2)
  {
    if DirtyAt(w, path) {
      ResolveMovesAside(w, path, env);
      RelocatedDistinct(w, path, ConflictPath(w, path, env.stamp(path)), q1, q2);
    }
  }

  /** Two local versions never end up at one place. */
  lemma NothingMerges(w: World, path: Path, node: RemoteNode, env: RemoteEnv, q1: Path, q2: Path)
    requires Sound(w) && path != ROOT && IsFolder(w.disk, Parent(path))
    requires RoomAside(w, path, node, env) && q1 != q2 && LocalWork(w, q1) && LocalWork(w, q2)
    ensures PlaceAfter(w, path, node, env, q1) != PlaceAfter(w, path, node, env, q2)
  {
    var known := FindById(w.db.rows, node.id, env);
    if known.Some? && DirtyAt(w, known.value) && Conflicts(w.db.rows[known.value], path, node) {
      var p := known.value;
      var c, w1 := ConflictPath(w, p, env.stamp(p)), ResolveConflict(w, p, env).world;
      ResolveMovesAside(w, p, env);
      MovedAsideSound(w, p, c, w1);
      MovedAsideKeeps(w, p, c, w1, q1);
      MovedAsideKeeps(w, p, c, w1, q2);
      RelocatedDistinct(w, p, c, q1, q2);
      UnknownItemDistinct(w1, path, env, Relocated(q1, p, c), Relocated(q2, p, c));
    } else if known.None? {
      UnknownItemDistinct(w, path, env, q1, q2);
    }
  }

  // ---- a whole listing -------------------------------------------------------------------

  lemma DirsRooted(d: Disk, p: Path)
    requires Rooted(d) && CreateDirAll(d, p).Ok?
    ensures Rooted(CreateDirAll(d, p).value) && IsFolder(CreateDirAll(d, p).value, p)
  {
    var d' := CreateDirAll(d, p).value;
    assert p[..|p|] == p;
    forall k | k in d' && k != ROOT ensures Parent(k) in d' && d'[Parent(k)].Dir? {
      if k !in d {
        var i :| 0 <= i <= |p| && k == p[..i];
        assert Parent(k) == p[..i - 1] && !IsFile(d, p[..i - 1]);
      }
    }
  }

  lemma PlacedRooted(d: Disk, path: Path, size: nat, mtime: int)
    requires Rooted(d) && path != ROOT
    ensures var e := EnsureDir(d, path); e.Ok? ==> Rooted(e.value) && IsFolder(e.value, Parent(path))
    ensures var e := Placeholder(d, path, size, mtime); e.Ok? ==> Rooted(e.value) && IsFolder(e.value, Parent(path))
  {
    if EnsureDir(d, path).Ok? {
      var d0 := if IsFile(d, path) then d - {path} else d;
      assert Rooted(d0);
      DirsRooted(d0, path);
    }
    if CreateDirAll(d, Parent(path)).Ok? {
      DirsRooted(d, Parent(path));
      ReplacedRooted(CreateDirAll(d, Parent(path)).value, path, Data(Zeros(size), ClampTime(mtime)));
    }
  }

  lemma ReplacedRooted(d: Disk, path: Path, file: Inode)
    requires Rooted(d) && path != ROOT && IsFolder(d, Parent(path)) && file.Data?
    ensures var d' := RemoveTree(d, path)[path := file]; Rooted(d') && IsFolder(d', Parent(path))
  {
    forall k | k in d && k != ROOT && !Within(k, path) ensures !Within(Parent(k), path) {
      assert Within(k, Parent(k));
    }
  }

  /** Applying an item leaves a sound world, and the folder of the item a folder. */
  lemma ItemKeepsSound(w: World, path: Path, node: RemoteNode, env: RemoteEnv)
    requires Sound(w) && path != ROOT && IsFolder(w.disk, Parent(path))
    requires FreshFor(w, path, node, env) && Covered(w, path, node, env) && RoomAside(w, path, node, env)
    requires ApplyItem(w, path, node, env).ok
    ensures var w' := ApplyItem(w, path, node, env).world; Sound(w') && IsFolder(w'.disk, Parent(path))
  {
    var known := FindById(w.db.rows, node.id, env);
    if known.None? {
      UnknownKeepsSound(w, path, node, env);
    } else if DirtyAt(w, known.value) {
      if Conflicts(w.db.rows[known.value], path, node) {
        ResolveMovesAside(w, known.value, env);
        var w1 := ResolveConflict(w, known.value, env).world;
        MovedAsideSound(w, known.value, ConflictPath(w, known.value, env.stamp(known.value)), w1);
        UnknownKeepsSound(w1, path, node, env);
      }
    } else {
      PlacedRooted(w.disk, path, node.size, node.modified);
    }
  }

  lemma UnknownKeepsSound(w: World, path: Path, node: RemoteNode, env: RemoteEnv)
    requires Sound(w) && path != ROOT && (DirtyAt(w, path) ==> HasRoom(w, path, env))
    requires ApplyUnknown(w, path, node, env).ok
    ensures var w' := ApplyUnknown(w, path, node, env).world; Sound(w') && IsFolder(w'.disk, Parent(path))
  {
    if DirtyAt(w, path) {
      ResolveMovesAside(w, path, env);
      var w1 := ResolveConflict(w, path, env).world;
      MovedAsideSound(w, path, ConflictPath(w, path, env.stamp(path)), w1);
      PlacedRooted(w1.disk, path, node.size, node.modified);
    } else {
      PlacedRooted(w.disk, path, node.size, node.modified);
    }
  }

  /** Every item of the answer is, when its turn comes, one that can be applied without harm. */
  ghost predicate Harmless(w: World, p: Path, answer: seq<RemoteNode>, envs: seq<RemoteEnv>)
    requires |envs| == |answer| && FreshAll(w, p, answer, envs)
    decreases |answer|
  {
    answer == [] ||
    var target := Join(p, answer[0].name);
    if target.None? then Harmless(w, p, answer[1..], envs[1..])
    else
      && Covered(w, target.value, answer[0], envs[0]) && NoFileOverFolder(w, target.value, answer[0])
      && RoomAside(w, target.value, answer[0], envs[0])
      && var a := ApplyItem(w, target.value, answer[0], envs[0]);
         a.ok ==> Harmless(a.world, p, answer[1..], envs[1..])
  }

  /** Where the local work at `q` is after the whole answer. */
  ghost function PlaceAfterAll(w: World, p: Path, answer: seq<RemoteNode>, envs: seq<RemoteEnv>, q: Path): Path
    requires |envs| == |answer| && FreshAll(w, p, answer, envs)
    decreases |answer|
  {
    if answer == [] then q
    else
      var target := Join(p, answer[0].name);
      if target.None? then PlaceAfterAll(w, p, answer[1..], envs[1..], q)
      else
        var a := ApplyItem(w, target.value, answer[0], envs[0]);
        var q1 := PlaceAfter(w, target.value, answer[0], envs[0], q);
        if a.ok then PlaceAfterAll(a.world, p, answer[1..], envs[1..], q1) else q
  }

  /** A whole answer is applied, and every live locally changed file keeps its bytes. */
  lemma {:induction false} ListingKeepsLocalWork(w: World, p: Path, answer: seq<RemoteNode>, envs: seq<RemoteEnv>,
                                                 q: Path)
    requires |envs| == |answer| && FreshAll(w, p, answer, envs) && Harmless(w, p, answer, envs)
    requires Sound(w) && IsFolder(w.disk, p) && LocalWork(w, q)
    ensures var a := ApplyAll(w, p, answer, envs);
            a.ok && Sound(a.world) && KeptAt(w, q, a.world, PlaceAfterAll(w, p, answer, envs, q))
    decreases |answer|
  {
    if answer != [] {
      var target := Join(p, answer[0].name);
      if target.None? {
        ListingKeepsLocalWork(w, p, answer[1..], envs[1..], q);
      } else {
        assert Parent(target.value) == p;
        NoSilentOverwrite(w, target.value, answer[0], envs[0], q);
        ItemKeepsSound(w, target.value, answer[0], envs[0]);
        var w1 := ApplyItem(w, target.value, answer[0], envs[0]).world;
        var q1 := PlaceAfter(w, target.value, answer[0], envs[0], q);
        ListingKeepsLocalWork(w1, p, answer[1..], envs[1..], q1);
        KeptTwice(w, q, w1, q1, ApplyAll(w1, p, answer[1..], envs[1..]).world,
                  PlaceAfterAll(w1, p, answer[1..], envs[1..], q1));
      }
    }
  }

  /** And no two of them end up at one place. */
  lemma {:induction false} ListingMergesNothing(w: World, p: Path, answer: seq<RemoteNode>, envs: seq<RemoteEnv>,
                                                q1: Path, q2: Path)
    requires |envs| == |answer| && FreshAll(w, p, answer, envs) && Harmless(w, p, answer, envs)
    requires Sound(w) && IsFolder(w.disk, p) && LocalWork(w, q1) && LocalWork(w, q2) && q1 != q2
    ensures PlaceAfterAll(w, p, answer, envs, q1) != PlaceAfterAll(w, p, answer, envs, q2)
    decreases |answer|
  {
    if answer != [] {
      var target := Join(p, answer[0].name);
      if target.None? {
        ListingMergesNothing(w, p, answer[1..], envs[1..], q1, q2);
      } else {
        assert Parent(target.value) == p;
        NoSilentOverwrite(w, target.value, answer[0], envs[0], q1);
        NoSilentOverwrite(w, target.value, answer[0], envs[0], q2);
        NothingMerges(w, target.value, answer[0], envs[0], q1, q2);
        ItemKeepsSound(w, target.value, answer[0], envs[0]);
        ListingMergesNothing(ApplyItem(w, target.value, answer[0], envs[0]).world, p, answer[1..], envs[1..],
                             PlaceAfter(w, target.value, answer[0], envs[0], q1),
                             PlaceAfter(w, target.value, answer[0], envs[0], q2));
      }
    }
  }

  // ---- the fallback can overwrite ----------------------------------------------------------

  /** A file name the conflict suffix makes too long, and a time stamp that makes a short one. */
  predicate TooLong(name: string, stamp: string) {
    && IsValidName(name) && Utf8Length(name) + 16 + Utf8Length(stamp) > 255
    && IsValidName("conflict-" + stamp) && name != "conflict-" + stamp
  }

  /** The locally changed version of a file iCloud has. */
  function ChangedHere(p: Path): Row {
    Row(File, Parent(p), Some("A"), Some("e0"), 1, 0, true, true, false, None, Some(p))
  }

  /** Two files were changed here and on iCloud.  The first conflict, a moment ago, kept the local
      version `c` under the short name; the second, on `p`, is still to be found. */
  function SecondConflict(p: Path, c: Path): World {
    World(Db(map[p := ChangedHere(p), c := LocalRow(c, File, 0)],
             [Op(UpdateOp, p, None), Op(ConflictCopyOp, c, None)], map[]),
          map[ROOT := Dir, p := Data([1], 0), c := Data([2], 0)])
  }

  lemma NoChildOfFile(d: Disk, c: Path)
    requires Rooted(d) && IsFile(d, c)
    ensures !HasChild(d, c)
  {
    forall k | k in d && k != c && Within(k, c) ensures false {
      AncestorsAreFolders(d, k, c);
    }
  }

  /** Whenever the fallback name is itself a local version: the mirror puts the second version
      over the first, the database refuses and rolls back. */
  lemma FallbackOverwrites(w: World, p: Path, env: RemoteEnv)
    requires Sound(w) && UsesFallback(w, p, env.stamp(p)) && Fallback(p, env.stamp(p)) != p
    requires LocalWork(w, p) && LocalWork(w, Fallback(p, env.stamp(p)))
    ensures var c, a := Fallback(p, env.stamp(p)), ResolveConflict(w, p, env);
            && !a.ok && a.world.db == w.db && p !in a.world.disk
            && IsFile(a.world.disk, c) && a.world.disk[c] == w.disk[p]
            && forall k :: k in a.world.disk && k != c ==> k in w.disk && a.world.disk[k] == w.disk[k]
  {
    var c := Fallback(p, env.stamp(p));
    ConflictPathIsBeside(w, p, env.stamp(p));
    NoChildOfFile(w.disk, c);
    NoChildOfFile(w.disk, p);
    AsideOnDisk(w.disk, p, c);
    RebaseLands(p, p, c);
    assert Clash(w.db.rows, p, c);
    MoveTreeAt(w.disk, p, c);
    RebaseLands(c, c, p);
    forall k | Within(k, c) && Rebase(k, c, p) in w.disk ensures k == c {
      RebaseLands(k, c, p);
    }
  }

  lemma SecondConflictIsSound(p: Path, c: Path)
    requires |p| == 1 && |c| == 1 && p != c
    ensures var w := SecondConflict(p, c); Sound(w) && LocalWork(w, p) && LocalWork(w, c)
    ensures SecondConflict(p, c).disk[p].bytes == [1] && SecondConflict(p, c).disk[c].bytes == [2]
  {
    assert Parent(p) == ROOT && Parent(c) == ROOT;
  }

  lemma SecondIsFound(p: Path, c: Path, env: RemoteEnv)
    requires p != c
    ensures FindById(SecondConflict(p, c).db.rows, "A", env) == Some(p)
  {
    assert SecondConflict(p, c).db.rows[p].remoteId == Some("A");
  }

  /** Within the same second: no file holds the first version any more, and its row now stands
      over the bytes of the second. */
  lemma SecondConflictOverwritesTheFirst(name: string, stamp: string, env: RemoteEnv)
    requires TooLong(name, stamp) && env.stamp([name]) == stamp
    ensures var p, c := [name], ["conflict-" + stamp];
            var w, node := SecondConflict(p, c), RemoteNode("A", Some("e1"), name, File, 1, 0);
            var a := ApplyItem(w, p, node, env);
            && LocalWork(w, p) && LocalWork(w, c) && w.disk[c].bytes == [2]
            && !a.ok && a.world.db == w.db
            && forall k :: IsFile(a.world.disk, k) ==> a.world.disk[k].bytes == [1]
  {
    var p, c := [name], ["conflict-" + stamp];
    var w := SecondConflict(p, c);
    SecondConflictIsSound(p, c);
    LongNamesFallBack(w, p, stamp);
    SecondIsFound(p, c, env);
    assert Fallback(p, stamp) == c;
    FallbackOverwrites(w, p, env);
  }

  /** Such names exist: 230 letters, and a stamp of fourteen digits. */
  lemma LongNamesExist(name: string, stamp: string)
    requires Plain(name) && Plain(stamp) && |name| == 230 && |stamp| == 14
    ensures TooLong(name, stamp)
  {
    PlainLength(name);
    PlainLength(stamp);
    ShortNameIsPlain(stamp);
    PlainLength("conflict-" + stamp);
    assert |"."| == 1 && |".."| == 2;
  }

  lemma ShortNameIsPlain(stamp: string)
    requires Plain(stamp)
    ensures Plain("conflict-" + stamp) && |"conflict-" + stamp| == 9 + |stamp|
  {
  }
}
