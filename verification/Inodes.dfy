/** The kernel's inode numbers and iCloud paths. */
module Inodes {
  import opened Paths

  const ROOT_INO := 1

  /** The table as one map; the other direction is its inverse. */
  datatype Table = Table(paths: map<nat, Path>, next: nat)

  /** Inode 1 is the root, no path has two numbers, and all numbers are below `next`. */
  ghost predicate Sound(t: Table) {
    && ROOT_INO in t.paths && t.paths[ROOT_INO] == ROOT
    && (forall i, j :: i in t.paths && j in t.paths && t.paths[i] == t.paths[j] ==> i == j)
    && (forall i :: i in t.paths ==> i < t.next)
  }

  /** Everything at or below `p` is forgotten; the root never is. */
  function Forgotten(t: Table, p: Path): Table {
    if p == ROOT then t else t.(paths := map i | i in t.paths && !Within(t.paths[i], p) :: t.paths[i])
  }

  /** Numbers below `from` follow it, those below `to` are dropped first. */
  function Renamed(t: Table, from: Path, to: Path): Table {
    if from == to || from == ROOT || to == ROOT then t
    else
      t.(paths := map i | i in t.paths && !Within(t.paths[i], to) ::
           if Within(t.paths[i], from) then Rebase(t.paths[i], from, to) else t.paths[i])
  }

  ghost function Assigned(t: Table, p: Path): Table {
    if exists i :: i in t.paths && t.paths[i] == p then t else Table(t.paths[t.next := p], t.next + 1)
  }

  datatype Use = Lookup(path: Path) | Remove(path: Path) | Rename(from: Path, to: Path)

  ghost function After(t: Table, uses: seq<Use>): Table
    decreases |uses|
  {
    if uses == [] then t
    else
      After(match uses[0]
            case Lookup(p) => Assigned(t, p)
            case Remove(p) => Forgotten(t, p)
            case Rename(from, to) => Renamed(t, from, to),
            uses[1..])
  }

  lemma RenamedSound(t: Table, from: Path, to: Path)
    requires Sound(t)
    ensures Sound(Renamed(t, from, to))
  {
    var t' := Renamed(t, from, to);
    forall i, j | i in t'.paths && j in t'.paths && t'.paths[i] == t'.paths[j] ensures i == j {
      RenamedDistinct(t, from, to, i, j);
    }
  }

  lemma RenamedDistinct(t: Table, from: Path, to: Path, i: nat, j: nat)
    requires Sound(t) && i in Renamed(t, from, to).paths && j in Renamed(t, from, to).paths
    requires Renamed(t, from, to).paths[i] == Renamed(t, from, to).paths[j]
    ensures i == j
  {
    var p, q := t.paths[i], t.paths[j];
    if Renamed(t, from, to) != t {
      if Within(p, from) { RebaseLands(p, from, to); }
      if Within(q, from) { RebaseLands(q, from, to); }
      if Within(p, from) && Within(q, from) { RebaseInjective(p, q, from, to); }
    }
  }

  /** In every run the table stays sound, numbers only grow, and one that was dropped is never
      handed out again. */
  lemma {:induction false} NeverRecycled(t: Table, uses: seq<Use>)
    requires Sound(t)
    ensures var t' := After(t, uses);
            && Sound(t') && t.next <= t'.next
            && forall i :: i in t'.paths && i < t.next ==> i in t.paths
    decreases |uses|
  {
    if uses != [] {
      match uses[0]
      case Lookup(p) => NeverRecycled(Assigned(t, p), uses[1..]);
      case Remove(p) => NeverRecycled(Forgotten(t, p), uses[1..]);
      case Rename(from, to) =>
        RenamedSound(t, from, to);
        NeverRecycled(Renamed(t, from, to), uses[1..]);
    }
  }

  ghost predicate HasNumber(t: Table, p: Path) {
    exists i :: i in t.paths && t.paths[i] == p
  }

  /** What each use does to the numbers: a path that is looked up has one, everything at or below a
      removed path loses its, and a rename carries those below along and drops those it covers. */
  lemma UsesMean(t: Table, p: Path, to: Path)
    requires Sound(t)
    ensures HasNumber(Assigned(t, p), p)
    ensures forall i :: i in t.paths ==> i in Assigned(t, p).paths && Assigned(t, p).paths[i] == t.paths[i]
    ensures forall q :: HasNumber(Assigned(t, p), q) ==> q == p || HasNumber(t, q)
    ensures p != ROOT ==> forall q :: HasNumber(Forgotten(t, p), q) <==> HasNumber(t, q) && !Within(q, p)
    ensures forall i :: i in Forgotten(t, p).paths ==> i in t.paths && Forgotten(t, p).paths[i] == t.paths[i]
    ensures p != ROOT && to != ROOT && Apart(p, to) ==>
              forall i, q :: Numbers(Renamed(t, p, to), i, q) <==>
                if Within(q, to) then Numbers(t, i, Rebase(q, to, p)) else Numbers(t, i, q) && !Within(q, p)
  {
    if !HasNumber(t, p) {
      assert Assigned(t, p).paths[t.next] == p;
    }
    forall q | HasNumber(t, q) && !Within(q, p) && p != ROOT ensures HasNumber(Forgotten(t, p), q) {
      var i :| i in t.paths && t.paths[i] == q;
      assert Forgotten(t, p).paths[i] == q;
    }
    if p != ROOT && to != ROOT && Apart(p, to) {
      forall i, q ensures Numbers(Renamed(t, p, to), i, q) <==>
                          if Within(q, to) then Numbers(t, i, Rebase(q, to, p)) else Numbers(t, i, q) && !Within(q, p)
      {
        RenamedNumber(t, p, to, i, q);
      }
    }
  }

  predicate Numbers(t: Table, i: nat, q: Path) {
    i in t.paths && t.paths[i] == q
  }

  lemma RenamedNumber(t: Table, p: Path, to: Path, i: nat, q: Path)
    requires p != ROOT && to != ROOT && Apart(p, to)
    ensures Numbers(Renamed(t, p, to), i, q) <==>
              if Within(q, to) then Numbers(t, i, Rebase(q, to, p)) else Numbers(t, i, q) && !Within(q, p)
  {
    if Within(q, to) {
      RebaseLands(q, to, p);
      ApartBelow(Rebase(q, to, p), p, to);
    }
    if i in t.paths && Within(t.paths[i], p) {
      RebaseLands(t.paths[i], p, to);
      ApartBelow(t.paths[i], p, to);
    }
  }

  /** An open file keeps its number through a rename, nested arguments included, and a rename
      there and back to a place nothing occupied changes nothing. */
  lemma RenameBack(t: Table, from: Path, to: Path)
    requires Sound(t) && Apart(from, to) && forall i :: i in t.paths ==> !Within(t.paths[i], to)
    ensures Renamed(Renamed(t, from, to), to, from) == t
  {
    var t1 := Renamed(t, from, to);
    var t2 := Renamed(t1, to, from);
    forall i | i in t.paths ensures i in t2.paths && t2.paths[i] == t.paths[i] {
      if Within(t.paths[i], from) {
        RebaseLands(t.paths[i], from, to);
        ApartBelow(t1.paths[i], to, from);
      }
    }
  }

  /** Two maps that undo each other. */
  ghost predicate Inverses(byIno: map<nat, Path>, byPath: map<Path, nat>) {
    && (forall i :: i in byIno ==> byIno[i] in byPath && byPath[byIno[i]] == i)
    && (forall p :: p in byPath ==> byPath[p] in byIno && byIno[byPath[p]] == p)
  }

  /** Those at or below `p` are gone, except the ones still in `todo`. */
  function Dropping(paths: map<nat, Path>, p: Path, todo: set<Path>): map<nat, Path> {
    map i | i in paths && (Within(paths[i], p) ==> paths[i] in todo) :: paths[i]
  }

  lemma DropStep(was: map<nat, Path>, byIno: map<nat, Path>, byPath: map<Path, nat>, p: Path, todo: set<Path>, k: Path)
    requires Inverses(byIno, byPath) && byIno == Dropping(was, p, todo) && k in todo && k in byPath && Within(k, p)
    ensures Inverses(byIno - {byPath[k]}, byPath - {k})
    ensures byIno - {byPath[k]} == Dropping(was, p, todo - {k})
  {
    assert forall i :: i in byIno && byIno[i] == k ==> i == byPath[k];
  }

  /** Those still in `todo` have not moved yet. */
  function Moving(paths: map<nat, Path>, from: Path, to: Path, todo: set<Path>): map<nat, Path> {
    map i | i in paths :: if Within(paths[i], from) && paths[i] !in todo then Rebase(paths[i], from, to) else paths[i]
  }

  lemma MoveStep(was: map<nat, Path>, wasByPath: map<Path, nat>, byIno: map<nat, Path>, byPath: map<Path, nat>,
                 from: Path, to: Path, todo: set<Path>, k: Path)
    requires Inverses(byIno, byPath) && byIno == Moving(was, from, to, todo) && k in todo && Within(k, from)
    requires Inverses(was, wasByPath) && k in wasByPath && forall i :: i in was ==> !Within(was[i], to)
    ensures k in byPath && Rebase(k, from, to) !in byPath
    ensures Inverses(byIno[byPath[k] := Rebase(k, from, to)], (byPath - {k})[Rebase(k, from, to) := byPath[k]])
    ensures byIno[byPath[k] := Rebase(k, from, to)] == Moving(was, from, to, todo - {k})
  {
    var i := wasByPath[k];
    assert byIno[i] == k && byPath[k] == i;
    RebaseLands(k, from, to);
    var j := Rebase(k, from, to);
    if j in byPath {
      var l := byPath[j];
      assert byIno[l] == j && Within(was[l], from) && Rebase(was[l], from, to) == j && was[l] !in todo;
      RebaseInjective(was[l], k, from, to);
    }
  }

  lemma ClearedThenMoved(t: Table, from: Path, to: Path)
    requires from != to && from != ROOT && to != ROOT
    ensures Moving(Forgotten(t, to).paths, from, to, {}) == Renamed(t, from, to).paths
  {
  }

  class InodeTable {
    var byIno: map<nat, Path>
    var byPath: map<Path, nat>
    var next: nat

    constructor ()
      ensures Valid() && View() == Table(map[ROOT_INO := ROOT], ROOT_INO + 1)
    {
      byIno, byPath, next := map[ROOT_INO := ROOT], map[ROOT := ROOT_INO], ROOT_INO + 1;
    }

    ghost function View(): Table
      reads this
    {
      Table(byIno, next)
    }

    ghost predicate Valid()
      reads this
    {
      Inverses(byIno, byPath) && Sound(View())
    }

    /** The inode for `p`, assigning one on first sight. */
    method InoFor(p: Path) returns (ino: nat)
      requires Valid()
      modifies this
      ensures Valid() && View() == Assigned(old(View()), p)
      ensures ino in byIno && byIno[ino] == p
      ensures p !in old(byPath) ==> ino == old(next)
    {
      if p in byPath { return byPath[p]; }
      ino := next;
      next := next + 1;
      byIno := byIno[ino := p];
      byPath := byPath[p := ino];
    }

    /** Forget `p` and everything below it. */
    method RemoveSubtree(p: Path)
      requires Valid()
      modifies `byIno, `byPath
      ensures Valid() && View() == Forgotten(old(View()), p)
    {
      if p == ROOT { return; }
      ghost var was := byIno;
      var doomed := set k | k in byPath && Within(k, p);
      var todo := doomed;
      assert byIno == Dropping(was, p, todo);
      while todo != {}
        invariant todo <= doomed && Inverses(byIno, byPath) && byIno == Dropping(was, p, todo)
        decreases todo
      {
        var k :| k in todo;
        if k in byPath {
          DropStep(was, byIno, byPath, p, todo, k);
          var ino := byPath[k];
          byPath := byPath - {k};
          byIno := byIno - {ino};
        }
        todo := todo - {k};
      }
    }

    /** One path at a time, in whatever order the map yields them. */
    method MoveAll(from: Path, to: Path)
      requires Inverses(byIno, byPath) && forall i :: i in byIno ==> !Within(byIno[i], to)
      modifies `byIno, `byPath
      ensures Inverses(byIno, byPath) && byIno == Moving(old(byIno), from, to, {})
    {
      ghost var was, wasByPath := byIno, byPath;
      var moving := set k | k in byPath && Within(k, from);
      var todo := moving;
      assert byIno == Moving(was, from, to, todo);
      while todo != {}
        invariant todo <= moving && Inverses(byIno, byPath) && byIno == Moving(was, from, to, todo)
        decreases todo
      {
        var k :| k in todo;
        MoveStep(was, wasByPath, byIno, byPath, from, to, todo, k);
        var ino, updated := byPath[k], Rebase(k, from, to);
        byPath := byPath - {k};
        byIno := byIno[ino := updated];
        byPath := byPath[updated := ino];
        todo := todo - {k};
      }
    }

    /** Follow a rename: the inodes under `from` now live under `to`.  Whatever occupied `to`
        is gone. */
    method Rename(from: Path, to: Path)
      requires Valid()
      modifies `byIno, `byPath
      ensures Valid() && View() == Renamed(old(View()), from, to)
    {
      if from == to || from == ROOT || to == ROOT { return; }
      ghost var was := View();
      RemoveSubtree(to);
      MoveAll(from, to);
      ClearedThenMoved(was, from, to);
      RenamedSound(was, from, to);
    }
  }
}
