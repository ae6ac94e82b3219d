/** Paths as component sequences.

    An `IcPath` is a canonical string, and module `PathText` proves that canonical
    strings and component sequences are the same thing: parent, join, depth,
    containment and rebasing commute with the rendering.  Everything above the path
    layer therefore works on the component sequence. */
module Paths {

  type Path = seq<string>

  const ROOT: Path := []

  /** The containing folder; the root is its own parent. */
  function Parent(p: Path): Path {
    if p == [] then [] else p[..|p| - 1]
  }

  function Last(p: Path): string
    requires p != []
  {
    p[|p| - 1]
  }

  /** True when `p` is `prefix` or lies underneath it. */
  predicate Within(p: Path, prefix: Path) {
    prefix <= p
  }

  /** Replace the leading `from` with `to`. */
  function Rebase(p: Path, from: Path, to: Path): Path
    requires Within(p, from)
  {
    to + p[|from|..]
  }

  /** Neither path contains the other. */
  predicate Apart(p: Path, q: Path) {
    !Within(p, q) && !Within(q, p)
  }

  lemma RebaseLands(p: Path, from: Path, to: Path)
    requires Within(p, from)
    ensures Within(Rebase(p, from, to), to)
    ensures |Rebase(p, from, to)| == |to| + |p| - |from|
    ensures Rebase(Rebase(p, from, to), to, from) == p
    ensures Rebase(from, from, to) == to
    ensures Rebase(p, from, to) == to <==> p == from
  {
    assert p == from + p[|from|..];
    assert Rebase(p, from, to)[|to|..] == p[|from|..];
    assert from[|from|..] == [];
    if Rebase(p, from, to) == to {
      assert |p[|from|..]| == 0;
    }
  }

  lemma RebaseInjective(p: Path, q: Path, from: Path, to: Path)
    requires Within(p, from) && Within(q, from)
    requires Rebase(p, from, to) == Rebase(q, from, to)
    ensures p == q
  {
    RebaseLands(p, from, to);
    RebaseLands(q, from, to);
  }

  /** Rebasing keeps the shape of the subtree: containment in both directions. */
  lemma RebaseKeepsContainment(p: Path, q: Path, from: Path, to: Path)
    requires Within(p, from) && Within(q, from)
    ensures Within(Rebase(p, from, to), Rebase(q, from, to)) <==> Within(p, q)
  {
    RebaseLands(p, from, to);
    RebaseLands(q, from, to);
    var p', q' := Rebase(p, from, to), Rebase(q, from, to);
    if Within(p, q) {
      assert forall i | 0 <= i < |q'| :: p'[i] == q'[i] by {
        forall i | 0 <= i < |q'| ensures p'[i] == q'[i] {
          if i >= |to| { assert p[i - |to| + |from|] == q[i - |to| + |from|]; }
        }
      }
    }
    if Within(p', q') {
      forall i | 0 <= i < |q| ensures p[i] == q[i] {
        if i >= |from| { assert p'[i - |from| + |to|] == q'[i - |from| + |to|]; }
      }
    }
  }

  /** The parent of a moved item is the moved parent; the top lands in `to`'s parent. */
  lemma RebaseParent(p: Path, from: Path, to: Path)
    requires Within(p, from)
    ensures p != from ==> Within(Parent(p), from) && Parent(Rebase(p, from, to)) == Rebase(Parent(p), from, to)
    ensures p == from ==> Parent(Rebase(p, from, to)) == Parent(to)
  {
    RebaseLands(p, from, to);
    if p != from {
      assert |p| > |from|;
      assert Rebase(p, from, to) == to + p[|from|..];
    }
  }

  /** Two prefixes of one path are comparable, so nothing lies below two apart folders. */
  lemma ApartBelow(p: Path, a: Path, b: Path)
    requires Apart(a, b) && Within(p, a)
    ensures !Within(p, b)
  {
  }
}
