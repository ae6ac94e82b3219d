/** Decimal numbers as text, and searching numbered names for a free one. */
module Search {

  function Digit(d: nat): char
    requires d < 10
  {
    "0123456789"[d]
  }

  function Decimal(n: nat): string {
    if n < 10 then [Digit(n)] else Decimal(n / 10) + [Digit(n % 10)]
  }

  lemma {:induction false} DecimalInjective(m: nat, n: nat)
    ensures Decimal(m) == Decimal(n) ==> m == n
  {
    if Decimal(m) == Decimal(n) {
      assert |Decimal(m)| == |Decimal(n)|;
      DecimalLength(m);
      DecimalLength(n);
      assert Decimal(m)[|Decimal(m)| - 1] == Digit(m % 10) && Decimal(n)[|Decimal(n)| - 1] == Digit(n % 10);
      if m >= 10 && n >= 10 {
        assert Decimal(m)[..|Decimal(m)| - 1] == Decimal(m / 10);
        assert Decimal(n)[..|Decimal(n)| - 1] == Decimal(n / 10);
        DecimalInjective(m / 10, n / 10);
      }
    }
  }

  lemma DecimalLength(n: nat)
    ensures |Decimal(n)| >= 1 && (|Decimal(n)| == 1 <==> n < 10)
  {
  }

  lemma {:induction false} DecimalGrows(m: nat, n: nat)
    requires m <= n
    ensures |Decimal(m)| <= |Decimal(n)|
    decreases n
  {
    if n >= 10 {
      DecimalGrows(if m >= 10 then m / 10 else 0, n / 10);
    }
  }

  lemma {:induction false} DecimalIsDigits(n: nat)
    ensures forall i :: 0 <= i < |Decimal(n)| ==> '0' <= Decimal(n)[i] <= '9'
  {
    if n >= 10 {
      DecimalIsDigits(n / 10);
    }
  }

  // ---- pigeonhole -----------------------------------------------------------------------

  ghost predicate Distinct<T(!new)>(f: nat -> T) {
    forall i: nat, j: nat :: 1 <= i < j ==> f(i) != f(j)
  }

  ghost function Tried<T(!new)>(f: nat -> T, n: nat): set<T> {
    if n == 0 then {} else Tried(f, n - 1) + {f(n)}
  }

  lemma {:induction false} TriedSize<T(!new)>(f: nat -> T, n: nat)
    requires Distinct(f)
    ensures |Tried(f, n)| == n && forall x :: x in Tried(f, n) ==> exists i: nat :: 1 <= i <= n && x == f(i)
  {
    if n > 0 {
      TriedSize(f, n - 1);
      assert f(n) !in Tried(f, n - 1);
    }
  }

  lemma {:induction false} SubsetCardinality<T>(a: set<T>, b: set<T>)
    requires a <= b
    ensures |a| <= |b|
    decreases |a|
  {
    if a != {} {
      var x :| x in a;
      SubsetCardinality(a - {x}, b - {x});
    }
  }

  /** Among the first `|taken| + 1` different names one is not taken. */
  lemma Pigeonhole<T(!new)>(f: nat -> T, taken: set<T>) returns (n: nat)
    requires Distinct(f)
    ensures 1 <= n <= |taken| + 1 && f(n) !in taken
  {
    var last := |taken| + 1;
    TriedSize(f, last);
    if Tried(f, last) <= taken {
      SubsetCardinality(Tried(f, last), taken);
    }
    var x :| x in Tried(f, last) && x !in taken;
    n :| 1 <= n <= last && x == f(n);
  }
}
