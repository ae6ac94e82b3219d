/** Moving the entries of a map to other keys, one at a time, in any order. */
module Rekeying {

  ghost predicate Injective<K, L>(f: map<K, L>) {
    forall k, k' :: k in f && k' in f && f[k] == f[k'] ==> k == k'
  }

  /** `now` is `was` with every key of `done` removed, those in `dest` being re-inserted
      under their new key with their new value. */
  ghost predicate Rekeyed<K, V>(was: map<K, V>, now: map<K, V>, done: set<K>, dest: map<K, K>, value: map<K, V>)
    requires dest.Keys == value.Keys
  {
    && (forall k :: k in was && k !in done ==> k in now && now[k] == was[k])
    && (forall k :: k in done ==> k !in now)
    && (forall k :: k in done && k in dest ==> dest[k] in now && now[dest[k]] == value[k])
    && (forall j :: j in now && j !in was ==> exists k :: k in done && k in dest && dest[k] == j)
  }

  ghost predicate FreshDestinations<K, V>(was: map<K, V>, dest: map<K, K>) {
    Injective(dest) && forall k :: k in dest ==> dest[k] !in was
  }

  /** One more key moves, or is dropped when it has no destination. */
  lemma RekeyStep<K, V>(was: map<K, V>, now: map<K, V>, done: set<K>, dest: map<K, K>, value: map<K, V>, k: K)
    requires dest.Keys == value.Keys && Injective(dest)
    requires forall i :: i in done + {k} && i in dest ==> dest[i] !in was
    requires Rekeyed(was, now, done, dest, value) && done <= was.Keys && k in was && k !in done
    ensures k in dest ==> Rekeyed(was, (now - {k})[dest[k] := value[k]], done + {k}, dest, value)
    ensures k !in dest ==> Rekeyed(was, now - {k}, done + {k}, dest, value)
  {
  }

  /** Every key `k` of `dest` renamed to `dest[k]`, carrying `value[k]`. */
  ghost function Image<K, V>(dest: map<K, K>, value: map<K, V>): map<K, V>
    requires Injective(dest) && dest.Keys == value.Keys
  {
    map k | k in dest :: dest[k] := value[k]
  }

  function Identity<K>(keys: set<K>): map<K, K> {
    map k | k in keys :: k
  }

  function Restrict<K, V>(m: map<K, V>, keys: set<K>): map<K, V> {
    map k | k in keys && k in m :: m[k]
  }

  /** Two passes over disjoint sets of keys, the second possibly landing on keys the
      first one freed, amount to one renaming. */
  lemma TwoPasses<K, V>(was: map<K, V>, mid: map<K, V>, now: map<K, V>,
                        done1: set<K>, dest1: map<K, K>, value1: map<K, V>,
                        done2: set<K>, dest2: map<K, K>, value2: map<K, V>,
                        dest: map<K, K>, value: map<K, V>)
    requires dest1.Keys == value1.Keys <= done1 && dest2.Keys == value2.Keys <= done2
    requires done1 !! done2 && done1 <= was.Keys && done2 <= was.Keys
    requires FreshDestinations(was, dest1) && FreshDestinations(mid, dest2)
    requires Rekeyed(was, mid, done1, dest1, value1) && Rekeyed(mid, now, done2, dest2, value2)
    requires dest == Identity(was.Keys - done1 - done2) + dest1 + dest2
    requires value == Restrict(was, was.Keys - done1 - done2) + value1 + value2
    requires Injective(dest)
    ensures now == Image(dest, value)
  {
    forall k | k in dest ensures dest[k] in now && now[dest[k]] == value[k] {
    }
    forall j | j in now ensures exists k :: k in dest && dest[k] == j {
      if j in mid {
        if j in was {
          assert j in dest && dest[j] == j;
        } else {
          var k :| k in done1 && k in dest1 && dest1[k] == j;
          assert dest[k] == j;
        }
      } else {
        var k :| k in done2 && k in dest2 && dest2[k] == j;
        assert dest[k] == j;
      }
    }
  }

  /** A pass that drops nothing is a renaming too. */
  lemma OnePass<K, V>(was: map<K, V>, now: map<K, V>, done: set<K>, some: map<K, K>, someValue: map<K, V>,
                      dest: map<K, K>, value: map<K, V>)
    requires some.Keys == someValue.Keys == done <= was.Keys && FreshDestinations(was, some)
    requires Rekeyed(was, now, done, some, someValue)
    requires dest.Keys == value.Keys == was.Keys && Injective(dest)
    requires forall k :: k in was ==> dest[k] == if k in done then some[k] else k
    requires forall k :: k in was ==> value[k] == if k in done then someValue[k] else was[k]
    ensures now == Image(dest, value)
  {
    forall k | k in dest ensures dest[k] in now && now[dest[k]] == value[k] {
    }
    forall j | j in now ensures exists k :: k in dest && dest[k] == j {
      if j in was {
        assert dest[j] == j;
      } else {
        var k :| k in done && k in some && some[k] == j;
        assert dest[k] == j;
      }
    }
  }
}
