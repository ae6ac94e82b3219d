/** Mutual exclusion per key: a key is in the table only while somebody holds it. */
module Locks {
  import opened Rekeying

  /** The table and, for the argument, which thread holds what. */
  datatype Locking<K> = Locking(held: set<K>, holders: map<nat, K>)

  datatype Step<K> = Acquire(thread: nat, key: K) | Release(thread: nat)

  /** A thread waits while the key is held; this code takes one lock at a time. */
  predicate Enabled<K(==)>(l: Locking<K>, s: Step<K>) {
    match s
    case Acquire(thread, key) => thread !in l.holders && key !in l.held
    case Release(thread) => thread in l.holders
  }

  function Next<K(==)>(l: Locking<K>, s: Step<K>): Locking<K>
    requires Enabled(l, s)
  {
    match s
    case Acquire(thread, key) => Locking(l.held + {key}, l.holders[thread := key])
    case Release(thread) => Locking(l.held - {l.holders[thread]}, l.holders - {thread})
  }

  /** No key has two holders, and the table holds exactly the keys that have one. */
  ghost predicate Exclusive<K>(l: Locking<K>) {
    Injective(l.holders) && l.held == l.holders.Values
  }

  ghost predicate IsRun<K>(l: Locking<K>, steps: seq<Step<K>>)
    decreases |steps|
  {
    steps == [] || (Enabled(l, steps[0]) && IsRun(Next(l, steps[0]), steps[1..]))
  }

  ghost function Run<K>(l: Locking<K>, steps: seq<Step<K>>): Locking<K>
    requires IsRun(l, steps)
    decreases |steps|
  {
    if steps == [] then l else Run(Next(l, steps[0]), steps[1..])
  }

  lemma StepExclusive<K>(l: Locking<K>, s: Step<K>)
    requires Exclusive(l) && Enabled(l, s)
    ensures Exclusive(Next(l, s))
  {
    var l' := Next(l, s);
    match s
    case Acquire(thread, key) =>
      forall k | k in l'.held ensures k in l'.holders.Values {
        if k == key {
          assert l'.holders[thread] == key;
        } else {
          var t :| t in l.holders && l.holders[t] == k;
          assert l'.holders[t] == k;
        }
      }
    case Release(thread) =>
      forall k | k in l'.held ensures k in l'.holders.Values {
        var t :| t in l.holders && l.holders[t] == k;
        assert l'.holders[t] == k;
      }
      forall k | k in l'.holders.Values ensures k in l'.held {
        var t :| t in l'.holders && l'.holders[t] == k;
        assert l.holders[t] == k && l.holders[thread] in l.holders.Values;
      }
  }

  /** In every run of any number of threads. */
  lemma {:induction false} AlwaysExclusive<K>(l: Locking<K>, steps: seq<Step<K>>)
    requires Exclusive(l) && IsRun(l, steps)
    ensures Exclusive(Run(l, steps))
    decreases |steps|
  {
    if steps != [] {
      StepExclusive(l, steps[0]);
      AlwaysExclusive(Next(l, steps[0]), steps[1..]);
    }
  }

  /** The table itself; who holds what is there for the argument only. */
  class KeyedLocks<K(==)> {
    var held: set<K>
    ghost var holders: map<nat, K>

    ghost function View(): Locking<K>
      reads this
    {
      Locking(held, holders)
    }

    ghost predicate Valid()
      reads this
    {
      Exclusive(View())
    }

    constructor ()
      ensures Valid() && held == {}
    {
      held, holders := {}, map[];
    }

    /** Called when the wait is over: nobody holds the key, and now this thread alone does. */
    method Acquire(key: K, ghost thread: nat)
      requires Valid() && Enabled(View(), Step.Acquire(thread, key))
      modifies this
      ensures Valid() && View() == Next(old(View()), Step.Acquire(thread, key))
      ensures forall t :: t in holders && holders[t] == key ==> t == thread
    {
      StepExclusive(View(), Step.Acquire(thread, key));
      held := held + {key};
      holders := holders[thread := key];
    }

    /** The guard is dropped: nobody holds the key any more. */
    method Release(key: K, ghost thread: nat)
      requires Valid() && thread in holders && holders[thread] == key
      modifies this
      ensures Valid() && View() == Next(old(View()), Step.Release(thread))
      ensures key !in held && forall t :: t in holders ==> holders[t] != key
    {
      StepExclusive(View(), Step.Release(thread));
      held := held - {key};
      holders := holders - {thread};
    }
  }
}
