/**
 The spinlock that guards the semaphore and the mutex.
 */
module Spinlocks {
  /** `Lost`: set, but the process that set it has returned from the operation that it guards. */
  datatype Spinlock = Free | Held(holder: nat) | Lost

  /** Event `e` occurs `n` times, and ends the run; what else happens on the way is open. */
  ghost predicate EndsAfter<E>(es: seq<E>, e: E, n: nat) {
    es != [] && es[|es| - 1] == e && multiset(es)[e] == n
  }

  lemma EndsRest<E>(es: seq<E>, e: E, n: nat)
    requires EndsAfter(es, e, n)
    ensures n > 0 && es != []
    ensures if es[0] == e then (if n == 1 then es == [e] else EndsAfter(es[1..], e, n - 1)) else EndsAfter(es[1..], e, n)
  {
    assert es == [es[0]] + es[1..];
    if |es| > 1 {
      assert es[1..][|es| - 2] == e && e in es[1..];
    }
  }
}
