/** The reconnect delay of the agent's transport: doubling from an initial value up to
    a cap, and starting over after a successful connection. */
module Backoff {

  function Pow2(k: nat): nat {
    if k == 0 then 1 else 2 * Pow2(k - 1)
  }

  /** The delay after `k` failures in a row; the cap does not apply to the first. */
  function Delay(initial: nat, max: nat, k: nat): nat {
    if k == 0 || initial * Pow2(k) < max then initial * Pow2(k) else max
  }

  lemma {:induction false} NextDelay(initial: nat, max: nat, k: nat)
    ensures Delay(initial, max, k + 1) == if 2 * Delay(initial, max, k) > max then max else 2 * Delay(initial, max, k)
    ensures Delay(initial, max, k + 1) <= max
  {
    var p := initial * Pow2(k);
    assert initial * Pow2(k + 1) == 2 * p;
  }

  /** The delays never decrease iff the initial one is within the cap. */
  lemma {:induction false} DelaysGrowIff(initial: nat, max: nat)
    ensures (forall k: nat :: Delay(initial, max, k) <= Delay(initial, max, k + 1)) <==> initial <= max
  {
    if initial <= max {
      forall k: nat ensures Delay(initial, max, k) <= Delay(initial, max, k + 1) {
        NextDelay(initial, max, k);
        if k > 0 {
          NextDelay(initial, max, k - 1);
        }
      }
    } else {
      assert initial * Pow2(1) > max;
      assert Delay(initial, max, 0) > Delay(initial, max, 0 + 1);
    }
  }

  /** `backoff`; the ghost field counts the calls since the last reset. */
  class Timer {
    var current: nat
    const initial: nat
    const max: nat
    ghost var failures: nat

    ghost predicate Valid()
      reads this
    {
      current == Delay(initial, max, failures)
    }

    constructor (initial: nat, max: nat)
      ensures Valid() && failures == 0 && this.initial == initial && this.max == max
    {
      this.current, this.initial, this.max, this.failures := initial, initial, max, 0;
    }

    method Next() returns (wait: nat)
      requires Valid()
      modifies this
      ensures Valid() && failures == old(failures) + 1
      ensures wait == Delay(initial, max, old(failures))
    {
      NextDelay(initial, max, failures);
      wait := current;
      current := current * 2;
      if current > max {
        current := max;
      }
      failures := failures + 1;
    }

    method Reset()
      requires Valid()
      modifies this
      ensures Valid() && failures == 0
    {
      current := initial;
      failures := 0;
    }
  }
}
