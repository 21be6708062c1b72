/** Sums of tallies and of numbers, and how replacing one summand changes them. */
module Sums {

  /** Slots, connections and leases held. */
  datatype Held = Held(slots: nat, conns: nat, leases: nat)

  /** How far the statistics and the idle gauge run ahead. */
  datatype Lag = Lag(unnoted: nat, idle: nat)

  datatype Wakes = Wakes(woken: nat, passing: nat)

  datatype Tally = Tally(held: Held, lag: Lag, wakes: Wakes)

  const NOTHING := Held(0, 0, 0)
  const EVEN := Lag(0, 0)
  const ZERO := Tally(NOTHING, EVEN, Wakes(0, 0))

  /** Holds nothing, and only has wakes to pass on. */
  predicate Bare(t: Tally) {
    t.held == NOTHING && t.lag == EVEN && t.wakes.woken == 0
  }

  function Plus(a: Tally, b: Tally): Tally {
    Tally(Held(a.held.slots + b.held.slots, a.held.conns + b.held.conns, a.held.leases + b.held.leases),
          Lag(a.lag.unnoted + b.lag.unnoted, a.lag.idle + b.lag.idle),
          Wakes(a.wakes.woken + b.wakes.woken, a.wakes.passing + b.wakes.passing))
  }

  /** `a + b == c + d`, field by field. */
  predicate Exchanged(a: Tally, b: Tally, c: Tally, d: Tally) {
    && a.held.slots + b.held.slots == c.held.slots + d.held.slots
    && a.held.conns + b.held.conns == c.held.conns + d.held.conns
    && a.held.leases + b.held.leases == c.held.leases + d.held.leases
    && a.lag.unnoted + b.lag.unnoted == c.lag.unnoted + d.lag.unnoted
    && a.lag.idle + b.lag.idle == c.lag.idle + d.lag.idle
    && a.wakes.woken + b.wakes.woken == c.wakes.woken + d.wakes.woken
    && a.wakes.passing + b.wakes.passing == c.wakes.passing + d.wakes.passing
  }

  function Sum(ts: seq<Tally>): Tally {
    if ts == [] then ZERO else Plus(Sum(ts[..|ts| - 1]), ts[|ts| - 1])
  }

  lemma {:induction false} SumUpdate(ts: seq<Tally>, i: nat, t: Tally)
    requires i < |ts|
    ensures Exchanged(Sum(ts[i := t]), ts[i], Sum(ts), t)
  {
    var n := |ts| - 1;
    if i == n {
      assert ts[i := t][..n] == ts[..n];
    } else {
      assert ts[i := t][..n] == ts[..n][i := t];
      SumUpdate(ts[..n], i, t);
    }
  }

  lemma SumAppend(ts: seq<Tally>, t: Tally)
    ensures Sum(ts + [t]) == Plus(Sum(ts), t)
  {
    assert (ts + [t])[..|ts|] == ts;
  }

  function SumOf(ns: seq<nat>): nat {
    if ns == [] then 0 else SumOf(ns[..|ns| - 1]) + ns[|ns| - 1]
  }

  lemma {:induction false} SumOfUpdate(ns: seq<nat>, i: nat, n: nat)
    requires i < |ns|
    ensures SumOf(ns[i := n]) + ns[i] == SumOf(ns) + n
  {
    var last := |ns| - 1;
    if i == last {
      assert ns[i := n][..last] == ns[..last];
    } else {
      assert ns[i := n][..last] == ns[..last][i := n];
      SumOfUpdate(ns[..last], i, n);
    }
  }

  lemma SumOfAppend(ns: seq<nat>, n: nat)
    ensures SumOf(ns + [n]) == SumOf(ns) + n
  {
    assert (ns + [n])[..|ns|] == ns;
  }

  /** A pointwise smaller and no longer list has a smaller sum. */
  lemma {:induction false} SumOfBelow(ns: seq<nat>, ms: seq<nat>)
    requires |ns| <= |ms| && forall k :: 0 <= k < |ns| ==> ns[k] <= ms[k]
    ensures SumOf(ns) <= SumOf(ms)
  {
    if |ms| > 0 {
      if |ns| < |ms| {
        SumOfBelow(ns, ms[..|ms| - 1]);
      } else {
        SumOfBelow(ns[..|ns| - 1], ms[..|ms| - 1]);
      }
    }
  }
}
