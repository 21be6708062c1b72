/** What the tasks hold between them: slots, connections, wakes. One weight per task,
    summed over all tasks. */
module PoolTotals {
  import opened PoolProtocol
  import opened Sums

  function Owed(cont: Cont): nat {
    if cont.PopOn? && cont.owed then 1 else 0
  }

  /** A slot with a connection behind it. */
  const ONE := Held(1, 1, 0)
  const UNNOTED := Lag(1, 0)

  /** What one task weighs.
      - slots: slots reserved, leased, or behind a connection being dropped
      - conns: connections the task holds, dropped or not
      - leases: 1 for a lease
      - unnoted: connections opened and not yet counted as closed, taken or abandoned
      - idle: how far the idle gauge runs ahead of the idle list
      - woken: 1 for a parked task that was woken and has not acted
      - passing: wakes still to be sent, and woken tasks in the middle of acting */
  function Weigh(t: Task): Tally {
    match t
    case Start(_) => ZERO
    case Parked(_, woken) => Tally(NOTHING, EVEN, Wakes(if woken then 1 else 0, 0))
    case Discarding(_, _, owed, _, _) => Tally(ONE, UNNOTED, Wakes(0, if owed then 1 else 0))
    case Waking(units, cont) => Tally(NOTHING, EVEN, Wakes(0, units + Owed(cont)))
    case Validating(_, _) => Tally(ONE, UNNOTED, Wakes(0, 0))
    case DroppingHeld(_, cont) => Tally(ONE, EVEN, Wakes(0, Owed(cont)))
    case Dialling(_) => Tally(Held(1, 0, 0), EVEN, Wakes(0, 0))
    case Backoff(_) => ZERO
    case Lease(_) => Tally(Held(1, 1, 1), UNNOTED, Wakes(0, 0))
    case AskBroken(_) => Tally(ONE, UNNOTED, Wakes(0, 0))
    case DroppingReturn(_, _) => Tally(ONE, UNNOTED, Wakes(0, 0))
    case Reaping(left, total) => Tally(Held(total, |left|, 0), Lag(0, total), Wakes(0, 0))
    case Clearing(left, total) => Tally(Held(total, |left|, 0), Lag(total, total), Wakes(0, 0))
    case Done(_) => ZERO
  }

  function Weights(tasks: seq<Task>): (r: seq<Tally>)
    ensures |r| == |tasks|
    ensures forall k :: 0 <= k < |r| ==> r[k] == Weigh(tasks[k])
  {
    seq(|tasks|, k requires 0 <= k < |tasks| => Weigh(tasks[k]))
  }

  function Total(tasks: seq<Task>): Tally {
    Sum(Weights(tasks))
  }

  /** Replacing one task changes the totals by the difference of the two weights. */
  lemma TotalUpdate(tasks: seq<Task>, i: nat, t: Task)
    requires i < |tasks|
    ensures Exchanged(Total(tasks[i := t]), Weigh(tasks[i]), Total(tasks), Weigh(t))
  {
    assert Weights(tasks[i := t]) == Weights(tasks)[i := Weigh(t)];
    SumUpdate(Weights(tasks), i, Weigh(t));
  }

  lemma TotalAppend(tasks: seq<Task>, t: Task)
    ensures Exchanged(Total(tasks + [t]), ZERO, Total(tasks), Weigh(t))
  {
    assert Weights(tasks + [t]) == Weights(tasks) + [Weigh(t)];
    SumAppend(Weights(tasks), Weigh(t));
  }
}
