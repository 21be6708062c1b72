/** No waiter of an open pool is woken without a cause: every wake answers for a slot given back, a
    connection put on the idle list, or a woken waiter that gave up. */
module PoolWakes {
  import opened PoolTypes
  import opened WaitQueue
  import opened PoolCore
  import opened PoolProtocol
  import opened Sums
  import opened PoolTotals
  import opened PoolBalance
  import opened PoolRuns
  import opened PoolAlone
  import opened PoolCalls

  /** Wakes that a task has still to send. */
  function Sending(t: Task): nat {
    if t.Waking? then t.units else 0
  }

  function SendingEach(tasks: seq<Task>): (r: seq<nat>)
    ensures |r| == |tasks|
    ensures forall k :: 0 <= k < |r| ==> r[k] == Sending(tasks[k])
  {
    seq(|tasks|, k requires 0 <= k < |tasks| => Sending(tasks[k]))
  }

  /** Wakes sent and still to be sent. */
  function AllWakes(s: State): nat {
    |s.core.queue.wokenLog| + SumOf(SendingEach(s.tasks))
  }

  /** A waiter that was woken is cancelled before it could act. */
  predicate GivesUp(s: State, e: Event) {
    e.Cancel? && e.i < |s.tasks| && s.tasks[e.i].Parked? && !Unregister(s.core.queue, s.tasks[e.i].id).1
  }

  /** Capacity that a step sets free, or passes on. */
  function Freed(s: State, e: Event): nat {
    var c, c' := s.core, Step(s, e).core;
    SatSub(c.slots, c'.slots) + SatSub(|c'.idle|, |c.idle|) + if GivesUp(s, e) then 1 else 0
  }

  /** The task's own share: what it sent and is to send grows by no more than what was freed. */
  predicate Covered(s: State, s': State, i: nat, freed: nat) {
    && i < |s.tasks| && i < |s'.tasks|
    && |s'.core.queue.wokenLog| + Sending(s'.tasks[i]) <= |s.core.queue.wokenLog| + Sending(s.tasks[i]) + freed
  }

  /** Slots given back and connections put on the idle list. */
  function Room(c: Core, c': Core): nat {
    SatSub(c.slots, c'.slots) + SatSub(|c'.idle|, |c.idle|)
  }

  lemma GoCovered(s: State, i: nat, cont: Cont)
    requires i < |s.tasks|
    ensures Covered(s, Go(s, i, cont), i, 0)
  {
  }

  /** What the task holds can be given back. */
  lemma DropCovered(s: State, i: nat)
    requires i < |s.tasks| && !s.core.closed && Weigh(s.tasks[i]).held.slots <= s.core.slots
    requires !s.tasks[i].Start? && !s.tasks[i].Waking? && !s.tasks[i].Reaping? && !s.tasks[i].Clearing?
    ensures Covered(s, AdvanceTask(s, i), i, Room(s.core, AdvanceTask(s, i).core))
  {
  }

  lemma BatchCovered(s: State, i: nat)
    requires i < |s.tasks| && !s.core.closed && Weigh(s.tasks[i]).held.slots <= s.core.slots
    requires s.tasks[i].Reaping? || s.tasks[i].Clearing?
    ensures Covered(s, AdvanceTask(s, i), i, Room(s.core, AdvanceTask(s, i).core))
  {
  }

  lemma WakeCovered(s: State, i: nat)
    requires i < |s.tasks| && s.tasks[i].Waking? && s.tasks[i].units > 0 && s.core.queue.entries != []
    ensures Covered(s, AdvanceTask(s, i), i, 0)
  {
  }

  lemma StartCovered(s: State, i: nat)
    requires i < |s.tasks| && s.tasks[i].Start?
    ensures Covered(s, AdvanceTask(s, i), i, 0)
  {
    var call := s.tasks[i].call;
    if FirstLoop(s.core, call).Some? {
      GoCovered(s, i, FirstLoop(s.core, call).value);
    }
  }

  lemma AdvanceCovered(s: State, i: nat)
    requires i < |s.tasks| && !s.core.closed && Weigh(s.tasks[i]).held.slots <= s.core.slots
    ensures Covered(s, AdvanceTask(s, i), i, Room(s.core, AdvanceTask(s, i).core))
  {
    var t := s.tasks[i];
    if t.Start? {
      StartCovered(s, i);
    } else if t.Reaping? || t.Clearing? {
      BatchCovered(s, i);
    } else if !t.Waking? {
      DropCovered(s, i);
    } else if t.units > 0 && s.core.queue.entries != [] {
      WakeCovered(s, i);
    } else {
      GoCovered(s, i, t.cont);
    }
  }

  lemma PollCovered(s: State, i: nat)
    requires i < |s.tasks| && !s.core.closed
    ensures Covered(s, PollTask(s, i), i, 0)
  {
    var t, c := s.tasks[i], s.core;
    if t.Parked? && ReadyNow(c) {
      GoCovered(With(s, SetQueue(c, Unregister(c.queue, t.id).0)), i, PopOn(Inner(true), c.clock, t.woken));
    } else if t.Backoff? {
      GoCovered(s, i, LoopTop(Inner(t.waited)));
    }
  }

  lemma ResolveCovered(s: State, i: nat, ok: bool)
    requires i < |s.tasks| && !s.core.closed && Weigh(s.tasks[i]).held.slots <= s.core.slots
    ensures Covered(s, ResolveTask(s, i, ok), i, Room(s.core, ResolveTask(s, i, ok).core))
  {
  }

  lemma CancelCovered(s: State, i: nat, timedOut: bool)
    requires i < |s.tasks| && !s.core.closed && Weigh(s.tasks[i]).held.slots <= s.core.slots
    ensures Covered(s, CancelTask(s, i, timedOut), i,
                    Room(s.core, CancelTask(s, i, timedOut).core) + if GivesUp(s, Cancel(i, timedOut)) then 1 else 0)
  {
  }

  lemma LeaseEndCovered(s: State, i: nat)
    requires i < |s.tasks| && !s.core.closed && Weigh(s.tasks[i]).held.slots <= s.core.slots
    ensures Covered(s, ReturnLease(s, i), i, 0)
    ensures Covered(s, TakeLease(s, i), i, Room(s.core, TakeLease(s, i).core))
  {
  }

  lemma NamedCovered(s: State, e: Event, i: nat)
    requires Balanced(s) && !s.core.closed && i < |s.tasks| && Names(e, i)
    ensures Covered(s, Step(s, e), i, Freed(s, e))
  {
    WithinTotals(s, i);
    match e
    case Advance(_) => AdvanceCovered(s, i);
    case Poll(_) => PollCovered(s, i);
    case Resolve(_, ok) => ResolveCovered(s, i, ok);
    case Cancel(_, timedOut) => CancelCovered(s, i, timedOut);
    case _ => LeaseEndCovered(s, i);
  }

  lemma SendingMoves(s: State, e: Event, i: nat)
    requires i < |s.tasks| && Names(e, i)
    ensures i < |Step(s, e).tasks|
    ensures SumOf(SendingEach(Step(s, e).tasks)) + Sending(s.tasks[i])
         == SumOf(SendingEach(s.tasks)) + Sending(Step(s, e).tasks[i])
  {
    var sending, sending' := SendingEach(s.tasks), SendingEach(Step(s, e).tasks);
    StepSpawns(s, e);
    forall k | 0 <= k < |sending| && k != i
      ensures sending'[k] == sending[k]
    {
      OthersGoOn(s, e, k);
    }
    assert sending' == sending[i := Sending(Step(s, e).tasks[i])];
    SumOfUpdate(sending, i, Sending(Step(s, e).tasks[i]));
  }

  lemma NamelessWakes(s: State, e: Event)
    requires Nameless(s, e)
    ensures AllWakes(Step(s, e)) == AllWakes(s)
  {
    if e.Spawn? {
      assert SendingEach(Step(s, e).tasks) == SendingEach(s.tasks) + [0];
      SumOfAppend(SendingEach(s.tasks), 0);
    } else {
      assert Step(s, e).tasks == s.tasks;
    }
  }

  lemma StepWakes(s: State, e: Event)
    requires Balanced(s) && !s.core.closed
    ensures AllWakes(Step(s, e)) <= AllWakes(s) + Freed(s, e)
  {
    if Nameless(s, e) {
      NamelessWakes(s, e);
    } else {
      NamedCovered(s, e, e.i);
      SendingMoves(s, e, e.i);
    }
  }

  /** Everything freed in a run. */
  ghost function AllFreed(cfg: Config, events: seq<Event>): nat {
    if events == [] then 0
    else
      var before := events[..|events| - 1];
      AllFreed(cfg, before) + Freed(Run(Init(cfg), before), events[|events| - 1])
  }

  predicate NeverClosed(events: seq<Event>) {
    forall k :: 0 <= k < |events| ==> !events[k].Close?
  }

  lemma {:induction false} StaysOpen(cfg: Config, events: seq<Event>)
    requires NeverClosed(events)
    ensures !Run(Init(cfg), events).core.closed
  {
    if events != [] {
      StaysOpen(cfg, events[..|events| - 1]);
      StepSettings(Run(Init(cfg), events[..|events| - 1]), events[|events| - 1]);
    }
  }

  /** In every run of an open pool, the wakes sent and still to be sent are no more than the slots given
      back, the connections put on the idle list, and the woken waiters that gave up. */
  lemma {:induction false} NoWakeWithoutCause(cfg: Config, events: seq<Event>)
    requires cfg.Valid() && NeverClosed(events)
    ensures AllWakes(Run(Init(cfg), events)) <= AllFreed(cfg, events)
  {
    if events == [] {
      assert SendingEach([]) == [];
    } else {
      var before, e := events[..|events| - 1], events[|events| - 1];
      NoWakeWithoutCause(cfg, before);
      EveryRun(cfg, before);
      StaysOpen(cfg, before);
      StepWakes(Run(Init(cfg), before), e);
    }
  }
}
