/** One task running by itself to its next await: what a call does when no call-out
    re-enters the pool. */
module PoolAlone {
  import opened PoolTypes
  import opened WaitQueue
  import opened PoolCore
  import opened PoolProtocol
  import opened PoolTotals
  import opened PoolRuns

  /** Standing at a call-out or at the head of its code, with nothing to wait for. */
  predicate InCode(t: Task) {
    t.Start? || t.Waking? || t.Discarding? || t.DroppingHeld? || t.DroppingReturn? || t.Reaping? || t.Clearing?
  }

  function Rank(t: Task): nat {
    if t.Start? then 3 else if t.Waking? then 1 else 2
  }

  function Size(t: Task): nat {
    match t
    case Waking(units, _) => units
    case Reaping(left, _) => |left|
    case Clearing(left, _) => |left|
    case _ => 0
  }

  /** Carrying on stays in the code only by discarding an idle connection. */
  lemma GoProgress(s: State, i: nat, cont: Cont)
    requires i < |s.tasks|
    ensures InCode(Go(s, i, cont).tasks[i]) ==> |Go(s, i, cont).core.idle| < |s.core.idle|
  {
  }

  /** Each step of a task that goes on in its code empties the idle list or gets nearer the end. */
  lemma AdvanceProgress(s: State, i: nat)
    requires i < |s.tasks| && InCode(s.tasks[i]) && InCode(AdvanceTask(s, i).tasks[i])
    ensures var s' := AdvanceTask(s, i);
            var t, t' := s.tasks[i], s'.tasks[i];
            || |s'.core.idle| < |s.core.idle|
            || (|s'.core.idle| == |s.core.idle| && (Rank(t') < Rank(t) || (Rank(t') == Rank(t) && Size(t') < Size(t))))
  {
    var t, c := s.tasks[i], s.core;
    if t.Waking? {
      GoProgress(s, i, t.cont);
    } else if t.Start? && FirstLoop(c, t.call).Some? {
      GoProgress(s, i, FirstLoop(c, t.call).value);
    }
  }

  lemma AdvanceTasks(s: State, i: nat)
    requires i < |s.tasks|
    ensures |AdvanceTask(s, i).tasks| == |s.tasks|
  {
  }

  /** Run task `i` until it waits for something. */
  function Alone(s: State, i: nat): (r: State)
    requires i < |s.tasks|
    ensures i < |r.tasks| && !InCode(r.tasks[i])
    decreases |s.core.idle|, Rank(s.tasks[i]), Size(s.tasks[i])
  {
    if !InCode(s.tasks[i]) then s
    else
      AdvanceTasks(s, i);
      var s' := AdvanceTask(s, i);
      if !InCode(s'.tasks[i]) then s'
      else
        AdvanceProgress(s, i);
        Alone(s', i)
  }

  // ---- A resolved wait pays off ----

  /** Holding an idle connection, a fresh reservation or already a lease. */
  predicate Served(t: Task) {
    t.Validating? || t.Dialling? || t.Lease?
  }

  /** A task on its way through `pop_fresh_idle` and `try_reserve`, with capacity in reach:
      free already, or behind the connection it is discarding. */
  ghost predicate InReach(s: State, i: nat) {
    && i < |s.tasks| && !s.core.closed && |s.core.idle| <= s.core.slots <= s.core.cfg.maxSize
    && (|| (s.tasks[i].Waking? && s.tasks[i].cont.PopOn? && ReadyNow(s.core))
        || (s.tasks[i].Discarding? && |s.core.idle| < s.core.slots))
  }

  lemma ReachStep(s: State, i: nat)
    requires InReach(s, i)
    ensures var s' := AdvanceTask(s, i); i < |s'.tasks| && (Served(s'.tasks[i]) || InReach(s', i))
  {
    if s.tasks[i].Waking? {
      var cont := s.tasks[i].cont;
      if s.tasks[i].units == 0 || s.core.queue.entries == [] {
        assert s.core.idle == [] ==> AdvanceTask(s, i).tasks[i].Dialling?;
      }
    }
  }

  lemma {:induction false} ReachServed(s: State, i: nat)
    requires InReach(s, i)
    ensures Served(Alone(s, i).tasks[i])
    decreases |s.core.idle|, Rank(s.tasks[i]), Size(s.tasks[i])
  {
    ReachStep(s, i);
    if InCode(AdvanceTask(s, i).tasks[i]) {
      AdvanceProgress(s, i);
      ReachServed(AdvanceTask(s, i), i);
    }
  }

  /** Going on at the head of the pop loop is its first step. */
  lemma GoServed(s: State, i: nat, cont: Cont)
    requires i < |s.tasks| && cont.PopOn? && InReach(At(s, i, Waking(0, cont)), i)
    ensures i < |Go(s, i, cont).tasks| && Served(Alone(Go(s, i, cont), i).tasks[i])
  {
    var s0 := At(s, i, Waking(0, cont));
    ReachStep(s0, i);
    assert s0.tasks[i := Waking(0, cont)] == s0.tasks;
    assert AdvanceTask(s0, i) == Go(s, i, cont);
    if InCode(Go(s, i, cont).tasks[i]) {
      ReachServed(Go(s, i, cont), i);
    }
  }

  /** The bounds that the books give. */
  predicate Bounded(c: Core) {
    !c.closed && |c.idle| <= c.slots <= c.cfg.maxSize
  }

  /** What a poll of `wait_ready` comes to: capacity if the pool is ready, else the queue. */
  predicate PaidOrParked(t: Task, ready: bool) {
    if ready then Served(t) else t.Parked?
  }

  /** `get_inner` at the head of its loop. */
  lemma TopPays(s: State, i: nat, waited: bool)
    requires i < |s.tasks| && Bounded(s.core)
    ensures i < |Go(s, i, LoopTop(Inner(waited))).tasks|
    ensures PaidOrParked(Alone(Go(s, i, LoopTop(Inner(waited))), i).tasks[i], ReadyNow(s.core))
  {
    var s1 := Go(s, i, LoopTop(Inner(waited)));
    if InCode(s1.tasks[i]) {
      ReachServed(s1, i);
    }
  }

  /** `get` on its fast path: nothing fresh is idle, and the first `wait_ready` follows at once. */
  lemma FastPays(s: State, i: nat)
    requires i < |s.tasks| && Bounded(s.core)
    ensures var s1 := Go(s, i, PopOn(Fast, s.core.clock, false));
            i < |s1.tasks| && PaidOrParked(Alone(s1, i).tasks[i], ReadyNow(s.core))
  {
    var s1 := Go(s, i, PopOn(Fast, s.core.clock, false));
    if InCode(s1.tasks[i]) {
      ReachServed(s1, i);
    }
  }

  /** The wakes come first, then the head of the loop. */
  lemma {:induction false} WakesThenPays(s: State, i: nat)
    requires i < |s.tasks| && Bounded(s.core)
    requires s.tasks[i].Waking? && s.tasks[i].cont.LoopTop? && s.tasks[i].cont.caller.Inner?
    ensures PaidOrParked(Alone(s, i).tasks[i], ReadyNow(s.core))
    decreases s.tasks[i].units
  {
    var t := s.tasks[i];
    var s' := AdvanceTask(s, i);
    AdvanceTasks(s, i);
    if t.units > 0 && s.core.queue.entries != [] {
      WakeKeepsCore(s, i);
      WakesThenPays(s', i);
    } else {
      TopPays(s, i, t.cont.caller.waited);
    }
  }

  lemma WakeKeepsCore(s: State, i: nat)
    requires i < |s.tasks| && s.tasks[i].Waking? && s.tasks[i].units > 0 && s.core.queue.entries != []
    ensures var t, s' := s.tasks[i], AdvanceTask(s, i);
            && i < |s'.tasks| && s'.tasks[i] == Waking(t.units - 1, t.cont)
            && s'.core == SetQueue(s.core, Pop(s.core.queue)) && Alone(s, i) == Alone(s', i)
  {
    assert AdvanceTask(s, i) == WakeOldest(At(s, i, Waking(s.tasks[i].units - 1, s.tasks[i].cont)));
  }

  /** A connection that failed validation has its slot, which dropping it frees. */
  lemma DropThenPays(s: State, i: nat)
    requires i < |s.tasks| && Bounded(s.core) && |s.core.idle| < s.core.slots
    requires s.tasks[i].DroppingHeld? && s.tasks[i].cont.LoopTop? && s.tasks[i].cont.caller.Inner?
    ensures Served(Alone(s, i).tasks[i])
  {
    AdvanceTasks(s, i);
    WakesThenPays(AdvanceTask(s, i), i);
  }

  /** Every way in which a `get` comes to poll `wait_ready`: as a waiter; at the end of a back-off;
      at its beginning, with or without a fast path before; and back at the head of its loop after
      a failed validation, whose answer, dropped connection or wakes are still to be seen to. */
  predicate PollsWait(s: State, e: Event) {
    || (e.Poll? && e.i < |s.tasks| && (s.tasks[e.i].Parked? || s.tasks[e.i].Backoff?))
    || (e.Advance? && e.i < |s.tasks| && (s.tasks[e.i] == Start(Get) || GoesRound(s.tasks[e.i])))
    || FailsValidation(s, e)
  }

  /** On the way back to the head of the loop. */
  predicate GoesRound(t: Task) {
    (t.Waking? || t.DroppingHeld?) && t.cont.LoopTop? && t.cont.caller.Inner?
  }

  predicate FailsValidation(s: State, e: Event) {
    e.Resolve? && !e.ok && e.i < |s.tasks| && s.tasks[e.i].Validating? && s.tasks[e.i].caller.Inner?
  }

  /** Whether the pool is ready when `wait_ready` is polled: a dropped connection makes it so. */
  predicate ReadyFor(s: State, e: Event) {
    ReadyNow(s.core) || FailsValidation(s, e) || (e.Advance? && e.i < |s.tasks| && s.tasks[e.i].DroppingHeld?)
  }

  lemma HoldsItsSlot(s: State, i: nat)
    requires Inv(s) && i < |s.tasks| && (s.tasks[i].Validating? || s.tasks[i].DroppingHeld?)
    ensures |s.core.idle| < s.core.slots
  {
    TotalUpdate(s.tasks, i, Done(NoneFree));
  }

  lemma PollPays(s: State, i: nat)
    requires Inv(s) && !s.core.closed && i < |s.tasks| && (s.tasks[i].Parked? || s.tasks[i].Backoff?)
    ensures i < |PollTask(s, i).tasks|
    ensures PaidOrParked(Alone(PollTask(s, i), i).tasks[i], ReadyNow(s.core))
  {
    var t := s.tasks[i];
    if t.Backoff? {
      TopPays(s, i, t.waited);
    } else if ReadyNow(s.core) {
      var s1 := With(s, SetQueue(s.core, Unregister(s.core.queue, t.id).0));
      GoServed(s1, i, PopOn(Inner(true), s.core.clock, t.woken));
    }
  }

  lemma AdvancePays(s: State, i: nat)
    requires Inv(s) && !s.core.closed && i < |s.tasks| && (s.tasks[i] == Start(Get) || GoesRound(s.tasks[i]))
    ensures i < |AdvanceTask(s, i).tasks|
    ensures PaidOrParked(Alone(AdvanceTask(s, i), i).tasks[i], ReadyNow(s.core) || s.tasks[i].DroppingHeld?)
  {
    var t := s.tasks[i];
    AdvanceTasks(s, i);
    if t.Waking? {
      WakesThenPays(s, i);
    } else if t.DroppingHeld? {
      HoldsItsSlot(s, i);
      DropThenPays(s, i);
    } else if s.core.cfg.testOnCheckOut {
      TopPays(s, i, false);
    } else {
      FastPays(s, i);
    }
  }

  lemma FailurePays(s: State, i: nat)
    requires Inv(s) && !s.core.closed && FailsValidation(s, Resolve(i, false))
    ensures i < |ResolveTask(s, i, false).tasks| && Served(Alone(ResolveTask(s, i, false), i).tasks[i])
  {
    HoldsItsSlot(s, i);
    DropThenPays(ResolveTask(s, i, false), i);
  }

  lemma StepPays(s: State, e: Event)
    requires Inv(s) && !s.core.closed && PollsWait(s, e)
    ensures e.i < |Step(s, e).tasks|
    ensures PaidOrParked(Alone(Step(s, e), e.i).tasks[e.i], ReadyFor(s, e))
  {
    if e.Poll? {
      PollPays(s, e.i);
    } else if e.Advance? {
      AdvancePays(s, e.i);
    } else {
      FailurePays(s, e.i);
    }
  }

  /** In every reachable state of an open pool, whichever way a `get` comes to poll `wait_ready`: if
      the pool is ready the same poll obtains a connection or a reservation, and the call parks
      only if it is not. So the retry at the end of the loop is not reached. */
  lemma ResolvedWaitPaysOff(cfg: Config, events: seq<Event>, e: Event)
    requires cfg.Valid()
    requires var s := Run(Init(cfg), events); !s.core.closed && PollsWait(s, e)
    ensures var s := Run(Init(cfg), events);
            && e.i < |Step(s, e).tasks|
            && PaidOrParked(Alone(Step(s, e), e.i).tasks[e.i], ReadyFor(s, e))
  {
    EveryRun(cfg, events);
    StepPays(Run(Init(cfg), events), e);
  }

  /** The ends that `try_get` and `warm` may come to on their own. */
  ghost predicate EndsWell(c: Core, t: Task) {
    && (t == Done(NoneFree) ==> c.idle == [] && c.slots >= c.cfg.maxSize)
    && (t.Done? && t.outcome.Warmed? ==> |c.idle| >= c.cfg.minIdle || c.slots >= c.cfg.maxSize)
  }

  lemma GoEnds(s: State, i: nat, cont: Cont)
    requires i < |s.tasks|
    ensures EndsWell(Go(s, i, cont).core, Go(s, i, cont).tasks[i])
    ensures forall k :: 0 <= k < |s.tasks| && k != i ==> Go(s, i, cont).tasks[k] == s.tasks[k]
  {
  }

  lemma AdvanceEnds(s: State, i: nat)
    requires i < |s.tasks| && !s.tasks[i].Done?
    ensures !(s.core.closed && s.tasks[i] == Start(Warm)) ==> EndsWell(AdvanceTask(s, i).core, AdvanceTask(s, i).tasks[i])
  {
    var t, c := s.tasks[i], s.core;
    if t.Waking? {
      GoEnds(s, i, t.cont);
    } else if t.Start? && FirstLoop(c, t.call).Some? {
      GoEnds(s, i, FirstLoop(c, t.call).value);
    }
  }

  lemma PollEnds(s: State, i: nat)
    requires i < |s.tasks| && !s.tasks[i].Done?
    ensures EndsWell(PollTask(s, i).core, PollTask(s, i).tasks[i])
  {
    var t, c := s.tasks[i], s.core;
    if t.Parked? && ReadyNow(c) && !c.closed {
      GoEnds(With(s, SetQueue(c, Unregister(c.queue, t.id).0)), i, PopOn(Inner(true), c.clock, t.woken));
    } else if t.Backoff? {
      GoEnds(s, i, LoopTop(Inner(t.waited)));
    }
  }

  /** Tasks other than `i` stay as they are, or are woken. */
  ghost predicate OthersKept(s: State, s': State, i: nat) {
    && |s.tasks| <= |s'.tasks|
    && forall k :: 0 <= k < |s.tasks| && k != i ==> s'.tasks[k] == s.tasks[k] || (s.tasks[k].Parked? && s'.tasks[k].Parked?)
  }

  lemma WakeOthers(s: State, i: nat, units: nat, cont: Cont)
    requires i < |s.tasks| && s.core.queue.entries != []
    ensures OthersKept(s, WakeOldest(At(s, i, Waking(units, cont))), i)
  {
  }

  /** Any other step replaces one task. */
  lemma OneReplaced(s: State, i: nat)
    requires i < |s.tasks| && !s.tasks[i].Waking? && (s.tasks[i].Start? ==> FirstLoop(s.core, s.tasks[i].call).None?)
    ensures i < |AdvanceTask(s, i).tasks| && AdvanceTask(s, i).tasks == s.tasks[i := AdvanceTask(s, i).tasks[i]]
  {
    if AdvanceTask(s, i) == s {
      assert s.tasks == s.tasks[i := s.tasks[i]];
    }
  }

  lemma AdvanceOthers(s: State, i: nat)
    requires i < |s.tasks|
    ensures OthersKept(s, AdvanceTask(s, i), i)
  {
    var t, c := s.tasks[i], s.core;
    if t.Waking? {
      if t.units > 0 && c.queue.entries != [] {
        WakeOthers(s, i, t.units - 1, t.cont);
      } else {
        GoEnds(s, i, t.cont);
      }
    } else if t.Start? && FirstLoop(c, t.call).Some? {
      GoEnds(s, i, FirstLoop(c, t.call).value);
    } else {
      OneReplaced(s, i);
    }
  }

  lemma PollOthers(s: State, i: nat)
    requires i < |s.tasks|
    ensures OthersKept(s, PollTask(s, i), i)
  {
    var t, c := s.tasks[i], s.core;
    if t.Parked? && ReadyNow(c) && !c.closed {
      GoEnds(With(s, SetQueue(c, Unregister(c.queue, t.id).0)), i, PopOn(Inner(true), c.clock, t.woken));
    } else if t.Backoff? {
      GoEnds(s, i, LoopTop(Inner(t.waited)));
    }
  }

  predicate Names(e: Event, i: nat) {
    (e.Advance? || e.Poll? || e.Resolve? || e.Cancel? || e.Return? || e.Take?) && e.i == i
  }

  /** A step ends no task but the one its event names. */
  lemma OthersGoOn(s: State, e: Event, i: nat)
    requires i < |s.tasks| && !Names(e, i)
    ensures i < |Step(s, e).tasks|
    ensures Step(s, e).tasks[i] == s.tasks[i] || (s.tasks[i].Parked? && Step(s, e).tasks[i].Parked?)
  {
    match e
    case Advance(k) => if k < |s.tasks| { AdvanceOthers(s, k); }
    case Poll(k) => if k < |s.tasks| { PollOthers(s, k); }
    case _ =>
  }

  /** A task that is new has not begun. */
  lemma StepStarts(s: State, e: Event, i: nat)
    requires i >= |s.tasks|
    ensures i < |Step(s, e).tasks| ==> Step(s, e).tasks[i].Start?
  {
    match e
    case Advance(k) => if k < |s.tasks| { AdvanceTasks(s, k); }
    case Poll(k) => if k < |s.tasks| { PollTasks(s, k); }
    case _ =>
  }

  lemma PollTasks(s: State, i: nat)
    requires i < |s.tasks|
    ensures |PollTask(s, i).tasks| == |s.tasks|
  {
  }

  /** A `try_get` that comes back with nothing, and a `warm` that ends well. */
  lemma StepEnds(s: State, e: Event, i: nat)
    requires i < |s.tasks| && !s.tasks[i].Done? && i < |Step(s, e).tasks| && Step(s, e).tasks[i].Done?
    ensures Step(s, e).tasks[i].outcome.Ended? || EndsWell(Step(s, e).core, Step(s, e).tasks[i])
            || (s.core.closed && s.tasks[i] == Start(Warm) && Step(s, e).tasks[i] == Done(Warmed(0)))
  {
    if !Names(e, i) {
      OthersGoOn(s, e, i);
    } else if e.Advance? {
      AdvanceEnds(s, i);
    } else if e.Poll? {
      PollEnds(s, i);
    }
  }

  /** In any run, re-entrant or not: `try_get` comes back with nothing only when all
      `max_size` slots are taken and none of them is idle. */
  lemma NothingFreeMeansFull(cfg: Config, events: seq<Event>, e: Event, i: nat)
    requires cfg.Valid()
    requires var s := Run(Init(cfg), events);
             i < |s.tasks| && !s.tasks[i].Done? && i < |Step(s, e).tasks| && Step(s, e).tasks[i] == Done(NoneFree)
    ensures var s' := Step(Run(Init(cfg), events), e);
            s'.core.idle == [] && Total(s'.tasks).held.slots == s'.core.slots == s'.core.cfg.maxSize
  {
    var s := Run(Init(cfg), events);
    EveryRun(cfg, events);
    StepKeepsInv(s, e);
    StepEnds(s, e, i);
  }

  /** In any run: a `warm` that began on an open pool returns `Ok` only with its floor met or
      no slot left, whatever else happened meanwhile. */
  lemma WarmMeetsItsFloor(cfg: Config, events: seq<Event>, e: Event, i: nat)
    requires cfg.Valid()
    requires var s := Run(Init(cfg), events);
             && i < |s.tasks| && !s.tasks[i].Done? && !(s.core.closed && s.tasks[i] == Start(Warm))
             && i < |Step(s, e).tasks| && Step(s, e).tasks[i].Done? && Step(s, e).tasks[i].outcome.Warmed?
    ensures var s' := Step(Run(Init(cfg), events), e);
            |s'.core.idle| >= s'.core.cfg.minIdle || s'.core.slots == s'.core.cfg.maxSize
  {
    var s := Run(Init(cfg), events);
    EveryRun(cfg, events);
    StepKeepsInv(s, e);
    StepEnds(s, e, i);
  }
}
