/** What every run of the pool keeps, whatever the order of the steps, the manager's
    answers, the cancellations and the re-entrant calls. */
module PoolRuns {
  import opened PoolTypes
  import opened WaitQueue
  import opened PoolCore
  import opened PoolProtocol
  import opened Sums
  import opened PoolTotals
  import opened PoolLinks
  import opened PoolBalance
  import opened PoolIdentity
  import opened PoolOrder

  /** A batch being dropped never exceeds what was detached. */
  predicate BatchOk(t: Task) {
    (t.Reaping? || t.Clearing?) ==> |t.left| <= t.total
  }

  ghost predicate Shaped(tasks: seq<Task>) {
    forall k :: 0 <= k < |tasks| ==> BatchOk(tasks[k])
  }

  ghost predicate Inv(s: State) {
    && Balanced(s)
    && Linked(s)
    && Shaped(s.tasks)
    && Timely(s.core.idle, s.core.clock)
    && forall id :: InOnePlace(s, id)
  }

  lemma ResumeShaped(s: State, i: nat, cont: Cont)
    requires i < |s.tasks|
    ensures Resume(s, i, cont).tasks == s.tasks[i := Resume(s, i, cont).tasks[i]]
    ensures BatchOk(Resume(s, i, cont).tasks[i])
  {
  }

  lemma GoShaped(s: State, i: nat, cont: Cont)
    requires i < |s.tasks| && Shaped(s.tasks)
    ensures Shaped(Go(s, i, cont).tasks)
  {
    ResumeShaped(At(s, i, Waking(0, cont)), i, cont);
  }

  lemma WakeShaped(s: State, i: nat, units: nat, cont: Cont)
    requires i < |s.tasks| && Shaped(s.tasks) && s.core.queue.entries != []
    ensures Shaped(WakeOldest(At(s, i, Waking(units, cont))).tasks)
  {
  }

  lemma AdvanceShaped(s: State, i: nat)
    requires i < |s.tasks| && Shaped(s.tasks)
    ensures Shaped(AdvanceTask(s, i).tasks)
  {
    var t, c := s.tasks[i], s.core;
    assert BatchOk(t);
    match t
    case Waking(units, cont) =>
      if units > 0 && c.queue.entries != [] {
        WakeShaped(s, i, units - 1, cont);
      } else {
        GoShaped(s, i, cont);
      }
    case Start(call) =>
      if FirstLoop(c, call).Some? {
        GoShaped(s, i, FirstLoop(c, call).value);
      }
    case _ =>
  }

  lemma PollShaped(s: State, i: nat)
    requires i < |s.tasks| && Shaped(s.tasks)
    ensures Shaped(PollTask(s, i).tasks)
  {
    var t, c := s.tasks[i], s.core;
    if t.Parked? && ReadyNow(c) && !c.closed {
      GoShaped(With(s, SetQueue(c, Unregister(c.queue, t.id).0)), i, PopOn(Inner(true), c.clock, t.woken));
    } else if t.Backoff? {
      GoShaped(s, i, LoopTop(Inner(t.waited)));
    }
  }

  lemma StepShaped(s: State, e: Event)
    requires Shaped(s.tasks)
    ensures Shaped(Step(s, e).tasks)
  {
    match e
    case Advance(i) => if i < |s.tasks| { AdvanceShaped(s, i); }
    case Poll(i) => if i < |s.tasks| { PollShaped(s, i); }
    case _ =>
  }

  lemma StepKeepsInv(s: State, e: Event)
    requires Inv(s)
    ensures Inv(Step(s, e))
  {
    StepBalanced(s, e);
    StepLinked(s, e);
    StepShaped(s, e);
    StepTimely(s, e);
    forall id
      ensures InOnePlace(Step(s, e), id)
    {
      StepWhole(s, e, id);
    }
  }

  lemma {:induction false} RunKeepsInv(s: State, events: seq<Event>)
    requires Inv(s)
    ensures Inv(Run(s, events))
  {
    if events != [] {
      RunKeepsInv(s, events[..|events| - 1]);
      StepKeepsInv(Run(s, events[..|events| - 1]), events[|events| - 1]);
    }
  }

  lemma EveryRun(cfg: Config, events: seq<Event>)
    requires cfg.Valid()
    ensures Inv(Run(Init(cfg), events))
  {
    RunKeepsInv(Init(cfg), events);
  }

  // ---- States in which no task is in the middle of its code ----

  /** Not begun, at an await, leased out or over. */
  predicate Resting(t: Task) {
    t.Start? || t.Parked? || t.Validating? || t.Dialling? || t.Backoff? || t.Lease? || t.Done?
  }

  predicate AtRest(s: State) {
    forall k :: 0 <= k < |s.tasks| ==> Resting(s.tasks[k])
  }

  function Leases(tasks: seq<Task>): nat {
    if tasks == [] then 0
    else Leases(tasks[..|tasks| - 1]) + if tasks[|tasks| - 1].Lease? then 1 else 0
  }

  /** Slots held for a connection that is being dialled or validated. */
  function Reserved(tasks: seq<Task>): nat {
    if tasks == [] then 0
    else Reserved(tasks[..|tasks| - 1])
         + if tasks[|tasks| - 1].Dialling? || tasks[|tasks| - 1].Validating? then 1 else 0
  }

  function Validations(tasks: seq<Task>): nat {
    if tasks == [] then 0
    else Validations(tasks[..|tasks| - 1]) + if tasks[|tasks| - 1].Validating? then 1 else 0
  }

  /** Live waiters that were woken and have not yet acted. */
  function WokenWaiters(tasks: seq<Task>): nat {
    if tasks == [] then 0
    else WokenWaiters(tasks[..|tasks| - 1])
         + if tasks[|tasks| - 1].Parked? && tasks[|tasks| - 1].woken then 1 else 0
  }

  lemma {:induction false} RestTotals(tasks: seq<Task>)
    requires forall k :: 0 <= k < |tasks| ==> Resting(tasks[k])
    ensures var t := Total(tasks);
            && t.held.slots == Leases(tasks) + Reserved(tasks)
            && t.held.conns == t.lag.unnoted == Leases(tasks) + Validations(tasks)
            && t.lag.idle == t.wakes.passing == 0
            && t.wakes.woken == WokenWaiters(tasks)
            && t.held.leases == Leases(tasks)
  {
    if tasks == [] {
      assert Weights(tasks) == [];
    } else {
      var n := |tasks| - 1;
      RestTotals(tasks[..n]);
      TotalAppend(tasks[..n], tasks[n]);
      assert tasks[..n] + [tasks[n]] == tasks;
      RestWeight(tasks[n]);
    }
  }

  lemma RestWeight(t: Task)
    requires Resting(t)
    ensures var w := Weigh(t);
            && w.held.slots == (if t.Lease? then 1 else 0) + (if t.Dialling? || t.Validating? then 1 else 0)
            && w.held.conns == w.lag.unnoted == (if t.Lease? then 1 else 0) + (if t.Validating? then 1 else 0)
            && w.lag.idle == w.wakes.passing == 0
            && w.wakes.woken == (if t.Parked? && t.woken then 1 else 0)
            && w.held.leases == (if t.Lease? then 1 else 0)
  {
  }

  // ---- The main results ----

  /** Slots are exactly idle + leased + reserved connections and never exceed the cap. */
  lemma SlotsConserved(cfg: Config, events: seq<Event>)
    requires cfg.Valid() && AtRest(Run(Init(cfg), events))
    ensures var s := Run(Init(cfg), events);
            s.core.slots == |s.core.idle| + Leases(s.tasks) + Reserved(s.tasks) <= s.core.cfg.maxSize
  {
    EveryRun(cfg, events);
    RestTotals(Run(Init(cfg), events).tasks);
  }

  /** On an open pool with somebody queued, free capacity never exceeds the number of live
      waiters that were woken for it. With no such wake outstanding, every slot is leased
      or reserved. */
  lemma NoStrandedCapacity(cfg: Config, events: seq<Event>)
    requires cfg.Valid()
    requires var s := Run(Init(cfg), events); AtRest(s) && !s.core.closed && s.core.queue.entries != []
    ensures var s := Run(Init(cfg), events);
            && Free(s.core) <= WokenWaiters(s.tasks)
            && (WokenWaiters(s.tasks) == 0 ==>
                  s.core.idle == [] && Leases(s.tasks) + Reserved(s.tasks) == s.core.slots == s.core.cfg.maxSize)
  {
    EveryRun(cfg, events);
    RestTotals(Run(Init(cfg), events).tasks);
  }

  /** The same inside any call-out: wakes still to be sent count as well. */
  lemma NoStrandedCapacityInCallOuts(cfg: Config, events: seq<Event>)
    requires cfg.Valid()
    requires var s := Run(Init(cfg), events); !s.core.closed && s.core.queue.entries != []
    ensures var s := Run(Init(cfg), events);
            Free(s.core) <= Total(s.tasks).wakes.woken + Total(s.tasks).wakes.passing
  {
    EveryRun(cfg, events);
  }

  lemma {:induction false} ConnsWithinSlots(tasks: seq<Task>)
    requires Shaped(tasks)
    ensures Total(tasks).held.conns <= Total(tasks).held.slots
  {
    if tasks == [] {
      assert Weights(tasks) == [];
    } else {
      var n := |tasks| - 1;
      ConnsWithinSlots(tasks[..n]);
      TotalAppend(tasks[..n], tasks[n]);
      assert tasks[..n] + [tasks[n]] == tasks;
    }
  }

  /** Even in the middle of a call-out, the connections that exist and belong to the pool,
      those still being dropped included, never exceed the cap. */
  lemma LiveConnectionsCapped(cfg: Config, events: seq<Event>)
    requires cfg.Valid()
    ensures var s := Run(Init(cfg), events);
            && |s.core.idle| + Total(s.tasks).held.conns <= s.core.slots
            && s.core.slots <= s.core.cfg.maxSize
  {
    EveryRun(cfg, events);
    ConnsWithinSlots(Run(Init(cfg), events).tasks);
  }

  /** Each connection ever opened is in exactly one place: idle, with one task, or gone. */
  lemma ConnectionsInOnePlace(cfg: Config, events: seq<Event>, id: nat)
    requires cfg.Valid()
    ensures var s := Run(Init(cfg), events);
            Copies(s.core.idle, id) + SumOf(HeldCounts(s.tasks, id)) + s.book.gone[id]
            == if id < s.core.stats.created then 1 else 0
  {
    EveryRun(cfg, events);
    assert InOnePlace(Run(Init(cfg), events), id);
  }

  /** What one task holds is within what all hold. */
  lemma WithinTotals(s: State, i: nat)
    requires Balanced(s) && i < |s.tasks|
    ensures Weigh(s.tasks[i]).held.slots <= s.core.slots == s.core.gauges.connections
    ensures Weigh(s.tasks[i]).lag.idle <= s.core.gauges.idle
    ensures s.core.idle != [] ==> 1 <= s.core.gauges.idle
  {
    TotalUpdate(s.tasks, i, Done(Ended(Cancelled)));
  }

  /** A task about to release slots or lower the idle gauge for a batch, or to pop an idle
      connection, never meets a smaller counter, so the saturating subtractions never saturate. */
  lemma NothingSaturates(cfg: Config, events: seq<Event>, i: nat)
    requires cfg.Valid() && i < |Run(Init(cfg), events).tasks|
    ensures var s := Run(Init(cfg), events);
            && Weigh(s.tasks[i]).held.slots <= s.core.slots == s.core.gauges.connections
            && Weigh(s.tasks[i]).lag.idle <= s.core.gauges.idle
            && (s.core.idle != [] ==> 1 <= s.core.gauges.idle)
  {
    EveryRun(cfg, events);
    WithinTotals(Run(Init(cfg), events), i);
  }

  /** At rest the gauges read the slot count, the idle list and the queue, every connection
      opened is live, counted as closed, taken or abandoned, and every checkout counted is
      returned, taken or outstanding. */
  lemma StatisticsAddUp(cfg: Config, events: seq<Event>)
    requires cfg.Valid() && AtRest(Run(Init(cfg), events))
    ensures var s := Run(Init(cfg), events);
            var st, b := s.core.stats, s.book;
            && s.core.gauges == Gauges(s.core.slots, |s.core.idle|, |s.core.queue.entries|)
            && st.created == |s.core.idle| + Leases(s.tasks) + Validations(s.tasks)
                             + st.broken + st.idleTimeout + st.maxLifetime + st.manual + b.taken + b.abandoned
            && st.direct + st.waited == b.leases == b.returned + b.taken + Leases(s.tasks)
  {
    EveryRun(cfg, events);
    RestTotals(Run(Init(cfg), events).tasks);
  }

  /** A live waiter's id is queued exactly when it exceeds the watermark, exactly when it was
      not woken; withdrawing it reports exactly that, as a plain membership test would. */
  lemma WatermarkTellsTheTruth(cfg: Config, events: seq<Event>, i: nat)
    requires cfg.Valid()
    requires var s := Run(Init(cfg), events); i < |s.tasks| && s.tasks[i].Parked?
    ensures var s := Run(Init(cfg), events);
            var q, id := s.core.queue, s.tasks[i].id;
            && (Queued(q, id) <==> id > q.wokenUpto)
            && (Queued(q, id) <==> !s.tasks[i].woken)
            && (Unregister(q, id).0.entries, Unregister(q, id).1) == PlainUnregister(q.entries, id)
            && (Unregister(q, id).1 <==> !s.tasks[i].woken)
            && Register(q, Some(id), i).0.entries == PlainRegister(q.entries, q.nextId, Some(id), i)
  {
    var s := Run(Init(cfg), events);
    var q, id := s.core.queue, s.tasks[i].id;
    EveryRun(cfg, events);
    assert LinkedTask(s, i);
    if id > q.wokenUpto {
      var k :| 0 <= k < |q.entries| && q.entries[k] == Entry(id, i);
      assert q.entries[k].id == id;
    }
    WatermarkRefinesPlain(q, id, i);
  }

  /** The idle list is sorted by last use in every reachable state. */
  lemma IdleListSorted(cfg: Config, events: seq<Event>)
    requires cfg.Valid()
    ensures SortedByLastUsed(Run(Init(cfg), events).core.idle)
  {
    EveryRun(cfg, events);
  }
}
