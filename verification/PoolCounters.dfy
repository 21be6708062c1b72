/** Every counter of closed connections, of timeouts and of openings counts exactly the events it is
    named for, over every run. */
module PoolCounters {
  import opened PoolTypes
  import opened WaitQueue
  import opened PoolCore
  import opened PoolProtocol
  import opened Sums
  import opened PoolRuns
  import opened PoolAlone
  import opened PoolCalls
  import opened PoolAges
  import opened PoolExpiry

  datatype Counter = Closings(why: Why) | Timeouts | Openings

  function Read(stats: Stats, c: Counter): nat {
    match c
    case Closings(why) =>
      (match why
       case Broken => stats.broken
       case Manual => stats.manual
       case Aged(reason) => if reason.IdleTimeout? then stats.idleTimeout else stats.maxLifetime)
    case Timeouts => stats.timedOut
    case Openings => stats.created
  }

  /** Connections that a task is still to count: a connection is counted once it has been dropped,
      but those of a reap and those that failed validation before. */
  function Pending(t: Task, c: Counter): nat {
    match t
    case Discarding(_, _, _, _, reason) => if c == Closings(Aged(reason)) then 1 else 0
    case DroppingReturn(_, why) => if c == Closings(why) then 1 else 0
    case Clearing(_, total) => if c == Closings(Manual) then total else 0
    case _ => 0
  }

  function PendingEach(tasks: seq<Task>, c: Counter): (r: seq<nat>)
    ensures |r| == |tasks|
    ensures forall k :: 0 <= k < |r| ==> r[k] == Pending(tasks[k], c)
  {
    seq(|tasks|, k requires 0 <= k < |tasks| => Pending(tasks[k], c))
  }

  // ---- What each counter is to count ----

  /** Idle connections due for the given reason. */
  ghost function DueIdle(cfg: Config, events: seq<Event>, idle: seq<Conn>, now: Time, reason: Expiry): nat {
    if idle == [] then 0
    else
      var n := |idle| - 1;
      DueIdle(cfg, events, idle[..n], now, reason) + if Due(cfg, events, idle[n].id, now) == Some(reason) then 1 else 0
  }

  /** Connections found to be due: by a reap as it begins, by a checkout that takes the newest one,
      and by a lease that comes back unbroken. */
  ghost function FoundDue(cfg: Config, events: seq<Event>, e: Event, reason: Expiry): nat {
    var s := Run(Init(cfg), events);
    if e.Advance? && e.i < |s.tasks| && s.tasks[e.i] == Start(Reap) then
      DueIdle(cfg, events, s.core.idle, s.core.clock, reason)
    else if Draws(s, e) && s.core.idle != [] then
      var conn := s.core.idle[|s.core.idle| - 1];
      if Due(cfg, events, conn.id, PopBegan(cfg, events + [e], e.i)) == Some(reason) then 1 else 0
    else if e.Resolve? && e.ok && e.i < |s.tasks| && s.tasks[e.i].AskBroken? then
      if Due(cfg, events, s.tasks[e.i].conn.id, s.core.clock) == Some(reason) then 1 else 0
    else 0
  }

  /** The manager refuses a connection, in a validation or as a lease comes back. */
  predicate Refuses(s: State, e: Event) {
    e.Resolve? && !e.ok && e.i < |s.tasks| && (s.tasks[e.i].Validating? || s.tasks[e.i].AskBroken?)
  }

  /** Connections cleared, or returned to a closed pool. */
  function ByHand(s: State, e: Event): nat {
    if e.Advance? && e.i < |s.tasks| && s.tasks[e.i] == Start(Clear) then |s.core.idle|
    else if e.Return? && e.i < |s.tasks| && s.tasks[e.i].Lease? && s.core.closed then 1
    else 0
  }

  /** The timeout of a `get` runs out while it waits. */
  predicate RunsOut(s: State, calls: seq<Call>, e: Event) {
    && e.Cancel? && e.timedOut && e.i < |s.tasks| && e.i < |calls|
    && calls[e.i].Get? && AtAwait(s.tasks[e.i])
  }

  ghost function Events(cfg: Config, events: seq<Event>, e: Event, c: Counter): nat {
    var s := Run(Init(cfg), events);
    match c
    case Closings(why) =>
      (match why
       case Broken => if Refuses(s, e) then 1 else 0
       case Manual => ByHand(s, e)
       case Aged(reason) => FoundDue(cfg, events, e, reason))
    case Timeouts => if RunsOut(s, Calls(events), e) then 1 else 0
    case Openings => if Opens(s, e) then 1 else 0
  }

  ghost function AllEvents(cfg: Config, events: seq<Event>, c: Counter): nat {
    if events == [] then 0
    else
      var before := events[..|events| - 1];
      AllEvents(cfg, before, c) + Events(cfg, before, events[|events| - 1], c)
  }

  // ---- One step ----

  /** Task `i` counts, or comes to owe, `gain` more. */
  predicate Notes(s: State, s': State, i: nat, gain: nat, c: Counter) {
    && i < |s.tasks| && i < |s'.tasks|
    && Read(s'.core.stats, c) + Pending(s'.tasks[i], c) == Read(s.core.stats, c) + Pending(s.tasks[i], c) + gain
  }

  /** The newest idle connection was taken and had expired for the counter's reason. */
  function Drawn(s: State, s': State, at: Time, c: Counter): nat {
    if s'.core.idle == s.core.idle || s.core.idle == [] || !c.Closings? || !c.why.Aged? then 0
    else if ExpiryOf(s.core.idle[|s.core.idle| - 1], at, s.core.cfg) == Some(c.why.reason) then 1
    else 0
  }

  lemma PopTurnNotes(s: State, i: nat, caller: Caller, at: Time, owed: bool, c: Counter)
    requires i < |s.tasks| && Pending(s.tasks[i], c) == 0
    ensures var s' := PopTurn(s, i, caller, at, owed); Notes(s, s', i, Drawn(s, s', at, c), c)
  {
  }

  lemma GoNotes(s: State, i: nat, cont: Cont, c: Counter)
    requires i < |s.tasks| && Pending(s.tasks[i], c) == 0
    ensures var s' := Go(s, i, cont); Notes(s, s', i, Drawn(s, s', if cont.PopOn? then cont.at else s.core.clock, c), c)
  {
    var s1 := At(s, i, Waking(0, cont));
    match cont
    case PopOn(caller, at, owed) => PopTurnNotes(s1, i, caller, at, owed, c);
    case LoopTop(caller) =>
      PopTurnNotes(s1, i, if caller.Try? then caller else Inner(caller.Waited()), s.core.clock, false, c);
    case _ =>
  }

  lemma StartNotes(s: State, i: nat, c: Counter)
    requires i < |s.tasks| && s.tasks[i].Start? && !s.tasks[i].call.Reap? && !s.tasks[i].call.Clear?
    ensures var s' := AdvanceTask(s, i); Notes(s, s', i, Drawn(s, s', s.core.clock, c), c)
  {
    var call := s.tasks[i].call;
    if FirstLoop(s.core, call).Some? {
      GoNotes(s, i, FirstLoop(s.core, call).value, c);
    }
  }

  /** A reap counts as it begins. */
  lemma ReapNotes(s: State, i: nat, c: Counter)
    requires i < |s.tasks| && s.tasks[i] == Start(Reap)
    ensures Notes(s, AdvanceTask(s, i), i,
                  if c.Closings? && c.why.Aged? then CountFor(s.core.idle, s.core.clock, s.core.cfg, c.why.reason)
                  else 0, c)
  {
    RetiredCountedByReason(s.core.stats, s.core.idle, s.core.clock, s.core.cfg);
  }

  /** A `clear` owes what it took. */
  lemma ClearNotes(s: State, i: nat, c: Counter)
    requires i < |s.tasks| && s.tasks[i] == Start(Clear)
    ensures Notes(s, AdvanceTask(s, i), i, if c == Closings(Manual) then |s.core.idle| else 0, c)
  {
  }

  lemma BatchNotes(s: State, i: nat, c: Counter)
    requires i < |s.tasks| && (s.tasks[i].Reaping? || s.tasks[i].Clearing?)
    ensures Notes(s, AdvanceTask(s, i), i, 0, c) && AdvanceTask(s, i).core.idle == s.core.idle
  {
  }

  /** A connection is dropped and counted, or a waiter woken. */
  lemma DropNotes(s: State, i: nat, c: Counter)
    requires i < |s.tasks| && !s.tasks[i].Start? && !s.tasks[i].Reaping? && !s.tasks[i].Clearing?
    requires s.tasks[i].Waking? ==> s.tasks[i].units > 0 && s.core.queue.entries != []
    ensures Notes(s, AdvanceTask(s, i), i, 0, c) && AdvanceTask(s, i).core.idle == s.core.idle
  {
  }

  lemma AdvanceNotes(s: State, i: nat, c: Counter)
    requires i < |s.tasks| && s.tasks[i] != Start(Reap) && s.tasks[i] != Start(Clear)
    ensures var s' := AdvanceTask(s, i); Notes(s, s', i, Drawn(s, s', Now(s, i), c), c)
  {
    var t := s.tasks[i];
    if t.Start? {
      StartNotes(s, i, c);
    } else if t.Reaping? || t.Clearing? {
      BatchNotes(s, i, c);
    } else if t.Waking? && (t.units == 0 || s.core.queue.entries == []) {
      GoNotes(s, i, t.cont, c);
    } else {
      DropNotes(s, i, c);
    }
  }

  lemma PollNotes(s: State, i: nat, c: Counter)
    requires i < |s.tasks|
    ensures var s' := PollTask(s, i); Notes(s, s', i, Drawn(s, s', Now(s, i), c), c)
  {
    var t, core := s.tasks[i], s.core;
    if t.Parked? && ReadyNow(core) && !core.closed {
      GoNotes(With(s, SetQueue(core, Unregister(core.queue, t.id).0)), i, PopOn(Inner(true), core.clock, t.woken), c);
    } else if t.Backoff? {
      GoNotes(s, i, LoopTop(Inner(t.waited)), c);
    }
  }

  lemma ResolveNotes(s: State, i: nat, ok: bool, c: Counter)
    requires i < |s.tasks|
    ensures Notes(s, ResolveTask(s, i, ok), i,
                  match c
                  case Timeouts => 0
                  case Openings => if Opens(s, Resolve(i, ok)) then 1 else 0
                  case Closings(why) =>
                    (match why
                     case Broken => if Refuses(s, Resolve(i, ok)) then 1 else 0
                     case Manual => 0
                     case Aged(reason) =>
                       if ok && s.tasks[i].AskBroken? && ExpiryOf(s.tasks[i].conn, s.core.clock, s.core.cfg) == Some(reason)
                       then 1 else 0), c)
  {
  }

  lemma CancelNotes(s: State, i: nat, timedOut: bool, call: Call, testing: bool, c: Counter)
    requires PlaysIn(s, i, call, testing)
    ensures Notes(s, CancelTask(s, i, timedOut), i,
                  if c.Timeouts? && timedOut && call.Get? && AtAwait(s.tasks[i]) then 1 else 0, c)
  {
  }

  lemma LeaseEndNotes(s: State, i: nat, c: Counter)
    requires i < |s.tasks|
    ensures Notes(s, ReturnLease(s, i), i, if c == Closings(Manual) then ByHand(s, Return(i)) else 0, c)
    ensures Notes(s, TakeLease(s, i), i, 0, c)
  {
  }

  // ---- Over whole runs ----

  /** The count by time stamps is the count by history. */
  lemma {:induction false} DueIdleIs(cfg: Config, events: seq<Event>, idle: seq<Conn>, now: Time, reason: Expiry)
    requires forall conn :: conn in idle ==> Dated(cfg, events, conn)
    ensures CountFor(idle, now, cfg, reason) == DueIdle(cfg, events, idle, now, reason)
  {
    if idle != [] {
      var n := |idle| - 1;
      assert idle[n] in idle;
      DueIs(cfg, events, idle[n], now);
      DueIdleIs(cfg, events, idle[..n], now, reason);
    }
  }

  lemma ReapFindsDue(cfg: Config, events: seq<Event>, i: nat, c: Counter)
    requires var s := Run(Init(cfg), events); i < |s.tasks| && s.tasks[i] == Start(Reap)
    ensures var core := Run(Init(cfg), events).core;
            Events(cfg, events, Advance(i), c)
            == if c.Closings? && c.why.Aged? then DueIdle(cfg, events, core.idle, core.clock, c.why.reason) else 0
  {
  }

  lemma ReapEvents(cfg: Config, events: seq<Event>, i: nat, c: Counter)
    requires cfg.Valid()
    requires var s := Run(Init(cfg), events); i < |s.tasks| && s.tasks[i] == Start(Reap)
    ensures var s := Run(Init(cfg), events);
            Notes(s, Step(s, Advance(i)), i, Events(cfg, events, Advance(i), c), c)
  {
    var s := Run(Init(cfg), events);
    RunSettings(cfg, events);
    ReapFindsDue(cfg, events, i, c);
    ReapNotes(s, i, c);
    if c.Closings? && c.why.Aged? {
      forall conn | conn in s.core.idle
        ensures Dated(cfg, events, conn)
      {
        EveryStampTrue(cfg, events, conn);
      }
      DueIdleIs(cfg, events, s.core.idle, s.core.clock, c.why.reason);
    }
  }

  /** What is drawn, by time stamps and by history. */
  lemma DrawnIsDue(cfg: Config, events: seq<Event>, e: Event, c: Counter)
    requires cfg.Valid() && Draws(Run(Init(cfg), events), e) && c.Closings? && c.why.Aged?
    ensures var s := Run(Init(cfg), events);
            Drawn(s, Step(s, e), Now(s, e.i), c) == FoundDue(cfg, events, e, c.why.reason)
  {
    var s := Run(Init(cfg), events);
    RunSettings(cfg, events);
    PopByTheClock(cfg, events, e);
    PopsByItsBeginning(cfg, events, e.i);
    assert (events + [e])[..|events|] == events;
    var conn := s.core.idle[|s.core.idle| - 1];
    EveryStampTrue(cfg, events, conn);
    DueIs(cfg, events, conn, Now(s, e.i));
  }

  /** A call that runs counts what it draws. */
  lemma DrawnEvents(cfg: Config, events: seq<Event>, e: Event, c: Counter)
    requires cfg.Valid() && (e.Advance? || e.Poll?)
    requires var s := Run(Init(cfg), events);
             e.i < |s.tasks| && s.tasks[e.i] != Start(Reap) && s.tasks[e.i] != Start(Clear)
    ensures var s := Run(Init(cfg), events); Drawn(s, Step(s, e), Now(s, e.i), c) == Events(cfg, events, e, c)
  {
    if Draws(Run(Init(cfg), events), e) && c.Closings? && c.why.Aged? {
      DrawnIsDue(cfg, events, e, c);
    }
  }

  lemma RunningEvents(cfg: Config, events: seq<Event>, e: Event, c: Counter)
    requires cfg.Valid() && (e.Advance? || e.Poll?)
    requires var s := Run(Init(cfg), events);
             e.i < |s.tasks| && s.tasks[e.i] != Start(Reap) && s.tasks[e.i] != Start(Clear)
    ensures var s := Run(Init(cfg), events); Notes(s, Step(s, e), e.i, Events(cfg, events, e, c), c)
  {
    var s := Run(Init(cfg), events);
    DrawnEvents(cfg, events, e, c);
    if e.Advance? {
      AdvanceNotes(s, e.i, c);
    } else {
      PollNotes(s, e.i, c);
    }
  }

  lemma ResolveEvents(cfg: Config, events: seq<Event>, i: nat, ok: bool, c: Counter)
    requires cfg.Valid() && i < |Run(Init(cfg), events).tasks|
    ensures var s := Run(Init(cfg), events);
            Notes(s, Step(s, Resolve(i, ok)), i, Events(cfg, events, Resolve(i, ok), c), c)
  {
    var s := Run(Init(cfg), events);
    RunSettings(cfg, events);
    ResolveNotes(s, i, ok, c);
    if s.tasks[i].AskBroken? {
      assert Carries(s, i, s.tasks[i].conn);
      EveryStampTrue(cfg, events, s.tasks[i].conn);
      DueIs(cfg, events, s.tasks[i].conn, s.core.clock);
    }
  }

  /** What a `clear` takes is closed by hand, and nothing else happens. */
  lemma ClearIsByHand(cfg: Config, events: seq<Event>, i: nat, c: Counter)
    requires var s := Run(Init(cfg), events); i < |s.tasks| && s.tasks[i] == Start(Clear)
    ensures Events(cfg, events, Advance(i), c) == if c == Closings(Manual) then |Run(Init(cfg), events).core.idle| else 0
  {
    assert !Draws(Run(Init(cfg), events), Advance(i));
    assert c != Closings(Manual) && c.Closings? ==> c.why.Broken? || c.why.Aged?;
  }

  lemma ClearEvents(cfg: Config, events: seq<Event>, i: nat, c: Counter)
    requires var s := Run(Init(cfg), events); i < |s.tasks| && s.tasks[i] == Start(Clear)
    ensures var s := Run(Init(cfg), events);
            Notes(s, Step(s, Advance(i)), i, Events(cfg, events, Advance(i), c), c)
  {
    ClearIsByHand(cfg, events, i, c);
    ClearNotes(Run(Init(cfg), events), i, c);
  }

  lemma CancelEvents(cfg: Config, events: seq<Event>, i: nat, timedOut: bool, c: Counter)
    requires i < |Run(Init(cfg), events).tasks|
    ensures var s := Run(Init(cfg), events);
            Notes(s, Step(s, Cancel(i, timedOut)), i, Events(cfg, events, Cancel(i, timedOut), c), c)
  {
    EveryCallKeepsToItsPart(cfg, events, i);
    CancelNotes(Run(Init(cfg), events), i, timedOut, Calls(events)[i], cfg.testOnCheckOut, c);
  }

  lemma LeaseEndByHand(cfg: Config, events: seq<Event>, e: Event, c: Counter)
    requires e.Return? || e.Take?
    ensures Events(cfg, events, e, c) == if c == Closings(Manual) then ByHand(Run(Init(cfg), events), e) else 0
  {
    assert c != Closings(Manual) && c.Closings? ==> c.why.Broken? || c.why.Aged?;
  }

  lemma LeaseEndEvents(cfg: Config, events: seq<Event>, e: Event, c: Counter)
    requires (e.Return? || e.Take?) && e.i < |Run(Init(cfg), events).tasks|
    ensures var s := Run(Init(cfg), events); Notes(s, Step(s, e), e.i, Events(cfg, events, e, c), c)
  {
    LeaseEndByHand(cfg, events, e, c);
    LeaseEndNotes(Run(Init(cfg), events), e.i, c);
  }

  /** What the named task counts or comes to owe is what happened. */
  lemma NamedEvents(cfg: Config, events: seq<Event>, e: Event, i: nat, c: Counter)
    requires cfg.Valid() && i < |Run(Init(cfg), events).tasks| && Names(e, i)
    ensures var s := Run(Init(cfg), events); Notes(s, Step(s, e), i, Events(cfg, events, e, c), c)
  {
    var t := Run(Init(cfg), events).tasks[i];
    if e.Resolve? {
      ResolveEvents(cfg, events, i, e.ok, c);
    } else if e.Cancel? {
      CancelEvents(cfg, events, i, e.timedOut, c);
    } else if e.Return? || e.Take? {
      LeaseEndEvents(cfg, events, e, c);
    } else if e.Advance? && t == Start(Reap) {
      ReapEvents(cfg, events, i, c);
    } else if e.Advance? && t == Start(Clear) {
      ClearEvents(cfg, events, i, c);
    } else if e.Advance? {
      RunningEvents(cfg, events, e, c);
    } else {
      PollEvents(cfg, events, i, c);
    }
  }

  lemma PollEvents(cfg: Config, events: seq<Event>, i: nat, c: Counter)
    requires cfg.Valid() && i < |Run(Init(cfg), events).tasks|
    ensures var s := Run(Init(cfg), events); Notes(s, Step(s, Poll(i)), i, Events(cfg, events, Poll(i), c), c)
  {
    var s := Run(Init(cfg), events);
    if s.tasks[i].Start? {
      PollNotes(s, i, c);
    } else {
      RunningEvents(cfg, events, Poll(i), c);
    }
  }

  /** Only the named task owes more or less than before. */
  lemma PendingMoves(s: State, e: Event, i: nat, c: Counter)
    requires i < |s.tasks| && Names(e, i)
    ensures i < |Step(s, e).tasks|
    ensures SumOf(PendingEach(Step(s, e).tasks, c)) + Pending(s.tasks[i], c)
         == SumOf(PendingEach(s.tasks, c)) + Pending(Step(s, e).tasks[i], c)
  {
    var owing, owing' := PendingEach(s.tasks, c), PendingEach(Step(s, e).tasks, c);
    StepSpawns(s, e);
    forall k | 0 <= k < |owing| && k != i
      ensures owing'[k] == owing[k]
    {
      OthersGoOn(s, e, k);
    }
    assert owing' == owing[i := Pending(Step(s, e).tasks[i], c)];
    SumOfUpdate(owing, i, Pending(Step(s, e).tasks[i], c));
  }

  /** In every run, each counter, with what tasks have dropped or taken and not counted yet, is the
      number of events it is named for. */
  lemma {:induction false} EveryCounterExact(cfg: Config, events: seq<Event>, c: Counter)
    requires cfg.Valid()
    ensures var s := Run(Init(cfg), events);
            Read(s.core.stats, c) + SumOf(PendingEach(s.tasks, c)) == AllEvents(cfg, events, c)
  {
    if events == [] {
      assert PendingEach([], c) == [];
    } else {
      var before, e := events[..|events| - 1], events[|events| - 1];
      var s := Run(Init(cfg), before);
      EveryCounterExact(cfg, before, c);
      if Nameless(s, e) {
        NamelessEvents(cfg, before, e, c);
        NamelessOwes(s, e, c);
      } else {
        NamedEvents(cfg, before, e, e.i, c);
        PendingMoves(s, e, e.i, c);
      }
    }
  }

  lemma NamelessEvents(cfg: Config, events: seq<Event>, e: Event, c: Counter)
    requires Nameless(Run(Init(cfg), events), e)
    ensures Events(cfg, events, e, c) == 0
  {
  }

  lemma NamelessOwes(s: State, e: Event, c: Counter)
    requires Nameless(s, e)
    ensures SumOf(PendingEach(Step(s, e).tasks, c)) == SumOf(PendingEach(s.tasks, c))
    ensures Step(s, e).core.stats == s.core.stats
  {
    if e.Spawn? {
      assert PendingEach(Step(s, e).tasks, c) == PendingEach(s.tasks, c) + [0];
      SumOfAppend(PendingEach(s.tasks, c), 0);
    } else {
      assert Step(s, e).tasks == s.tasks;
    }
  }
}
