/** What each call may come to: its own stands and its own ends, why it ends or pauses so, and the
    numbers it reports. Stated on tasks and on the calls that the run began. */
module PoolCalls {
  import opened PoolTypes
  import opened WaitQueue
  import opened PoolCore
  import opened PoolProtocol
  import opened PoolAlone

  // ---- Every call keeps to its own part ----

  /** The calls begun in a run, in order: task `i` is the `i`-th. */
  function Calls(events: seq<Event>): seq<Call> {
    if events == [] then []
    else
      var e := events[|events| - 1];
      Calls(events[..|events| - 1]) + if e.Spawn? then [e.call] else []
  }

  /** How a call may end. */
  predicate MayEnd(call: Call, end: End) {
    match end
    case ClosedErr => call.Get? || call.TryGet?
    case Failed => call.Get? || call.TryGet? || call.Warm?
    case Count(_) => call.Reap? || call.Clear?
    case Returned => call.Get? || call.TryGet?
    case TakenOut => call.Get? || call.TryGet?
    case Cancelled => call.Get? || call.TryGet? || call.Warm?
  }

  /** The fast path is for a `get` that does not test connections. */
  predicate MayPop(call: Call, caller: Caller, testing: bool) {
    if caller.Try? then call.TryGet? else call.Get? && (caller.Fast? ==> !testing)
  }

  predicate MayGoOn(call: Call, cont: Cont, testing: bool) {
    match cont
    case PopOn(caller, _, _) => MayPop(call, caller, testing)
    case LoopTop(caller) => MayPop(call, caller, testing) && !caller.Fast?
    case WarmLoop(_) => call.Warm?
    case Sleep(_) => call.Get?
    case Finish(end) => MayEnd(call, end)
  }

  /** Where a call may stand, in a pool that tests connections on checkout or does not. */
  predicate Plays(call: Call, t: Task, testing: bool) {
    match t
    case Start(c) => c == call
    case Parked(_, _) => call.Get?
    case Discarding(caller, _, _, _, _) => MayPop(call, caller, testing)
    case Waking(_, cont) => MayGoOn(call, cont, testing)
    case Validating(caller, _) => testing && MayPop(call, caller, testing)
    case DroppingHeld(_, cont) => MayGoOn(call, cont, testing) && Settled(t)
    case Dialling(dialler) =>
      (match dialler
       case DialGet(_) => call.Get?
       case DialTry => call.TryGet?
       case DialWarm(_) => call.Warm?)
    case Backoff(_) => call.Get?
    case Lease(_) => call.Get? || call.TryGet?
    case AskBroken(_) => call.Get? || call.TryGet?
    case DroppingReturn(_, _) => call.Get? || call.TryGet?
    case Reaping(_, _) => call.Reap?
    case Clearing(_, _) => call.Clear?
    case Done(outcome) =>
      (match outcome
       case NoneFree => call.TryGet?
       case Warmed(_) => call.Warm?
       case Ended(end) => MayEnd(call, end))
  }

  /** A connection that failed validation, or whose validation was cancelled. */
  predicate Settled(t: Task) {
    t.DroppingHeld? ==> t.cont.LoopTop? || t.cont == Finish(Cancelled)
  }

  predicate PlaysIn(s: State, i: nat, call: Call, testing: bool) {
    i < |s.tasks| && Plays(call, s.tasks[i], testing)
  }

  lemma PopTurnPlays(s: State, i: nat, caller: Caller, at: Time, owed: bool, call: Call)
    requires i < |s.tasks| && MayPop(call, caller, s.core.cfg.testOnCheckOut)
    ensures PlaysIn(PopTurn(s, i, caller, at, owed), i, call, s.core.cfg.testOnCheckOut)
  {
  }

  lemma GoPlays(s: State, i: nat, cont: Cont, call: Call)
    requires i < |s.tasks| && MayGoOn(call, cont, s.core.cfg.testOnCheckOut)
    ensures PlaysIn(Go(s, i, cont), i, call, s.core.cfg.testOnCheckOut)
  {
    var s1 := At(s, i, Waking(0, cont));
    match cont
    case PopOn(caller, at, owed) => PopTurnPlays(s1, i, caller, at, owed, call);
    case LoopTop(caller) =>
      PopTurnPlays(s1, i, if caller.Try? then caller else Inner(caller.Waited()), s.core.clock, false, call);
    case _ =>
  }

  lemma DropPlays(s: State, i: nat, call: Call)
    requires PlaysIn(s, i, call, s.core.cfg.testOnCheckOut)
    requires s.tasks[i].Discarding? || s.tasks[i].DroppingHeld? || s.tasks[i].DroppingReturn?
    ensures PlaysIn(AdvanceTask(s, i), i, call, s.core.cfg.testOnCheckOut)
  {
  }

  /** Dropping a batch, or not in the middle of its code. */
  lemma BatchPlays(s: State, i: nat, call: Call)
    requires PlaysIn(s, i, call, s.core.cfg.testOnCheckOut) && !s.tasks[i].Start? && !s.tasks[i].Waking?
    requires !s.tasks[i].Discarding? && !s.tasks[i].DroppingHeld? && !s.tasks[i].DroppingReturn?
    ensures PlaysIn(AdvanceTask(s, i), i, call, s.core.cfg.testOnCheckOut)
  {
  }

  lemma WakePlays(s: State, i: nat, call: Call)
    requires PlaysIn(s, i, call, s.core.cfg.testOnCheckOut) && s.tasks[i].Waking?
    requires s.tasks[i].units > 0 && s.core.queue.entries != []
    ensures PlaysIn(AdvanceTask(s, i), i, call, s.core.cfg.testOnCheckOut)
  {
  }

  lemma StartPlays(s: State, i: nat, call: Call)
    requires i < |s.tasks| && s.tasks[i] == Start(call)
    ensures PlaysIn(AdvanceTask(s, i), i, call, s.core.cfg.testOnCheckOut)
  {
    if FirstLoop(s.core, call).Some? {
      GoPlays(s, i, FirstLoop(s.core, call).value, call);
    }
  }

  lemma AdvancePlays(s: State, i: nat, call: Call)
    requires PlaysIn(s, i, call, s.core.cfg.testOnCheckOut)
    ensures PlaysIn(AdvanceTask(s, i), i, call, s.core.cfg.testOnCheckOut)
  {
    var t := s.tasks[i];
    if t.Start? {
      StartPlays(s, i, call);
    } else if t.Discarding? || t.DroppingHeld? || t.DroppingReturn? {
      DropPlays(s, i, call);
    } else if !t.Waking? {
      BatchPlays(s, i, call);
    } else if t.units > 0 && s.core.queue.entries != [] {
      WakePlays(s, i, call);
    } else {
      GoPlays(s, i, t.cont, call);
    }
  }

  lemma PollPlays(s: State, i: nat, call: Call)
    requires PlaysIn(s, i, call, s.core.cfg.testOnCheckOut)
    ensures PlaysIn(PollTask(s, i), i, call, s.core.cfg.testOnCheckOut)
  {
    var t, c := s.tasks[i], s.core;
    if t.Parked? && ReadyNow(c) && !c.closed {
      GoPlays(With(s, SetQueue(c, Unregister(c.queue, t.id).0)), i, PopOn(Inner(true), c.clock, t.woken), call);
    } else if t.Backoff? {
      GoPlays(s, i, LoopTop(Inner(t.waited)), call);
    }
  }

  lemma ResolvePlays(s: State, i: nat, ok: bool, call: Call)
    requires PlaysIn(s, i, call, s.core.cfg.testOnCheckOut)
    ensures PlaysIn(ResolveTask(s, i, ok), i, call, s.core.cfg.testOnCheckOut)
  {
  }

  lemma CancelPlays(s: State, i: nat, timedOut: bool, call: Call)
    requires PlaysIn(s, i, call, s.core.cfg.testOnCheckOut)
    ensures PlaysIn(CancelTask(s, i, timedOut), i, call, s.core.cfg.testOnCheckOut)
  {
  }

  lemma LeaseEndPlays(s: State, i: nat, call: Call)
    requires PlaysIn(s, i, call, s.core.cfg.testOnCheckOut)
    ensures PlaysIn(ReturnLease(s, i), i, call, s.core.cfg.testOnCheckOut)
    ensures PlaysIn(TakeLease(s, i), i, call, s.core.cfg.testOnCheckOut)
  {
  }

  lemma StepPlays(s: State, e: Event, i: nat, call: Call)
    requires PlaysIn(s, i, call, s.core.cfg.testOnCheckOut)
    ensures PlaysIn(Step(s, e), i, call, s.core.cfg.testOnCheckOut)
  {
    if !Names(e, i) {
      OthersGoOn(s, e, i);
    } else if e.Advance? {
      AdvancePlays(s, i, call);
    } else if e.Poll? {
      PollPlays(s, i, call);
    } else if e.Resolve? {
      ResolvePlays(s, i, e.ok, call);
    } else if e.Cancel? {
      CancelPlays(s, i, e.timedOut, call);
    } else {
      LeaseEndPlays(s, i, call);
    }
  }

  /** Only a call that begins adds a task, the last one. */
  lemma StepSpawns(s: State, e: Event)
    ensures |Step(s, e).tasks| == |s.tasks| + if e.Spawn? then 1 else 0
    ensures e.Spawn? ==> Step(s, e).tasks == s.tasks + [Start(e.call)]
  {
    match e
    case Advance(k) => if k < |s.tasks| { AdvanceTasks(s, k); }
    case Poll(k) => if k < |s.tasks| { PollTasks(s, k); }
    case _ =>
  }

  /** The event names no task. */
  predicate Nameless(s: State, e: Event) {
    e.Spawn? || e.Close? || e.Tick? || e.i >= |s.tasks|
  }

  lemma GoSettings(s: State, i: nat, cont: Cont)
    requires i < |s.tasks|
    ensures Go(s, i, cont).core.cfg == s.core.cfg && Go(s, i, cont).core.closed == s.core.closed
  {
  }

  lemma AdvanceSettings(s: State, i: nat)
    requires i < |s.tasks|
    ensures AdvanceTask(s, i).core.cfg == s.core.cfg && AdvanceTask(s, i).core.closed == s.core.closed
  {
    var t, c := s.tasks[i], s.core;
    if t.Waking? && (t.units == 0 || c.queue.entries == []) {
      GoSettings(s, i, t.cont);
    } else if t.Start? && FirstLoop(c, t.call).Some? {
      GoSettings(s, i, FirstLoop(c, t.call).value);
    }
  }

  lemma PollSettings(s: State, i: nat)
    requires i < |s.tasks|
    ensures PollTask(s, i).core.cfg == s.core.cfg && PollTask(s, i).core.closed == s.core.closed
  {
    var t, c := s.tasks[i], s.core;
    if t.Parked? && ReadyNow(c) && !c.closed {
      GoSettings(With(s, SetQueue(c, Unregister(c.queue, t.id).0)), i, PopOn(Inner(true), c.clock, t.woken));
    } else if t.Backoff? {
      GoSettings(s, i, LoopTop(Inner(t.waited)));
    }
  }

  /** No step changes the configuration, and a pool is closed by `close` alone, for good. */
  lemma StepSettings(s: State, e: Event)
    ensures Step(s, e).core.cfg == s.core.cfg && Step(s, e).core.closed == (s.core.closed || e.Close?)
  {
    match e
    case Advance(i) => if i < |s.tasks| { AdvanceSettings(s, i); }
    case Poll(i) => if i < |s.tasks| { PollSettings(s, i); }
    case _ =>
  }

  lemma {:induction false} RunSettings(cfg: Config, events: seq<Event>)
    ensures Run(Init(cfg), events).core.cfg == cfg
  {
    if events != [] {
      RunSettings(cfg, events[..|events| - 1]);
      StepSettings(Run(Init(cfg), events[..|events| - 1]), events[|events| - 1]);
    }
  }

  /** In every run, each task stands where its call may, and ends as its call may. */
  lemma {:induction false} EveryCallKeepsToItsPart(cfg: Config, events: seq<Event>, i: nat)
    ensures var s := Run(Init(cfg), events);
            |s.tasks| == |Calls(events)| && (i < |s.tasks| ==> PlaysIn(s, i, Calls(events)[i], cfg.testOnCheckOut))
  {
    if events != [] {
      var before, e := events[..|events| - 1], events[|events| - 1];
      var s := Run(Init(cfg), before);
      EveryCallKeepsToItsPart(cfg, before, i);
      RunSettings(cfg, before);
      StepSpawns(s, e);
      if i < |s.tasks| {
        StepPlays(s, e, i, Calls(before)[i]);
      }
    }
  }

  // ---- How a call comes to its end ----

  /** The end that is settled for a task, though connections may still be dropped and waiters woken
      first. */
  function Fate(t: Task): Option<End> {
    match t
    case Waking(_, cont) => if cont.Finish? then Some(cont.end) else None
    case DroppingHeld(_, cont) => if cont.Finish? then Some(cont.end) else None
    case AskBroken(_) => Some(Returned)
    case DroppingReturn(_, _) => Some(Returned)
    case Reaping(_, total) => Some(Count(total))
    case Clearing(_, total) => Some(Count(total))
    case Done(outcome) => if outcome.Ended? then Some(outcome.end) else None
    case _ => None
  }

  /** The task pauses, or will once its wakes are sent. */
  predicate BacksOff(t: Task) {
    t.Backoff? || (t.Waking? && t.cont.Sleep?)
  }

  predicate AtAwait(t: Task) {
    t.Parked? || t.Validating? || t.Dialling? || t.Backoff?
  }

  /** A `get` tries again after a refused dial. */
  predicate Retries(s: State, call: Call) {
    call.Get? && s.core.cfg.retryConnection && !s.core.closed
  }

  /** The end that a step settles for a task that had none: a cancellation, the end of a lease, a
      refused dial that is not retried, or a batch taken off the idle list. */
  function Settles(s: State, e: Event, t: Task, call: Call): Option<End> {
    match e
    case Cancel(_, _) => if AtAwait(t) then Some(Cancelled) else None
    case Return(_) => if t.Lease? then Some(Returned) else None
    case Take(_) => if t.Lease? then Some(TakenOut) else None
    case Resolve(_, ok) => if !ok && t.Dialling? && !Retries(s, call) then Some(Failed) else None
    case Advance(_) => if t == Start(Reap) || t == Start(Clear) then Some(Count(|s.core.idle| - |Step(s, e).core.idle|)) else None
    case _ => None
  }

  /** The end of a task and whether it pauses, after a step that settles `settled` for it. The closed
      error alone may come from the state of the pool. */
  predicate Fated(t: Task, t': Task, settled: Option<End>, closed: bool, pauses: bool) {
    && (if Fate(t).Some? then Fate(t') == Fate(t)
        else if settled.Some? then Fate(t') == settled
        else Fate(t').None? || (closed && Fate(t') == Some(ClosedErr)))
    && (BacksOff(t') && !BacksOff(t) <==> pauses)
    && (t.Done? ==> t' == t)
  }

  lemma GoFated(s: State, i: nat, cont: Cont)
    requires i < |s.tasks|
    ensures Fated(Waking(0, cont), Go(s, i, cont).tasks[i], None, s.core.closed, false)
  {
  }

  /** Dropping a connection, or not in the middle of its code. */
  lemma DropFated(s: State, i: nat)
    requires i < |s.tasks| && Settled(s.tasks[i]) && !s.tasks[i].Start? && !s.tasks[i].Waking?
    requires !s.tasks[i].Reaping? && !s.tasks[i].Clearing?
    ensures i < |AdvanceTask(s, i).tasks|
    ensures Fated(s.tasks[i], AdvanceTask(s, i).tasks[i], None, s.core.closed, false)
  {
  }

  lemma BatchFated(s: State, i: nat)
    requires i < |s.tasks| && (s.tasks[i].Reaping? || s.tasks[i].Clearing?)
    ensures i < |AdvanceTask(s, i).tasks|
    ensures Fated(s.tasks[i], AdvanceTask(s, i).tasks[i], None, s.core.closed, false)
  {
  }

  lemma WakeFated(s: State, i: nat)
    requires i < |s.tasks| && s.tasks[i].Waking? && s.tasks[i].units > 0 && s.core.queue.entries != []
    ensures i < |AdvanceTask(s, i).tasks|
    ensures Fated(s.tasks[i], AdvanceTask(s, i).tasks[i], None, s.core.closed, false)
  {
  }

  lemma BatchStartFated(s: State, i: nat, call: Call)
    requires i < |s.tasks| && s.tasks[i] == Start(call) && (call.Reap? || call.Clear?)
    ensures i < |AdvanceTask(s, i).tasks|
    ensures Fated(s.tasks[i], AdvanceTask(s, i).tasks[i], Settles(s, Advance(i), s.tasks[i], call), s.core.closed, false)
  {
  }

  lemma StartFated(s: State, i: nat, call: Call)
    requires i < |s.tasks| && s.tasks[i] == Start(call) && !call.Reap? && !call.Clear?
    ensures i < |AdvanceTask(s, i).tasks|
    ensures Fated(s.tasks[i], AdvanceTask(s, i).tasks[i], None, s.core.closed, false)
  {
    if FirstLoop(s.core, call).Some? {
      GoFated(s, i, FirstLoop(s.core, call).value);
    }
  }

  lemma AdvanceFated(s: State, i: nat, call: Call)
    requires i < |s.tasks| && Settled(s.tasks[i]) && (s.tasks[i].Start? ==> s.tasks[i].call == call)
    ensures i < |AdvanceTask(s, i).tasks|
    ensures Fated(s.tasks[i], AdvanceTask(s, i).tasks[i], Settles(s, Advance(i), s.tasks[i], call), s.core.closed, false)
  {
    var t := s.tasks[i];
    if t == Start(Reap) || t == Start(Clear) {
      BatchStartFated(s, i, call);
    } else if t.Start? {
      StartFated(s, i, call);
    } else if t.Reaping? || t.Clearing? {
      BatchFated(s, i);
    } else if !t.Waking? {
      DropFated(s, i);
    } else if t.units > 0 && s.core.queue.entries != [] {
      WakeFated(s, i);
    } else {
      GoFated(s, i, t.cont);
    }
  }

  lemma PollFated(s: State, i: nat)
    requires i < |s.tasks|
    ensures i < |PollTask(s, i).tasks|
    ensures Fated(s.tasks[i], PollTask(s, i).tasks[i], None, s.core.closed, false)
  {
    var t, c := s.tasks[i], s.core;
    if t.Parked? && ReadyNow(c) && !c.closed {
      GoFated(With(s, SetQueue(c, Unregister(c.queue, t.id).0)), i, PopOn(Inner(true), c.clock, t.woken));
    } else if t.Backoff? {
      GoFated(s, i, LoopTop(Inner(t.waited)));
    }
  }

  lemma ResolveFated(s: State, i: nat, ok: bool, call: Call)
    requires i < |s.tasks| && (s.tasks[i].Dialling? ==> s.tasks[i].dialler.DialGet? == call.Get?)
    ensures Fated(s.tasks[i], ResolveTask(s, i, ok).tasks[i], Settles(s, Resolve(i, ok), s.tasks[i], call),
                  s.core.closed, !ok && s.tasks[i].Dialling? && Retries(s, call))
  {
  }

  lemma CancelFated(s: State, i: nat, timedOut: bool, call: Call)
    requires i < |s.tasks|
    ensures Fated(s.tasks[i], CancelTask(s, i, timedOut).tasks[i], Settles(s, Cancel(i, timedOut), s.tasks[i], call),
                  s.core.closed, false)
  {
  }

  lemma LeaseEndFated(s: State, i: nat, call: Call)
    requires i < |s.tasks|
    ensures Fated(s.tasks[i], ReturnLease(s, i).tasks[i], Settles(s, Return(i), s.tasks[i], call), s.core.closed, false)
    ensures Fated(s.tasks[i], TakeLease(s, i).tasks[i], Settles(s, Take(i), s.tasks[i], call), s.core.closed, false)
  {
  }

  /** The manager refuses a dial of a `get` that retries. */
  predicate Pauses(s: State, e: Event, t: Task, call: Call) {
    e.Resolve? && !e.ok && t.Dialling? && Retries(s, call)
  }

  lemma StepFated(s: State, e: Event, i: nat, call: Call, testing: bool)
    requires PlaysIn(s, i, call, testing) && Names(e, i)
    ensures i < |Step(s, e).tasks|
    ensures var t := s.tasks[i];
            Fated(t, Step(s, e).tasks[i], Settles(s, e, t, call), s.core.closed, Pauses(s, e, t, call))
  {
    match e
    case Advance(_) => AdvanceFated(s, i, call);
    case Poll(_) => PollFated(s, i);
    case Resolve(_, ok) => ResolveFated(s, i, ok, call);
    case Cancel(_, timedOut) => CancelFated(s, i, timedOut, call);
    case _ => LeaseEndFated(s, i, call);
  }

  /** In every run: the end of a call is settled once, by its cancellation, by its lease being returned
      or taken, by a dial that the manager refuses and that is not retried, or as a batch is taken
      off the idle list, and then as just that; or it is the closed error of a closed pool. A call
      comes to pause exactly when a dial of a `get` is refused on an open pool with
      `retry_connection`. Steps that name another task settle nothing. */
  lemma EveryEndSettledOnce(cfg: Config, events: seq<Event>, e: Event, i: nat)
    requires i < |Run(Init(cfg), events).tasks|
    ensures var s := Run(Init(cfg), events);
            && |s.tasks| == |Calls(events)| && i < |Step(s, e).tasks|
            && var t, t', call := s.tasks[i], Step(s, e).tasks[i], Calls(events)[i];
            if Names(e, i) then Fated(t, t', Settles(s, e, t, call), s.core.closed, Pauses(s, e, t, call))
            else Fated(t, t', None, false, false)
  {
    var s := Run(Init(cfg), events);
    EveryCallKeepsToItsPart(cfg, events, i);
    if Names(e, i) {
      StepFated(s, e, i, Calls(events)[i], cfg.testOnCheckOut);
    } else {
      OthersGoOn(s, e, i);
    }
  }

  /** In every run, the closed error is given only once the pool is closed. */
  lemma {:induction false} ClosedErrorOnlyIfClosed(cfg: Config, events: seq<Event>, i: nat)
    ensures var s := Run(Init(cfg), events); i < |s.tasks| && Fate(s.tasks[i]) == Some(ClosedErr) ==> s.core.closed
  {
    if events != [] {
      var before, e := events[..|events| - 1], events[|events| - 1];
      var s := Run(Init(cfg), before);
      ClosedErrorOnlyIfClosed(cfg, before, i);
      StepSettings(s, e);
      StepSpawns(s, e);
      if i < |s.tasks| {
        EveryEndSettledOnce(cfg, before, e, i);
      }
    }
  }

  // ---- The numbers that calls report ----

  /** What a `warm`, `reap` or `clear` has to report so far, or did report. */
  function Tally(t: Task): Option<nat> {
    match t
    case Start(call) => if call.Get? || call.TryGet? then None else Some(0)
    case Dialling(dialler) => if dialler.DialWarm? then Some(dialler.made) else None
    case Reaping(_, total) => Some(total)
    case Clearing(_, total) => Some(total)
    case Waking(_, cont) =>
      (match cont
       case WarmLoop(made) => Some(made)
       case Finish(end) => if end.Count? then Some(end.n) else None
       case _ => None)
    case Done(outcome) =>
      (match outcome
       case NoneFree => None
       case Warmed(made) => Some(made)
       case Ended(end) => if end.Count? then Some(end.n) else None)
    case _ => None
  }

  /** What a step adds to it: a connection opened, or the connections a `reap` or `clear` takes off
      the idle list as it begins. */
  function Gain(s: State, e: Event, i: nat): int {
    if i >= |s.tasks| then 0
    else if e == Resolve(i, true) && s.tasks[i].Dialling? then 1
    else if e == Advance(i) && (s.tasks[i] == Start(Reap) || s.tasks[i] == Start(Clear))
         then |s.core.idle| - |Step(s, e).core.idle|
    else 0
  }

  predicate Tallies(t: Task, t': Task, gain: int) {
    Tally(t').Some? ==> Tally(t).Some? && Tally(t').value == Tally(t).value + gain
  }

  lemma GoTallies(s: State, i: nat, cont: Cont)
    requires i < |s.tasks|
    ensures Tallies(Waking(0, cont), Go(s, i, cont).tasks[i], 0)
  {
  }

  lemma DropTallies(s: State, i: nat)
    requires i < |s.tasks| && Settled(s.tasks[i]) && !s.tasks[i].Start? && !s.tasks[i].Waking?
    ensures i < |AdvanceTask(s, i).tasks| && Tallies(s.tasks[i], AdvanceTask(s, i).tasks[i], 0)
  {
  }

  lemma WakeTallies(s: State, i: nat)
    requires i < |s.tasks| && s.tasks[i].Waking? && s.tasks[i].units > 0 && s.core.queue.entries != []
    ensures i < |AdvanceTask(s, i).tasks| && Tallies(s.tasks[i], AdvanceTask(s, i).tasks[i], 0)
  {
  }

  lemma StartTallies(s: State, i: nat)
    requires i < |s.tasks| && s.tasks[i].Start?
    ensures i < |AdvanceTask(s, i).tasks|
    ensures Tallies(s.tasks[i], AdvanceTask(s, i).tasks[i], Gain(s, Advance(i), i))
  {
    var call := s.tasks[i].call;
    if FirstLoop(s.core, call).Some? {
      GoTallies(s, i, FirstLoop(s.core, call).value);
    }
  }

  lemma AdvanceTallies(s: State, i: nat)
    requires i < |s.tasks| && Settled(s.tasks[i])
    ensures i < |AdvanceTask(s, i).tasks|
    ensures Tallies(s.tasks[i], AdvanceTask(s, i).tasks[i], Gain(s, Advance(i), i))
  {
    var t := s.tasks[i];
    if t.Start? {
      StartTallies(s, i);
    } else if !t.Waking? {
      DropTallies(s, i);
    } else if t.units > 0 && s.core.queue.entries != [] {
      WakeTallies(s, i);
    } else {
      GoTallies(s, i, t.cont);
    }
  }

  lemma PollTallies(s: State, i: nat)
    requires i < |s.tasks|
    ensures i < |PollTask(s, i).tasks| && Tallies(s.tasks[i], PollTask(s, i).tasks[i], 0)
  {
    var t, c := s.tasks[i], s.core;
    if t.Parked? && ReadyNow(c) && !c.closed {
      GoTallies(With(s, SetQueue(c, Unregister(c.queue, t.id).0)), i, PopOn(Inner(true), c.clock, t.woken));
    } else if t.Backoff? {
      GoTallies(s, i, LoopTop(Inner(t.waited)));
    }
  }

  lemma ResolveTallies(s: State, i: nat, ok: bool)
    requires i < |s.tasks|
    ensures Tallies(s.tasks[i], ResolveTask(s, i, ok).tasks[i], Gain(s, Resolve(i, ok), i))
  {
  }

  lemma EndTallies(s: State, e: Event, i: nat)
    requires i < |s.tasks| && Names(e, i) && (e.Cancel? || e.Return? || e.Take?)
    ensures i < |Step(s, e).tasks| && Tallies(s.tasks[i], Step(s, e).tasks[i], 0)
  {
  }

  lemma StepTallies(s: State, e: Event, i: nat, call: Call, testing: bool)
    requires PlaysIn(s, i, call, testing)
    ensures i < |Step(s, e).tasks| && Tallies(s.tasks[i], Step(s, e).tasks[i], Gain(s, e, i))
  {
    if !Names(e, i) {
      OthersGoOn(s, e, i);
    } else if e.Advance? {
      AdvanceTallies(s, i);
    } else if e.Poll? {
      PollTallies(s, i);
    } else if e.Resolve? {
      ResolveTallies(s, i, e.ok);
    } else {
      EndTallies(s, e, i);
    }
  }

  /** How many connections the call of task `i` has opened, or taken off the idle list as it began. */
  ghost function Achieved(cfg: Config, events: seq<Event>, i: nat): int {
    if events == [] then 0
    else
      var before := events[..|events| - 1];
      Achieved(cfg, before, i) + Gain(Run(Init(cfg), before), events[|events| - 1], i)
  }

  /** In every run, `warm` reports the connections it opened, `reap` and `clear` those they took off
      the idle list. */
  lemma {:induction false} NumbersReported(cfg: Config, events: seq<Event>, i: nat)
    ensures var s := Run(Init(cfg), events);
            if i < |s.tasks| then Tally(s.tasks[i]).Some? ==> Tally(s.tasks[i]).value == Achieved(cfg, events, i)
            else Achieved(cfg, events, i) == 0
  {
    if events != [] {
      var before, e := events[..|events| - 1], events[|events| - 1];
      var s := Run(Init(cfg), before);
      NumbersReported(cfg, before, i);
      EveryCallKeepsToItsPart(cfg, before, i);
      StepSpawns(s, e);
      if i < |s.tasks| {
        StepTallies(s, e, i, Calls(before)[i], cfg.testOnCheckOut);
      }
    }
  }
}
