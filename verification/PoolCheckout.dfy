/** What a checkout hands out: with `test_on_check_out` only what the manager has just answered for,
    and otherwise also the newest idle connection. */
module PoolCheckout {
  import opened PoolTypes
  import opened WaitQueue
  import opened PoolCore
  import opened PoolProtocol
  import opened PoolRuns
  import opened PoolAlone
  import opened PoolSequential
  import opened PoolCalls

  /** The manager finds a connection valid, or opens one for a `get` or `try_get`. */
  predicate Answered(s: State, e: Event) {
    && e.Resolve? && e.ok && e.i < |s.tasks|
    && (s.tasks[e.i].Validating? || (s.tasks[e.i].Dialling? && !s.tasks[e.i].dialler.DialWarm?))
  }

  /** The connection it answers for. */
  function AnsweredFor(s: State, i: nat): Conn
    requires i < |s.tasks|
  {
    if s.tasks[i].Validating? then s.tasks[i].conn else Conn(s.book.nextConn, s.core.clock, s.core.clock)
  }

  /** A call that runs comes to hold a lease without asking the manager. */
  predicate TakesIdle(s: State, e: Event) {
    && (e.Advance? || e.Poll?) && e.i < |s.tasks| && e.i < |Step(s, e).tasks|
    && Step(s, e).tasks[e.i].Lease? && !s.tasks[e.i].Lease?
  }

  /** Task `i` took the newest idle connection, in a pool that does not test, or no lease is new. */
  predicate Takes(s: State, s': State, i: nat, testing: bool) {
    && i < |s.tasks| && i < |s'.tasks|
    && if s'.tasks[i].Lease? && !s.tasks[i].Lease?
       then
         && !testing && s'.book.leases == s.book.leases + 1 && s.core.idle != []
         && s'.tasks[i] == Lease(s.core.idle[|s.core.idle| - 1]) && s'.core.idle == s.core.idle[..|s.core.idle| - 1]
       else s'.book.leases == s.book.leases && (s'.tasks[i].Lease? ==> s'.tasks[i] == s.tasks[i])
  }

  lemma PopTurnTakes(s: State, i: nat, caller: Caller, at: Time, owed: bool)
    requires i < |s.tasks| && !s.tasks[i].Lease? && (caller.Fast? ==> !s.core.cfg.testOnCheckOut)
    ensures Takes(s, PopTurn(s, i, caller, at, owed), i, s.core.cfg.testOnCheckOut)
  {
  }

  lemma GoTakes(s: State, i: nat, cont: Cont, call: Call)
    requires i < |s.tasks| && !s.tasks[i].Lease? && MayGoOn(call, cont, s.core.cfg.testOnCheckOut)
    ensures Takes(s, Go(s, i, cont), i, s.core.cfg.testOnCheckOut)
  {
    var s1 := At(s, i, Waking(0, cont));
    match cont
    case PopOn(caller, at, owed) => PopTurnTakes(s1, i, caller, at, owed);
    case LoopTop(caller) =>
      PopTurnTakes(s1, i, if caller.Try? then caller else Inner(caller.Waited()), s.core.clock, false);
    case _ =>
  }

  lemma StartTakes(s: State, i: nat)
    requires i < |s.tasks| && s.tasks[i].Start?
    ensures Takes(s, AdvanceTask(s, i), i, s.core.cfg.testOnCheckOut)
  {
    var call := s.tasks[i].call;
    if FirstLoop(s.core, call).Some? {
      GoTakes(s, i, FirstLoop(s.core, call).value, call);
    }
  }

  /** Dropping connections, or waking a waiter. */
  lemma DropTakes(s: State, i: nat)
    requires i < |s.tasks| && !s.tasks[i].Start?
    requires s.tasks[i].Waking? ==> s.tasks[i].units > 0 && s.core.queue.entries != []
    ensures Takes(s, AdvanceTask(s, i), i, s.core.cfg.testOnCheckOut)
  {
  }

  lemma AdvanceTakes(s: State, i: nat, call: Call)
    requires PlaysIn(s, i, call, s.core.cfg.testOnCheckOut)
    ensures Takes(s, AdvanceTask(s, i), i, s.core.cfg.testOnCheckOut)
  {
    var t := s.tasks[i];
    if t.Start? {
      StartTakes(s, i);
    } else if t.Waking? && (t.units == 0 || s.core.queue.entries == []) {
      GoTakes(s, i, t.cont, call);
    } else {
      DropTakes(s, i);
    }
  }

  lemma PollTakes(s: State, i: nat)
    requires i < |s.tasks|
    ensures Takes(s, PollTask(s, i), i, s.core.cfg.testOnCheckOut)
  {
    var t, c := s.tasks[i], s.core;
    if t.Parked? && ReadyNow(c) && !c.closed {
      GoTakes(With(s, SetQueue(c, Unregister(c.queue, t.id).0)), i, PopOn(Inner(true), c.clock, t.woken), Get);
    } else if t.Backoff? {
      GoTakes(s, i, LoopTop(Inner(t.waited)), Get);
    }
  }

  /** Whether or not the manager is asked. */
  lemma ResolveLeases(s: State, i: nat, ok: bool)
    requires i < |s.tasks|
    ensures var s' := ResolveTask(s, i, ok);
            if Answered(s, Resolve(i, ok))
            then s'.book.leases == s.book.leases + 1 && s'.tasks[i] == Lease(AnsweredFor(s, i))
            else s'.book.leases == s.book.leases && (s'.tasks[i].Lease? ==> s'.tasks[i] == s.tasks[i])
  {
  }

  lemma EndLeases(s: State, e: Event, i: nat)
    requires i < |s.tasks| && Names(e, i) && (e.Cancel? || e.Return? || e.Take?)
    ensures i < |Step(s, e).tasks| && Step(s, e).book.leases == s.book.leases
    ensures Step(s, e).tasks[i].Lease? ==> Step(s, e).tasks[i] == s.tasks[i]
  {
  }

  /** The task that the event names, and the book. */
  lemma StepLeases(s: State, e: Event, i: nat, call: Call)
    requires PlaysIn(s, i, call, s.core.cfg.testOnCheckOut) && Names(e, i)
    ensures i < |Step(s, e).tasks|
    ensures Answered(s, e) ==>
              && Step(s, e).book.leases == s.book.leases + 1 && Step(s, e).tasks[i] == Lease(AnsweredFor(s, i))
    ensures e.Advance? || e.Poll? ==> Takes(s, Step(s, e), i, s.core.cfg.testOnCheckOut)
    ensures !Answered(s, e) && !e.Advance? && !e.Poll? ==>
              && Step(s, e).book.leases == s.book.leases
              && (Step(s, e).tasks[i].Lease? ==> Step(s, e).tasks[i] == s.tasks[i])
  {
    match e
    case Advance(_) => AdvanceTakes(s, i, call);
    case Poll(_) => PollTakes(s, i);
    case Resolve(_, ok) => ResolveLeases(s, i, ok);
    case _ => EndLeases(s, e, i);
  }

  /** A lease of task `k` that was not there before. */
  predicate NewLease(s: State, s': State, k: nat) {
    k < |s'.tasks| && s'.tasks[k].Lease? && (k < |s.tasks| ==> s'.tasks[k] != s.tasks[k])
  }

  /** In every run, each checkout is counted once, and there are two kinds. The manager has just found
      that connection valid or opened it, which always leads to a lease of it. Or a call takes the
      newest idle connection unasked, which never happens with `test_on_check_out`; without it
      nothing is ever validated. No other step makes a lease. */
  lemma EveryLeaseChecked(cfg: Config, events: seq<Event>, e: Event, k: nat)
    ensures var s := Run(Init(cfg), events);
            var s' := Step(s, e);
            && s'.book.leases == s.book.leases + (if Answered(s, e) || TakesIdle(s, e) then 1 else 0)
            && (Answered(s, e) ==> e.i < |s'.tasks| && s'.tasks[e.i] == Lease(AnsweredFor(s, e.i)))
            && (TakesIdle(s, e) ==>
                  && !cfg.testOnCheckOut && s.core.idle != []
                  && s'.tasks[e.i] == Lease(s.core.idle[|s.core.idle| - 1])
                  && s'.core.idle == s.core.idle[..|s.core.idle| - 1])
            && (NewLease(s, s', k) ==> (Answered(s, e) || TakesIdle(s, e)) && k == e.i)
            && (k < |s.tasks| && s.tasks[k].Validating? ==> cfg.testOnCheckOut)
  {
    var s := Run(Init(cfg), events);
    RunSettings(cfg, events);
    EveryCallKeepsToItsPart(cfg, events, k);
    StepSpawns(s, e);
    if k < |s.tasks| && !Names(e, k) {
      OthersGoOn(s, e, k);
    }
    if (e.Advance? || e.Poll? || e.Resolve? || e.Cancel? || e.Return? || e.Take?) && e.i < |s.tasks| {
      EveryCallKeepsToItsPart(cfg, events, e.i);
      StepLeases(s, e, e.i, Calls(events)[e.i]);
    }
  }

  // ---- A `try_get` whose connection fails validation ----

  lemma {:induction false} DiscardedExpired(idle: seq<Conn>, now: Time, cfg: Config)
    ensures forall k :: |idle| - |Discarded(idle, now, cfg)| <= k < |idle| ==> Expired(idle[k], now, cfg)
  {
    if idle != [] && Expired(idle[|idle| - 1], now, cfg) {
      DiscardedExpired(idle[..|idle| - 1], now, cfg);
    }
  }

  /** It tries the `n`-th idle connection, all later ones having expired; or it dials if all have. */
  ghost predicate GoesOnWith(idle: seq<Conn>, n: nat, r: State, i: nat, caller: Caller, now: Time) {
    && i < |r.tasks| && n <= |idle|
    && (forall k :: n <= k < |idle| ==> Expired(idle[k], now, r.core.cfg))
    && if n == 0 then r.tasks[i] == Dialling(DialTry) && r.core.idle == []
       else
         && !Expired(idle[n - 1], now, r.core.cfg)
         && r.tasks[i] == Validating(caller, idle[n - 1]) && r.core.idle == idle[..n - 1]
  }

  lemma PoppedGoesOn(r: State, i: nat, c: Core, caller: Caller, now: Time) returns (n: nat)
    requires Popped(r, i, c, caller, now) && caller.Try? && c.cfg.testOnCheckOut
    requires |c.idle| <= c.slots < c.cfg.maxSize
    ensures GoesOnWith(c.idle, n, r, i, caller, now)
  {
    n := |c.idle| - |Discarded(c.idle, now, c.cfg)|;
    PopFreshFinds(c, now);
    DiscardedExpired(c.idle, now, c.cfg);
  }

  /** The wakes sent, it goes round its loop. */
  lemma TryLoopAlone(s: State, i: nat, units: nat, caller: Caller) returns (n: nat)
    requires i < |s.tasks| && s.tasks[i] == Waking(units, LoopTop(caller)) && Mirrored(s)
    requires caller.Try? && s.core.cfg.testOnCheckOut && |s.core.idle| <= s.core.slots < s.core.cfg.maxSize
    ensures GoesOnWith(s.core.idle, n, Alone(s, i), i, caller, s.core.clock)
  {
    var s1 := WakesFirst(s, i, units, LoopTop(caller));
    var s2 := At(s1, i, Waking(0, LoopTop(caller)));
    assert AdvanceTask(s1, i) == PopTurn(s2, i, caller, s.core.clock, false);
    PopTurnAlone(s2, i, caller, s.core.clock, false);
    n := PoppedGoesOn(Alone(s1, i), i, s1.core, caller, s.core.clock);
  }

  /** In every reachable state, open or closed, a `try_get` whose connection fails validation goes on,
      if nothing re-enters, with the newest idle connection that has not expired, and otherwise with
      a dial: the dropped connection has left room for one. */
  lemma TryGoesOn(cfg: Config, events: seq<Event>, i: nat) returns (n: nat)
    requires cfg.Valid()
    requires var s := Run(Init(cfg), events); i < |s.tasks| && s.tasks[i].Validating? && s.tasks[i].caller.Try?
    ensures var s := Run(Init(cfg), events);
            && i < |Step(s, Resolve(i, false)).tasks|
            && GoesOnWith(s.core.idle, n, Alone(Step(s, Resolve(i, false)), i), i, s.tasks[i].caller, s.core.clock)
  {
    var s := Run(Init(cfg), events);
    var caller := s.tasks[i].caller;
    EveryRun(cfg, events);
    EveryCallKeepsToItsPart(cfg, events, i);
    RunSettings(cfg, events);
    HoldsItsSlot(s, i);
    var s1 := Step(s, Resolve(i, false));
    var s2 := AdvanceTask(s1, i);
    assert s2.tasks[i].Waking? && s2.tasks[i].cont == LoopTop(caller);
    n := TryLoopAlone(s2, i, s2.tasks[i].units, caller);
  }
}
