/** What happens to a pool once it is closed. */
module PoolClosing {
  import opened PoolTypes
  import opened WaitQueue
  import opened PoolCore
  import opened PoolProtocol
  import opened PoolAlone
  import opened PoolRuns

  // ---- Nobody joins the queue any more ----

  /** The queue may lose entries but gains none: `register` issued no new id. */
  ghost predicate OnlyShrinks(c: Core, c': Core) {
    c'.closed && c'.queue.nextId == c.queue.nextId && |c'.queue.entries| <= |c.queue.entries|
  }

  lemma GoShrinks(s: State, i: nat, cont: Cont)
    requires i < |s.tasks| && s.core.closed
    ensures OnlyShrinks(s.core, Go(s, i, cont).core)
  {
  }

  lemma AdvanceShrinks(s: State, i: nat)
    requires i < |s.tasks| && s.core.closed
    ensures OnlyShrinks(s.core, AdvanceTask(s, i).core)
  {
    if s.tasks[i].Waking? {
      GoShrinks(s, i, s.tasks[i].cont);
    }
  }

  lemma PollShrinks(s: State, i: nat)
    requires i < |s.tasks| && s.core.closed
    ensures OnlyShrinks(s.core, PollTask(s, i).core)
  {
    if s.tasks[i].Backoff? {
      GoShrinks(s, i, LoopTop(Inner(s.tasks[i].waited)));
    }
  }

  lemma StepShrinks(s: State, e: Event)
    requires s.core.closed
    ensures OnlyShrinks(s.core, Step(s, e).core)
  {
    match e
    case Advance(i) => if i < |s.tasks| { AdvanceShrinks(s, i); }
    case Poll(i) => if i < |s.tasks| { PollShrinks(s, i); }
    case _ =>
  }

  /** After `close`, in every continuation of every run, no waiter is queued again. */
  lemma {:induction false} ClosedQueueOnlyShrinks(s: State, events: seq<Event>)
    requires s.core.closed
    ensures OnlyShrinks(s.core, Run(s, events).core)
  {
    if events != [] {
      ClosedQueueOnlyShrinks(s, events[..|events| - 1]);
      StepShrinks(Run(s, events[..|events| - 1]), events[|events| - 1]);
    }
  }

  // ---- The first to notice empties the queue ----

  /** Nobody is queued, or some task is waking at least as many as are queued. */
  ghost predicate Draining(s: State) {
    s.core.queue.entries == [] || exists i :: WakesAll(s, i)
  }

  ghost predicate WakesAll(s: State, i: nat) {
    i < |s.tasks| && s.tasks[i].Waking? && s.tasks[i].units >= |s.core.queue.entries|
  }

  lemma StepDraining(s: State, e: Event)
    requires s.core.closed && Draining(s)
    ensures Draining(Step(s, e))
  {
    var s' := Step(s, e);
    StepShrinks(s, e);
    if s.core.queue.entries != [] {
      var i :| WakesAll(s, i);
      if Names(e, i) {
        if e.Advance? {
          AdvanceDraining(s, i);
        } else {
          assert WakesAll(s', i);
        }
      } else {
        OthersGoOn(s, e, i);
        assert WakesAll(s', i);
      }
    }
  }

  lemma AdvanceDraining(s: State, i: nat)
    requires WakesAll(s, i) && s.core.queue.entries != []
    ensures WakesAll(AdvanceTask(s, i), i)
  {
    var e := s.core.queue.entries[0];
    var t := s.tasks[i];
    assert AdvanceTask(s, i) == WakeOldest(At(s, i, Waking(t.units - 1, t.cont)));
  }

  /** A step of a closed pool that notices the flag: a poll of a parked waiter, or whatever
      notifies: a dropped connection, a `clear`, a reap that found something, a failed or
      cancelled dial, a `take`, a connection parked. */
  predicate Notices(s: State, e: Event) {
    && s.core.closed
    && (|| (e.Poll? && e.i < |s.tasks| && s.tasks[e.i].Parked?)
        || (e.Advance? && e.i < |s.tasks|
            && (s.tasks[e.i].Discarding? || s.tasks[e.i].DroppingHeld? || s.tasks[e.i].DroppingReturn?
                || (s.tasks[e.i].Clearing? && s.tasks[e.i].left == [])
                || (s.tasks[e.i].Reaping? && s.tasks[e.i].left == [] && s.tasks[e.i].total > 0)))
        || (e.Take? && e.i < |s.tasks| && s.tasks[e.i].Lease?)
        || (e.Cancel? && e.i < |s.tasks| && s.tasks[e.i].Dialling?)
        || (e.Resolve? && e.i < |s.tasks| && s.tasks[e.i].Dialling? && (!e.ok || s.tasks[e.i].dialler.DialWarm?))
        || (e.Resolve? && e.i < |s.tasks| && s.tasks[e.i].AskBroken? && e.ok
            && !Expired(s.tasks[e.i].conn, s.core.clock, s.core.cfg)))
  }

  /** `wake_all` counts in 32 bits, so the queue must not be longer than that. */
  lemma NoticingDrains(s: State, e: Event)
    requires Notices(s, e) && |s.core.queue.entries| <= U32_MAX
    ensures Draining(Step(s, e))
  {
    var s' := Step(s, e);
    StepShrinks(s, e);
    assert WakesAll(s', e.i);
  }

  /** Once any step has noticed, the queue stays empty or on its way to empty, and it is empty
      as soon as no task is in the middle of its code. */
  lemma {:induction false} ClosingDrainsTheQueue(s: State, e: Event, events: seq<Event>)
    requires Notices(s, e) && |s.core.queue.entries| <= U32_MAX
    ensures Draining(Run(Step(s, e), events))
    ensures AtRest(Run(Step(s, e), events)) ==> Run(Step(s, e), events).core.queue.entries == []
  {
    var s1 := Step(s, e);
    if events == [] {
      NoticingDrains(s, e);
    } else {
      var before := events[..|events| - 1];
      ClosingDrainsTheQueue(s, e, before);
      StepShrinks(s, e);
      ClosedQueueOnlyShrinks(s1, before);
      StepDraining(Run(s1, before), events[|events| - 1]);
    }
  }

  /** Run alone, a task that wakes at least as many as are queued leaves the queue empty. */
  lemma {:induction false} AloneDrains(s: State, i: nat)
    requires s.core.closed && i < |s.tasks| && (s.core.queue.entries == [] || WakesAll(s, i))
    ensures Alone(s, i).core.queue.entries == []
    decreases |s.core.idle|, Rank(s.tasks[i]), Size(s.tasks[i])
  {
    if InCode(s.tasks[i]) {
      var s' := AdvanceTask(s, i);
      AdvanceTasks(s, i);
      AdvanceShrinks(s, i);
      if s.core.queue.entries != [] {
        AdvanceDraining(s, i);
      }
      if InCode(s'.tasks[i]) {
        AdvanceProgress(s, i);
        AloneDrains(s', i);
      }
    }
  }

  /** And the task that noticed empties it before it waits again, if nothing re-enters. */
  lemma NoticingEmpties(s: State, e: Event)
    requires Notices(s, e) && |s.core.queue.entries| <= U32_MAX
    ensures e.i < |Step(s, e).tasks| && Alone(Step(s, e), e.i).core.queue.entries == []
  {
    StepShrinks(s, e);
    assert WakesAll(Step(s, e), e.i);
    AloneDrains(Step(s, e), e.i);
  }

  // ---- Waiters and callers fail fast ----

  lemma {:induction false} WakingEnds(s: State, i: nat)
    requires i < |s.tasks| && s.tasks[i].Waking? && s.tasks[i].cont == Finish(ClosedErr)
    ensures Alone(s, i).tasks[i] == Done(Ended(ClosedErr))
    decreases s.tasks[i].units
  {
    var t := s.tasks[i];
    AdvanceTasks(s, i);
    if t.units > 0 && s.core.queue.entries != [] {
      var s1 := At(s, i, Waking(t.units - 1, t.cont));
      var e := s.core.queue.entries[0];
      assert e.task != i || !s1.tasks[i].Parked?;
      assert AdvanceTask(s, i).tasks[i] == Waking(t.units - 1, t.cont);
      WakingEnds(AdvanceTask(s, i), i);
    }
  }

  /** Back at the head of its loop, a `get` finds the pool closed. */
  lemma {:induction false} LoopingEnds(s: State, i: nat)
    requires s.core.closed && i < |s.tasks|
    requires s.tasks[i].Waking? && s.tasks[i].cont.LoopTop? && s.tasks[i].cont.caller.Inner?
    ensures var r := Alone(s, i);
            r.tasks[i] == Done(Ended(ClosedErr)) && r.core.slots == s.core.slots && r.core.idle == s.core.idle
    decreases s.tasks[i].units
  {
    var t := s.tasks[i];
    AdvanceTasks(s, i);
    if t.units > 0 && s.core.queue.entries != [] {
      assert AdvanceTask(s, i).tasks[i] == Waking(t.units - 1, t.cont);
      LoopingEnds(AdvanceTask(s, i), i);
    }
  }

  /** A `get` whose connection fails validation on a closed pool drops it and ends. */
  lemma ValidationEnds(s: State, i: nat)
    requires s.core.closed && i < |s.tasks| && s.tasks[i].Validating? && s.tasks[i].caller.Inner?
    ensures var s' := Step(s, Resolve(i, false));
            && i < |s'.tasks| && s'.core.slots == s.core.slots && s'.core.idle == s.core.idle
            && var r := Alone(s', i);
            r.tasks[i] == Done(Ended(ClosedErr)) && r.core.slots == SatSub(s.core.slots, 1) && r.core.idle == s.core.idle
  {
    var s' := Step(s, Resolve(i, false));
    AdvanceTasks(s', i);
    LoopingEnds(AdvanceTask(s', i), i);
  }

  /** A poll that meets a closed pool: of a waiter or a back-off, or the beginning of a `get` or
      `try_get`. */
  predicate MeetsClosed(s: State, e: Event) {
    && s.core.closed
    && (|| (e.Poll? && e.i < |s.tasks| && (s.tasks[e.i].Parked? || s.tasks[e.i].Backoff?))
        || (e.Advance? && e.i < |s.tasks| && (s.tasks[e.i] == Start(Get) || s.tasks[e.i] == Start(TryGet))))
  }

  /** Every such poll ends with the closed error, holding no slot and having reserved none. */
  lemma PolledAfterCloseFails(s: State, e: Event)
    requires MeetsClosed(s, e)
    ensures e.i < |Step(s, e).tasks| && Alone(Step(s, e), e.i).tasks[e.i] == Done(Ended(ClosedErr))
    ensures Step(s, e).core.slots == s.core.slots && Step(s, e).core.idle == s.core.idle
  {
    var s' := Step(s, e);
    if e.Poll? && s.tasks[e.i].Parked? {
      WakingEnds(s', e.i);
    }
  }

  // ---- No poll of `get` that starts after close reserves a slot ----

  /** A `get` that has a slot reserved and is dialling. */
  predicate GetDials(t: Task) {
    t.Dialling? && t.dialler.DialGet?
  }

  /** A `get` in the middle of a poll that found the pool open: past its checks of the flag, on
      its way through `pop_fresh_idle` to `try_reserve`. The fast path checks again before that. */
  predicate MidPoll(t: Task) {
    || (t.Discarding? && t.caller.Inner?)
    || ((t.Waking? || t.DroppingHeld?) && t.cont.PopOn? && t.cont.caller.Inner?)
  }

  lemma GoReserves(s: State, i: nat, cont: Cont)
    requires i < |s.tasks| && s.core.closed
    ensures GetDials(Go(s, i, cont).tasks[i]) || MidPoll(Go(s, i, cont).tasks[i]) ==> cont.PopOn? && cont.caller.Inner?
  {
  }

  lemma AdvanceReserves(s: State, i: nat)
    requires s.core.closed && i < |s.tasks|
    ensures var t, t' := s.tasks[i], AdvanceTask(s, i).tasks[i];
            && (GetDials(t') ==> t == t' || MidPoll(t))
            && (MidPoll(t') ==> MidPoll(t))
  {
    var t := s.tasks[i];
    if t.Waking? {
      GoReserves(s, i, t.cont);
    }
  }

  lemma PollReserves(s: State, i: nat)
    requires s.core.closed && i < |s.tasks|
    ensures |PollTask(s, i).tasks| == |s.tasks|
    ensures var t, t' := s.tasks[i], PollTask(s, i).tasks[i];
            (GetDials(t') ==> t == t' || MidPoll(t)) && (MidPoll(t') ==> MidPoll(t))
  {
    if s.tasks[i].Backoff? {
      GoReserves(s, i, LoopTop(Inner(s.tasks[i].waited)));
    }
  }

  /** On a closed pool a task comes to dial for a `get`, or on its way there, only in the middle
      of a poll. */
  lemma StepReserves(s: State, e: Event, k: nat)
    requires s.core.closed && k < |Step(s, e).tasks|
    ensures GetDials(Step(s, e).tasks[k]) ==> k < |s.tasks| && (GetDials(s.tasks[k]) || MidPoll(s.tasks[k]))
    ensures MidPoll(Step(s, e).tasks[k]) ==> k < |s.tasks| && MidPoll(s.tasks[k])
  {
    if k >= |s.tasks| {
      StepStarts(s, e, k);
    } else if !Names(e, k) {
      OthersGoOn(s, e, k);
    } else if e.Advance? {
      AdvanceReserves(s, k);
    } else if e.Poll? {
      PollReserves(s, k);
    }
  }

  lemma {:induction false} ReserversPredateClose(s: State, events: seq<Event>, k: nat)
    requires s.core.closed && k < |Run(s, events).tasks|
    ensures GetDials(Run(s, events).tasks[k]) ==> k < |s.tasks| && (GetDials(s.tasks[k]) || MidPoll(s.tasks[k]))
    ensures MidPoll(Run(s, events).tasks[k]) ==> k < |s.tasks| && MidPoll(s.tasks[k])
  {
    if events != [] {
      var before := events[..|events| - 1];
      ClosedQueueOnlyShrinks(s, before);
      StepReserves(Run(s, before), events[|events| - 1], k);
      if k < |Run(s, before).tasks| {
        ReserversPredateClose(s, before, k);
      }
    }
  }

  /** In every continuation after `close`: a `get` that stood at an await or had not begun, and
      every `get` begun later, never comes to hold a slot for a dial, whichever await it is
      resumed from, unless it was dialling already. */
  lemma NoLaterPollReserves(s: State, events: seq<Event>, k: nat)
    requires s.core.closed && k < |Run(s, events).tasks|
    requires k < |s.tasks| ==> Resting(s.tasks[k]) && !GetDials(s.tasks[k])
    ensures !GetDials(Run(s, events).tasks[k])
  {
    ReserversPredateClose(s, events, k);
  }

  // ---- Which calls of `try_get` still do ----

  predicate TryDials(t: Task) {
    t.Dialling? && t.dialler.DialTry?
  }

  /** A `try_get` past its only check of the flag. */
  predicate InTry(t: Task) {
    || ((t.Discarding? || t.Validating?) && t.caller.Try?)
    || ((t.Waking? || t.DroppingHeld?) && ContTry(t.cont))
  }

  predicate ContTry(cont: Cont) {
    (cont.PopOn? || cont.LoopTop?) && cont.caller.Try?
  }

  /** It comes to `try_reserve`: its wakes are sent, nothing is idle and there is room. */
  predicate TryReserves(s: State, e: Event) {
    && e.Advance? && e.i < |s.tasks|
    && var t := s.tasks[e.i];
    && t.Waking? && ContTry(t.cont) && (t.units == 0 || s.core.queue.entries == [])
    && s.core.idle == [] && s.core.slots < s.core.cfg.maxSize
  }

  lemma GoTries(s: State, i: nat, cont: Cont)
    requires i < |s.tasks| && s.core.closed
    ensures TryDials(Go(s, i, cont).tasks[i]) <==> ContTry(cont) && s.core.idle == [] && s.core.slots < s.core.cfg.maxSize
    ensures InTry(Go(s, i, cont).tasks[i]) ==> ContTry(cont)
  {
  }

  lemma AdvanceTries(s: State, i: nat)
    requires s.core.closed && i < |s.tasks|
    ensures TryDials(AdvanceTask(s, i).tasks[i]) <==> TryDials(s.tasks[i]) || TryReserves(s, Advance(i))
    ensures InTry(AdvanceTask(s, i).tasks[i]) ==> InTry(s.tasks[i])
  {
    var t := s.tasks[i];
    if t.Waking? {
      GoTries(s, i, t.cont);
    }
  }

  lemma PollTries(s: State, i: nat)
    requires s.core.closed && i < |s.tasks|
    ensures |PollTask(s, i).tasks| == |s.tasks|
    ensures TryDials(PollTask(s, i).tasks[i]) ==> TryDials(s.tasks[i])
    ensures InTry(PollTask(s, i).tasks[i]) ==> InTry(s.tasks[i])
  {
    if s.tasks[i].Backoff? {
      GoTries(s, i, LoopTop(Inner(s.tasks[i].waited)));
    }
  }

  /** On a closed pool exactly these steps make a `try_get` dial, and no task becomes one that is
      past the check. */
  lemma TryReservesExactly(s: State, e: Event, k: nat)
    requires s.core.closed && k < |Step(s, e).tasks|
    ensures TryDials(Step(s, e).tasks[k]) && !(k < |s.tasks| && TryDials(s.tasks[k])) <==> e == Advance(k) && TryReserves(s, e)
    ensures InTry(Step(s, e).tasks[k]) ==> k < |s.tasks| && InTry(s.tasks[k])
  {
    if k >= |s.tasks| {
      StepStarts(s, e, k);
    } else if !Names(e, k) {
      OthersGoOn(s, e, k);
    } else if e.Advance? {
      AdvanceTries(s, k);
    } else if e.Poll? {
      PollTries(s, k);
    }
  }

  /** So in every continuation after `close` a `try_get` that dials was past its check before. */
  lemma {:induction false} TriesPredateClose(s: State, events: seq<Event>, k: nat)
    requires s.core.closed && k < |Run(s, events).tasks|
    ensures TryDials(Run(s, events).tasks[k]) ==> k < |s.tasks| && (TryDials(s.tasks[k]) || InTry(s.tasks[k]))
    ensures InTry(Run(s, events).tasks[k]) ==> k < |s.tasks| && InTry(s.tasks[k])
  {
    if events != [] {
      var before := events[..|events| - 1];
      ClosedQueueOnlyShrinks(s, before);
      TryReservesExactly(Run(s, before), events[|events| - 1], k);
      if k < |Run(s, before).tasks| {
        TriesPredateClose(s, before, k);
      }
    }
  }

  // ---- Nothing new becomes idle ----

  /** A `warm` past its entry check, or a return past its own. */
  predicate Feeder(t: Task) {
    || t.AskBroken?
    || (t.Dialling? && t.dialler.DialWarm?)
    || ((t.Waking? || t.DroppingHeld?) && t.cont.WarmLoop?)
  }

  lemma GoFeeds(s: State, i: nat, cont: Cont)
    requires i < |s.tasks|
    ensures Feeder(Go(s, i, cont).tasks[i]) ==> cont.WarmLoop?
    ensures |Go(s, i, cont).core.idle| <= |s.core.idle|
  {
  }

  /** On a closed pool a task is a feeder afterwards only if it was one before. */
  lemma StepFeeds(s: State, e: Event, k: nat)
    requires s.core.closed && k < |Step(s, e).tasks|
    ensures Feeder(Step(s, e).tasks[k]) ==> k < |s.tasks| && Feeder(s.tasks[k])
  {
    if k >= |s.tasks| {
      StepStarts(s, e, k);
    } else if !Names(e, k) {
      OthersGoOn(s, e, k);
    } else if e.Advance? {
      AdvanceFeeds(s, k);
    } else if e.Poll? {
      PollFeeds(s, k);
    }
  }

  lemma AdvanceFeeds(s: State, i: nat)
    requires s.core.closed && i < |s.tasks|
    ensures Feeder(AdvanceTask(s, i).tasks[i]) ==> Feeder(s.tasks[i])
    ensures |AdvanceTask(s, i).core.idle| <= |s.core.idle|
  {
    var t := s.tasks[i];
    if t.Waking? {
      GoFeeds(s, i, t.cont);
    }
  }

  lemma PollFeeds(s: State, i: nat)
    requires s.core.closed && i < |s.tasks|
    ensures Feeder(PollTask(s, i).tasks[i]) ==> Feeder(s.tasks[i])
    ensures |PollTask(s, i).core.idle| <= |s.core.idle| && |PollTask(s, i).tasks| == |s.tasks|
  {
    if s.tasks[i].Backoff? {
      GoFeeds(s, i, LoopTop(Inner(s.tasks[i].waited)));
    }
  }

  /** Open or closed, exactly these steps grow the idle list: a `warm` dial that succeeds, and a
      return whose connection is sound and has not expired. */
  lemma GrowsExactly(s: State, e: Event)
    ensures |Step(s, e).core.idle| > |s.core.idle| <==> ParksOne(s, e)
  {
    match e
    case Advance(i) => if i < |s.tasks| { AdvanceShrinksIdle(s, i); }
    case Poll(i) => if i < |s.tasks| { PollShrinksIdle(s, i); }
    case _ =>
  }

  predicate ParksOne(s: State, e: Event) {
    && e.Resolve? && e.ok && e.i < |s.tasks|
    && var t := s.tasks[e.i];
    (t.Dialling? && t.dialler.DialWarm?) || (t.AskBroken? && !Expired(t.conn, s.core.clock, s.core.cfg))
  }

  lemma AdvanceShrinksIdle(s: State, i: nat)
    requires i < |s.tasks|
    ensures |AdvanceTask(s, i).core.idle| <= |s.core.idle|
  {
    var t := s.tasks[i];
    if t.Waking? {
      GoFeeds(s, i, t.cont);
    } else if t.Start? && FirstLoop(s.core, t.call).Some? {
      GoFeeds(s, i, FirstLoop(s.core, t.call).value);
    }
  }

  lemma PollShrinksIdle(s: State, i: nat)
    requires i < |s.tasks|
    ensures |PollTask(s, i).core.idle| <= |s.core.idle|
  {
    var t, c := s.tasks[i], s.core;
    if t.Parked? && ReadyNow(c) && !c.closed {
      GoFeeds(With(s, SetQueue(c, Unregister(c.queue, t.id).0)), i, PopOn(Inner(true), c.clock, t.woken));
    } else if t.Backoff? {
      GoFeeds(s, i, LoopTop(Inner(t.waited)));
    }
  }

  lemma {:induction false} FeedersPredateClose(s: State, events: seq<Event>, k: nat)
    requires s.core.closed && k < |Run(s, events).tasks| && Feeder(Run(s, events).tasks[k])
    ensures k < |s.tasks| && Feeder(s.tasks[k])
  {
    if events != [] {
      var before := events[..|events| - 1];
      ClosedQueueOnlyShrinks(s, before);
      StepFeeds(Run(s, before), events[|events| - 1], k);
      FeedersPredateClose(s, before, k);
    }
  }

  /** In every continuation after `close`, a step that adds to the idle list belongs to a
      `warm` call or a return that had passed its check of the flag before. */
  lemma OnlyEarlierCallsFeedTheIdleList(s: State, events: seq<Event>, e: Event)
    requires s.core.closed
    requires |Step(Run(s, events), e).core.idle| > |Run(s, events).core.idle|
    ensures e.Resolve? && e.i < |s.tasks| && Feeder(s.tasks[e.i])
  {
    var s1 := Run(s, events);
    GrowsExactly(s1, e);
    assert Feeder(s1.tasks[e.i]);
    FeedersPredateClose(s, events, e.i);
  }

  lemma RunSnoc(s: State, events: seq<Event>, e: Event)
    ensures Run(s, events + [e]) == Step(Run(s, events), e)
  {
    assert (events + [e])[..|events|] == events;
  }

  const ONE := Config(1, 0, None, None, false, false)

  /** The `get` that opens the only connection: it dials ... */
  lemma FirstDial(s: State)
    requires s == Step(Init(ONE), Spawn(Get))
    ensures var s' := Step(s, Advance(0));
            s'.tasks == [Dialling(DialGet(false))] && s'.core == TakeSlot(NewCore(ONE)) && s'.book == Init(ONE).book
  {
    assert s.tasks == [Start(Get)];
  }

  /** ... and is answered. */
  lemma FirstLease(s: State)
    requires s.tasks == [Dialling(DialGet(false))] && s.core == TakeSlot(NewCore(ONE)) && s.book == Init(ONE).book
    ensures var s' := Step(s, Resolve(0, true));
            && s'.tasks == [Lease(Conn(0, 0, 0))] && s'.core.idle == []
            && !s'.core.closed && s'.core.clock == 0 && s'.core.cfg == ONE
  {
  }

  /** One connection opened and leased out. */
  lemma OneLease() returns (events: seq<Event>)
    ensures var s := Run(Init(ONE), events);
            && s.tasks == [Lease(Conn(0, 0, 0))] && s.core.idle == []
            && !s.core.closed && s.core.clock == 0 && s.core.cfg == ONE
    ensures forall k :: 0 <= k < |events| ==> events[k] != Spawn(Warm)
  {
    RunSnoc(Init(ONE), [], Spawn(Get));
    events := [] + [Spawn(Get)];
    FirstDial(Run(Init(ONE), events));
    RunSnoc(Init(ONE), events, Advance(0));
    events := events + [Advance(0)];
    FirstLease(Run(Init(ONE), events));
    RunSnoc(Init(ONE), events, Resolve(0, true));
    events := events + [Resolve(0, true)];
  }

  /** A return counts as one of them: asked by `has_broken` while the pool is being closed, it
      parks its connection on the closed pool. */
  lemma ReturnRacingCloseParks() returns (events: seq<Event>)
    ensures var s := Run(Init(ONE), events); s.core.closed && s.core.idle == [Conn(0, 0, 0)]
    ensures forall k :: 0 <= k < |events| ==> events[k] != Spawn(Warm)
  {
    events := OneLease();
    RunSnoc(Init(ONE), events, Return(0));
    events := events + [Return(0)];
    assert Run(Init(ONE), events).tasks == [AskBroken(Conn(0, 0, 0))];
    RunSnoc(Init(ONE), events, Close);
    events := events + [Close];
    RunSnoc(Init(ONE), events, Resolve(0, true));
    events := events + [Resolve(0, true)];
  }
}
