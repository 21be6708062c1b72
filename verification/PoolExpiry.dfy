/** Which connections expire, by the history of the run: in a reap, as a checkout looks for one, and
    as a lease comes back. */
module PoolExpiry {
  import opened PoolTypes
  import opened WaitQueue
  import opened PoolCore
  import opened PoolProtocol
  import opened PoolAlone
  import opened PoolCalls
  import opened PoolAges

  /** Why the connection `id` has expired at `now`, going by when it was opened and when it was last
      put on the idle list. One that is both too old and too long idle is too old. */
  ghost function Due(cfg: Config, events: seq<Event>, id: nat, now: Time): Option<Expiry> {
    if id < |Births(cfg, events)| && TooOld(cfg, Births(cfg, events)[id], now) then Some(MaxLifetime)
    else if TooIdle(cfg, LastUse(cfg, events, id), now) then Some(IdleTimeout)
    else None
  }

  lemma DueIs(cfg: Config, events: seq<Event>, conn: Conn, now: Time)
    requires Dated(cfg, events, conn)
    ensures ExpiryOf(conn, now, cfg) == Due(cfg, events, conn.id, now)
  {
  }

  // ---- Reaping ----

  /** In every run, a reap leaves idle exactly the connections that are not due when it begins, and
      takes exactly the others: however often a connection was returned, it goes once its time since
      it was opened is up. */
  lemma ReapByTheClock(cfg: Config, events: seq<Event>, i: nat, conn: Conn)
    requires cfg.Valid()
    requires var s := Run(Init(cfg), events); i < |s.tasks| && s.tasks[i] == Start(Reap)
    ensures var s := Run(Init(cfg), events);
            var s' := Step(s, Advance(i));
            && i < |s'.tasks| && s'.tasks[i].Reaping?
            && (conn in s'.core.idle <==> conn in s.core.idle && Due(cfg, events, conn.id, s.core.clock).None?)
            && (conn in s'.tasks[i].left <==> conn in s.core.idle && Due(cfg, events, conn.id, s.core.clock).Some?)
  {
    var s := Run(Init(cfg), events);
    RunSettings(cfg, events);
    ReapSplitsByExpiry(s.core.idle, s.core.clock, cfg, conn);
    if conn in s.core.idle {
      EveryStampTrue(cfg, events, conn);
      DueIs(cfg, events, conn, s.core.clock);
    }
  }

  // ---- Looking for an idle connection ----

  /** The time by which a task in the middle of `pop_fresh_idle` judges. */
  function PopAt(t: Task): Option<Time> {
    if t.Discarding? then Some(t.at)
    else if t.Waking? && t.cont.PopOn? then Some(t.cont.at)
    else None
  }

  /** When task `i` began the `pop_fresh_idle` that it is in. */
  ghost function PopBegan(cfg: Config, events: seq<Event>, i: nat): Time {
    if events == [] then 0
    else
      var before := events[..|events| - 1];
      var s := Run(Init(cfg), before);
      if i < |s.tasks| && PopAt(s.tasks[i]).Some? then PopBegan(cfg, before, i) else s.core.clock
  }

  function Now(s: State, i: nat): Time
    requires i < |s.tasks|
  {
    if PopAt(s.tasks[i]).Some? then PopAt(s.tasks[i]).value else s.core.clock
  }

  /** What becomes of the newest idle connection when a checkout that began at `at` takes it. */
  predicate Judged(t: Task, conn: Conn, due: Option<Expiry>, testing: bool) {
    match due
    case Some(reason) => t.Discarding? && t.conn == conn && t.reason == reason
    case None => if testing then t.Validating? && t.conn == conn else t == Lease(conn)
  }

  /** Task `i` goes on judging by the time it began, and takes at most the newest connection. */
  predicate PopsBy(s: State, s': State, i: nat, at: Time, testing: bool) {
    && i < |s'.tasks| && (PopAt(s'.tasks[i]).Some? ==> PopAt(s'.tasks[i]).value == at)
    && (s'.core.idle != s.core.idle ==>
          && s.core.idle != [] && s'.core.idle == s.core.idle[..|s.core.idle| - 1]
          && var conn := s.core.idle[|s.core.idle| - 1];
          Judged(s'.tasks[i], conn, ExpiryOf(conn, at, s.core.cfg), testing))
  }

  lemma PopTurnPops(s: State, i: nat, caller: Caller, at: Time, owed: bool)
    requires i < |s.tasks| && (caller.Fast? ==> !s.core.cfg.testOnCheckOut)
    ensures PopsBy(s, PopTurn(s, i, caller, at, owed), i, at, s.core.cfg.testOnCheckOut)
  {
  }

  lemma GoPops(s: State, i: nat, cont: Cont, call: Call)
    requires i < |s.tasks| && MayGoOn(call, cont, s.core.cfg.testOnCheckOut)
    ensures PopsBy(s, Go(s, i, cont), i, if cont.PopOn? then cont.at else s.core.clock, s.core.cfg.testOnCheckOut)
  {
    var s1 := At(s, i, Waking(0, cont));
    match cont
    case PopOn(caller, at, owed) => PopTurnPops(s1, i, caller, at, owed);
    case LoopTop(caller) =>
      PopTurnPops(s1, i, if caller.Try? then caller else Inner(caller.Waited()), s.core.clock, false);
    case _ =>
  }

  lemma StartPops(s: State, i: nat, call: Call)
    requires i < |s.tasks| && s.tasks[i] == Start(call) && !call.Reap? && !call.Clear?
    ensures PopsBy(s, AdvanceTask(s, i), i, s.core.clock, s.core.cfg.testOnCheckOut)
  {
    if FirstLoop(s.core, call).Some? {
      GoPops(s, i, FirstLoop(s.core, call).value, call);
    }
  }

  lemma DropPops(s: State, i: nat, call: Call)
    requires PlaysIn(s, i, call, s.core.cfg.testOnCheckOut) && !s.tasks[i].Start?
    requires s.tasks[i].Waking? ==> s.tasks[i].units > 0 && s.core.queue.entries != []
    ensures PopsBy(s, AdvanceTask(s, i), i, Now(s, i), s.core.cfg.testOnCheckOut)
  {
  }

  lemma AdvancePops(s: State, i: nat, call: Call)
    requires PlaysIn(s, i, call, s.core.cfg.testOnCheckOut) && s.tasks[i] != Start(Reap) && s.tasks[i] != Start(Clear)
    ensures PopsBy(s, AdvanceTask(s, i), i, Now(s, i), s.core.cfg.testOnCheckOut)
  {
    var t := s.tasks[i];
    if t.Start? {
      StartPops(s, i, call);
    } else if t.Waking? && (t.units == 0 || s.core.queue.entries == []) {
      GoPops(s, i, t.cont, call);
    } else {
      DropPops(s, i, call);
    }
  }

  lemma PollPops(s: State, i: nat)
    requires i < |s.tasks|
    ensures PopsBy(s, PollTask(s, i), i, Now(s, i), s.core.cfg.testOnCheckOut)
  {
    var t, c := s.tasks[i], s.core;
    if t.Parked? && ReadyNow(c) && !c.closed {
      GoPops(With(s, SetQueue(c, Unregister(c.queue, t.id).0)), i, PopOn(Inner(true), c.clock, t.woken), Get);
    } else if t.Backoff? {
      GoPops(s, i, LoopTop(Inner(t.waited)), Get);
    }
  }

  /** The other steps of a task do not bring it into `pop_fresh_idle`. */
  lemma OtherPops(s: State, e: Event, i: nat)
    requires i < |s.tasks| && Names(e, i) && !e.Advance? && !e.Poll?
    requires s.tasks[i].DroppingHeld? ==> !s.tasks[i].cont.PopOn?
    ensures i < |Step(s, e).tasks| && (PopAt(Step(s, e).tasks[i]).Some? ==> PopAt(Step(s, e).tasks[i]) == PopAt(s.tasks[i]))
  {
  }

  lemma StepPopAt(s: State, e: Event, i: nat, call: Call)
    requires PlaysIn(s, i, call, s.core.cfg.testOnCheckOut)
    ensures i < |Step(s, e).tasks|
    ensures PopAt(Step(s, e).tasks[i]).Some? ==> PopAt(Step(s, e).tasks[i]).value == Now(s, i)
  {
    if !Names(e, i) {
      OthersGoOn(s, e, i);
    } else if e.Advance? {
      if s.tasks[i] != Start(Reap) && s.tasks[i] != Start(Clear) {
        AdvancePops(s, i, call);
      }
    } else if e.Poll? {
      PollPops(s, i);
    } else {
      OtherPops(s, e, i);
    }
  }

  /** In every run, a task in the middle of `pop_fresh_idle` judges by the time at which it began. */
  lemma {:induction false} PopsByItsBeginning(cfg: Config, events: seq<Event>, i: nat)
    ensures var s := Run(Init(cfg), events);
            i < |s.tasks| && PopAt(s.tasks[i]).Some? ==> PopAt(s.tasks[i]).value == PopBegan(cfg, events, i)
  {
    if events != [] {
      var before, e := events[..|events| - 1], events[|events| - 1];
      var s := Run(Init(cfg), before);
      PopsByItsBeginning(cfg, before, i);
      EveryCallKeepsToItsPart(cfg, before, i);
      RunSettings(cfg, before);
      if i < |s.tasks| {
        StepPopAt(s, e, i, Calls(before)[i]);
      } else {
        StepStarts(s, e, i);
      }
    }
  }

  /** A step of a `get` or `try_get` that takes something off the idle list. */
  predicate Draws(s: State, e: Event) {
    && (e.Advance? || e.Poll?) && e.i < |s.tasks|
    && s.tasks[e.i] != Start(Reap) && s.tasks[e.i] != Start(Clear) && Step(s, e).core.idle != s.core.idle
  }

  /** In every run, a checkout takes the newest idle connection. If that was due when the checkout
      began to look, it is discarded for that reason; otherwise it is validated with
      `test_on_check_out` and handed out at once without. */
  lemma PopByTheClock(cfg: Config, events: seq<Event>, e: Event)
    requires cfg.Valid() && Draws(Run(Init(cfg), events), e)
    ensures var s := Run(Init(cfg), events);
            var s' := Step(s, e);
            && s.core.idle != [] && s'.core.idle == s.core.idle[..|s.core.idle| - 1] && e.i < |s'.tasks|
            && var conn := s.core.idle[|s.core.idle| - 1];
            Judged(s'.tasks[e.i], conn, Due(cfg, events, conn.id, PopBegan(cfg, events + [e], e.i)), cfg.testOnCheckOut)
  {
    var s := Run(Init(cfg), events);
    RunSettings(cfg, events);
    EveryCallKeepsToItsPart(cfg, events, e.i);
    PopsByItsBeginning(cfg, events, e.i);
    assert (events + [e])[..|events|] == events;
    if e.Advance? {
      AdvancePops(s, e.i, Calls(events)[e.i]);
    } else {
      PollPops(s, e.i);
    }
    var conn := s.core.idle[|s.core.idle| - 1];
    EveryStampTrue(cfg, events, conn);
    DueIs(cfg, events, conn, Now(s, e.i));
  }

  // ---- Coming back ----

  /** In every run, a lease that comes back unbroken is dropped if it is due, and for that reason; and
      otherwise it is put on the idle list as the newest, stamped with the time. */
  lemma ReturnByTheClock(cfg: Config, events: seq<Event>, i: nat)
    requires cfg.Valid()
    requires var s := Run(Init(cfg), events); i < |s.tasks| && s.tasks[i].AskBroken?
    ensures var s := Run(Init(cfg), events);
            var s', conn := Step(s, Resolve(i, true)), s.tasks[i].conn;
            && i < |s'.tasks|
            && match Due(cfg, events, conn.id, s.core.clock)
               case Some(reason) => s'.tasks[i] == DroppingReturn(conn, Aged(reason)) && s'.core.idle == s.core.idle
               case None => s'.core.idle == s.core.idle + [conn.(lastUsed := s.core.clock)]
  {
    var s := Run(Init(cfg), events);
    RunSettings(cfg, events);
    assert Carries(s, i, s.tasks[i].conn);
    EveryStampTrue(cfg, events, s.tasks[i].conn);
    DueIs(cfg, events, s.tasks[i].conn, s.core.clock);
  }
}
