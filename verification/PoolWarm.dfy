/** `warm` in the protocol: it dials only below the floor and with room, and with nobody else about
    it opens exactly what the class method opens. */
module PoolWarm {
  import opened PoolTypes
  import opened WaitQueue
  import opened PoolCore
  import opened PoolProtocol
  import opened PoolAlone
  import opened PoolSequential
  import opened PoolCalls

  // ---- In any run ----

  predicate WarmDials(t: Task) {
    t.Dialling? && t.dialler.DialWarm?
  }

  predicate Wanted(c: Core) {
    |c.idle| < c.cfg.minIdle && c.slots < c.cfg.maxSize
  }

  lemma GoWarms(s: State, i: nat, cont: Cont)
    requires i < |s.tasks|
    ensures WarmDials(Go(s, i, cont).tasks[i]) <==> cont.WarmLoop? && Wanted(s.core)
    ensures WarmDials(Go(s, i, cont).tasks[i]) ==> Go(s, i, cont).core.slots == s.core.slots + 1
  {
  }

  /** Dropping connections, or waking a waiter. */
  lemma DropWarms(s: State, i: nat)
    requires i < |s.tasks| && !s.tasks[i].Start? && !WarmDials(s.tasks[i])
    requires s.tasks[i].Waking? ==> s.tasks[i].units > 0 && s.core.queue.entries != []
    ensures i < |AdvanceTask(s, i).tasks| && !WarmDials(AdvanceTask(s, i).tasks[i])
  {
  }

  lemma AdvanceWarms(s: State, i: nat)
    requires i < |s.tasks| && !WarmDials(s.tasks[i])
    ensures i < |AdvanceTask(s, i).tasks|
    ensures WarmDials(AdvanceTask(s, i).tasks[i]) ==> Wanted(s.core) && AdvanceTask(s, i).core.slots == s.core.slots + 1
  {
    var t, c := s.tasks[i], s.core;
    if t.Start? {
      if FirstLoop(c, t.call).Some? {
        GoWarms(s, i, FirstLoop(c, t.call).value);
      }
    } else if t.Waking? && (t.units == 0 || c.queue.entries == []) {
      GoWarms(s, i, t.cont);
    } else {
      DropWarms(s, i);
    }
  }

  lemma PollWarms(s: State, i: nat)
    requires i < |s.tasks| && !WarmDials(s.tasks[i])
    ensures i < |PollTask(s, i).tasks| && !WarmDials(PollTask(s, i).tasks[i])
  {
    var t, c := s.tasks[i], s.core;
    if t.Parked? && ReadyNow(c) && !c.closed {
      GoWarms(With(s, SetQueue(c, Unregister(c.queue, t.id).0)), i, PopOn(Inner(true), c.clock, t.woken));
    } else if t.Backoff? {
      GoWarms(s, i, LoopTop(Inner(t.waited)));
    }
  }

  /** Whatever else is going on: a `warm` comes to dial only in a step of its own, with fewer than
      `min_idle` connections idle and a slot free, which it takes. */
  lemma WarmDialsBelowItsFloor(s: State, e: Event, i: nat)
    requires i < |Step(s, e).tasks| && WarmDials(Step(s, e).tasks[i]) && !(i < |s.tasks| && WarmDials(s.tasks[i]))
    ensures e == Advance(i) && |s.core.idle| < s.core.cfg.minIdle && s.core.slots < s.core.cfg.maxSize
    ensures Step(s, e).core.slots == s.core.slots + 1
  {
    if i >= |s.tasks| {
      StepStarts(s, e, i);
    } else if !Names(e, i) {
      OthersGoOn(s, e, i);
    } else if e.Advance? {
      AdvanceWarms(s, i);
    } else if e.Poll? {
      PollWarms(s, i);
    }
  }

  // ---- With nobody else about ----

  /** The dial of task `i` takes `wait` ticks and is answered; the task then runs to its next await. */
  function Answer(s: State, i: nat, wait: nat, ok: bool): State {
    var s' := Step(Step(s, Tick(wait)), Resolve(i, ok));
    if i < |s'.tasks| then Alone(s', i) else s'
  }

  /** A `warm` run alone, after its first `k` dials, of which dial `j` took `waits(j)` ticks. */
  function WarmAfter(s: State, i: nat, waits: nat -> nat, k: nat): State
    requires i < |s.tasks|
  {
    if k == 0 then Alone(s, i) else Answer(WarmAfter(s, i, waits, k - 1), i, waits(k - 1), true)
  }

  /** The time once the first `k` dials are over. */
  function Elapsed(clock: Time, waits: nat -> nat, k: nat): Time {
    if k == 0 then clock else Elapsed(clock, waits, k - 1) + waits(k - 1)
  }

  /** When dial `j` is over. */
  function DialTimes(clock: Time, waits: nat -> nat): nat -> Time {
    j => Elapsed(clock, waits, j + 1)
  }

  /** `k` connections opened, each parked at the time its dial was over, and a waiter woken for each;
      and a slot taken for the next dial if there is to be one. */
  ghost predicate Warmer(s: State, r: State, i: nat, waits: nat -> nat, k: nat) {
    var c, n := s.core, ToWarm(|s.core.idle|, s.core.slots, s.core.cfg);
    && k <= n && i < |r.tasks| && Mirrored(r)
    && r.core.idle == c.idle + NewConns(s.book.nextConn, k, DialTimes(c.clock, waits))
    && r.book.nextConn == s.book.nextConn + k
    && r.core.clock == Elapsed(c.clock, waits, k) && r.core.cfg == c.cfg && r.core.closed == c.closed
    && r.core.stats == c.stats.(created := c.stats.created + k)
    && r.core.queue == PopN(c.queue, k)
    && r.core.slots == c.slots + k + (if k < n then 1 else 0)
    && r.tasks[i] == if k < n then Dialling(DialWarm(k)) else Done(Warmed(n))
  }

  /** At the head of its loop. */
  lemma WarmTopAlone(s: State, i: nat, made: nat)
    requires i < |s.tasks|
    ensures var r := WarmTop(s, i, made);
            && i < |r.tasks| && !InCode(r.tasks[i]) && r.book == s.book
            && if Wanted(s.core) then r.core == TakeSlot(s.core) && r.tasks[i] == Dialling(DialWarm(made))
               else r.core == s.core && r.tasks[i] == Done(Warmed(made))
  {
  }

  /** The wakes sent first. */
  lemma WarmLoopAlone(s: State, i: nat, units: nat, made: nat)
    requires i < |s.tasks| && s.tasks[i] == Waking(units, WarmLoop(made)) && Mirrored(s)
    ensures var r := Alone(s, i);
            && i < |r.tasks| && r.book == s.book
            && var c := SetQueue(s.core, PopN(s.core.queue, units));
            if Wanted(s.core) then r.core == TakeSlot(c) && r.tasks[i] == Dialling(DialWarm(made))
            else r.core == c && r.tasks[i] == Done(Warmed(made))
  {
    var s1 := WakesFirst(s, i, units, WarmLoop(made));
    var s2 := At(s1, i, Waking(0, WarmLoop(made)));
    WarmTopAlone(s2, i, made);
    assert AdvanceTask(s1, i) == WarmTop(s2, i, made);
  }

  /** An open `warm` begins. */
  lemma WarmBegins(s: State, i: nat, waits: nat -> nat)
    requires i < |s.tasks| && s.tasks[i] == Start(Warm) && !s.core.closed && Mirrored(s) && s.core.slots <= s.core.cfg.maxSize
    ensures Warmer(s, Alone(s, i), i, waits, 0)
  {
    var s1 := At(s, i, Waking(0, WarmLoop(0)));
    WarmTopAlone(s1, i, 0);
    assert AdvanceTask(s, i) == WarmTop(s1, i, 0);
    assert PopN(s.core.queue, 0) == s.core.queue;
    assert s.core.idle + NewConns(s.book.nextConn, 0, DialTimes(s.core.clock, waits)) == s.core.idle;
  }

  /** The dial succeeds: the connection is parked and one waiter is to be woken for it. */
  lemma DialParks(r: State, i: nat, made: nat, wait: nat)
    requires i < |r.tasks| && r.tasks[i] == Dialling(DialWarm(made)) && !r.core.closed && Mirrored(r)
    ensures var r1 := Step(Step(r, Tick(wait)), Resolve(i, true));
            var now := r.core.clock + wait;
            && i < |r1.tasks| && r1.tasks[i] == Waking(1, WarmLoop(made + 1)) && Mirrored(r1)
            && r1.book.nextConn == r.book.nextConn + 1
            && r1.core == r.core.(clock := now, idle := r.core.idle + [Conn(r.book.nextConn, now, now)],
                                  gauges := r1.core.gauges, stats := r.core.stats.(created := r.core.stats.created + 1))
  {
  }

  /** One more dial succeeds. */
  lemma WarmOneMore(s: State, r: State, i: nat, waits: nat -> nat, k: nat)
    requires Warmer(s, r, i, waits, k) && k < ToWarm(|s.core.idle|, s.core.slots, s.core.cfg) && !s.core.closed
    requires s.core.slots <= s.core.cfg.maxSize
    ensures Warmer(s, Answer(r, i, waits(k), true), i, waits, k + 1)
  {
    var times := DialTimes(s.core.clock, waits);
    var r1 := Step(Step(r, Tick(waits(k))), Resolve(i, true));
    DialParks(r, i, k, waits(k));
    NextConn(s.core.idle, s.book.nextConn, k, times);
    assert r1.core.idle == r.core.idle + [NewConn(s.book.nextConn, k, times)];
    WarmLoopAlone(r1, i, 1, k + 1);
    PopNStep(s.core.queue, k, 1);
  }

  /** The dial that follows `k` others failed: its slot is given back, a waiter woken for it, and what
      was opened stays. */
  ghost predicate FailedAfter(s: State, r: State, i: nat, waits: nat -> nat, k: nat) {
    var c := s.core;
    && i < |r.tasks| && r.tasks[i] == Done(Ended(Failed))
    && r.core.idle == c.idle + NewConns(s.book.nextConn, k, DialTimes(c.clock, waits))
    && r.core.slots == c.slots + k && r.core.queue == PopN(c.queue, k + 1)
    && r.core.stats == c.stats.(created := c.stats.created + k)
  }

  lemma WarmOneFails(s: State, r: State, i: nat, waits: nat -> nat, k: nat)
    requires Warmer(s, r, i, waits, k) && k < ToWarm(|s.core.idle|, s.core.slots, s.core.cfg) && !s.core.closed
    ensures FailedAfter(s, Answer(r, i, waits(k), false), i, waits, k)
  {
    var r1 := Step(Step(r, Tick(waits(k))), Resolve(i, false));
    assert r1.tasks[i] == Waking(1, Finish(Failed));
    WakingAlone(r1, i, 1, Failed);
    PopNStep(s.core.queue, k, 1);
  }

  /** A `warm` about to begin on an open pool. */
  ghost predicate Warming(s: State, i: nat) {
    i < |s.tasks| && s.tasks[i] == Start(Warm) && !s.core.closed && Mirrored(s) && s.core.slots <= s.core.cfg.maxSize
  }

  /** On an open pool and with nobody else about, `warm` of the protocol does what the class method
      does: with every dial succeeding it opens exactly min(max(0, min_idle - idle), max_size - slots)
      connections, each parked as its dial is over. */
  lemma {:induction false} WarmAlone(s: State, i: nat, waits: nat -> nat, k: nat)
    requires Warming(s, i) && k <= ToWarm(|s.core.idle|, s.core.slots, s.core.cfg)
    ensures Warmer(s, WarmAfter(s, i, waits, k), i, waits, k)
  {
    if k == 0 {
      WarmBegins(s, i, waits);
    } else {
      WarmAlone(s, i, waits, k - 1);
      WarmOneMore(s, WarmAfter(s, i, waits, k - 1), i, waits, k - 1);
    }
  }

  /** A dial that fails costs nothing but itself, whichever it is. */
  lemma WarmFailsAlone(s: State, i: nat, waits: nat -> nat, k: nat)
    requires Warming(s, i) && k < ToWarm(|s.core.idle|, s.core.slots, s.core.cfg)
    ensures FailedAfter(s, Answer(WarmAfter(s, i, waits, k), i, waits(k), false), i, waits, k)
  {
    WarmAlone(s, i, waits, k);
    WarmOneFails(s, WarmAfter(s, i, waits, k), i, waits, k);
  }
}
