/** The idle list is always sorted by `last_used`, and what follows from that. */
module PoolOrder {
  import opened PoolTypes
  import opened WaitQueue
  import opened PoolCore
  import opened PoolProtocol

  /** Oldest use first, and nothing was used in the future. */
  ghost predicate Timely(idle: seq<Conn>, clock: Time) {
    && SortedByLastUsed(idle)
    && forall a :: 0 <= a < |idle| ==> idle[a].lastUsed <= clock
  }

  lemma {:induction false} KeptTimely(idle: seq<Conn>, now: Time, cfg: Config, clock: Time)
    requires Timely(idle, clock)
    ensures Timely(Kept(idle, now, cfg), clock)
  {
    if idle != [] {
      var n := |idle| - 1;
      var rest := Kept(idle[..n], now, cfg);
      KeptTimely(idle[..n], now, cfg, clock);
      forall a | 0 <= a < |rest|
        ensures rest[a].lastUsed <= idle[n].lastUsed
      {
        assert rest[a] in rest;
        ReapSplitsByExpiry(idle[..n], now, cfg, rest[a]);
      }
    }
  }

  /** What one step may do to the idle list. */
  ghost predicate IdleMoved(c: Core, c': Core) {
    || c'.idle == c.idle
    || (c.idle != [] && c'.idle == c.idle[..|c.idle| - 1])
    || c'.idle == Kept(c.idle, c.clock, c.cfg)
    || c'.idle == []
    || (exists conn: Conn :: conn.lastUsed == c.clock && c'.idle == c.idle + [conn])
  }

  lemma IdleMovedTimely(c: Core, c': Core)
    requires Timely(c.idle, c.clock) && IdleMoved(c, c') && c.clock <= c'.clock
    ensures Timely(c'.idle, c'.clock)
  {
    KeptTimely(c.idle, c.clock, c.cfg, c.clock);
  }

  lemma ResumeIdle(s: State, i: nat, cont: Cont)
    requires i < |s.tasks|
    ensures IdleMoved(s.core, Resume(s, i, cont).core) && Resume(s, i, cont).core.clock == s.core.clock
  {
  }

  lemma AdvanceIdle(s: State, i: nat)
    requires i < |s.tasks|
    ensures IdleMoved(s.core, AdvanceTask(s, i).core) && AdvanceTask(s, i).core.clock == s.core.clock
  {
    var t, c := s.tasks[i], s.core;
    if t.Waking? {
      ResumeIdle(At(s, i, Waking(0, t.cont)), i, t.cont);
    } else if t.Start? && FirstLoop(c, t.call).Some? {
      var cont := FirstLoop(c, t.call).value;
      ResumeIdle(At(s, i, Waking(0, cont)), i, cont);
    }
  }

  lemma PollIdle(s: State, i: nat)
    requires i < |s.tasks|
    ensures IdleMoved(s.core, PollTask(s, i).core) && PollTask(s, i).core.clock == s.core.clock
  {
    if s.tasks[i].Parked? && ReadyNow(s.core) && !s.core.closed {
      var s1 := With(s, SetQueue(s.core, Unregister(s.core.queue, s.tasks[i].id).0));
      var cont := PopOn(Inner(true), s.core.clock, s.tasks[i].woken);
      ResumeIdle(At(s1, i, Waking(0, cont)), i, cont);
    } else if s.tasks[i].Backoff? {
      var cont := LoopTop(Inner(s.tasks[i].waited));
      ResumeIdle(At(s, i, Waking(0, cont)), i, cont);
    }
  }

  lemma ParkIdleMoves(s: State, i: nat, conn: Conn, cont: Cont)
    requires i < |s.tasks|
    ensures IdleMoved(s.core, ParkIdle(s, i, conn, cont).core)
  {
    assert conn.(lastUsed := s.core.clock).lastUsed == s.core.clock;
  }

  lemma ResolveIdle(s: State, i: nat, ok: bool)
    requires i < |s.tasks|
    ensures IdleMoved(s.core, ResolveTask(s, i, ok).core) && ResolveTask(s, i, ok).core.clock == s.core.clock
  {
    var t := s.tasks[i];
    if t.AskBroken? {
      ParkIdleMoves(s, i, t.conn, Finish(Returned));
    } else if t.Dialling? && t.dialler.DialWarm? && ok {
      var (s1, conn) := Opened(s);
      ParkIdleMoves(s1, i, conn, WarmLoop(t.dialler.made + 1));
    }
  }

  lemma StepTimely(s: State, e: Event)
    requires Timely(s.core.idle, s.core.clock)
    ensures Timely(Step(s, e).core.idle, Step(s, e).core.clock)
  {
    match e
    case Advance(i) => if i < |s.tasks| { AdvanceIdle(s, i); IdleMovedTimely(s.core, Step(s, e).core); }
    case Poll(i) => if i < |s.tasks| { PollIdle(s, i); IdleMovedTimely(s.core, Step(s, e).core); }
    case Resolve(i, ok) => if i < |s.tasks| { ResolveIdle(s, i, ok); IdleMovedTimely(s.core, Step(s, e).core); }
    case _ => assert Step(s, e).core.idle == s.core.idle;
  }
}
