/** Whole calls as functions on the pool's state, for call-outs that do not re-enter, and the
    proof that a task of the protocol that runs alone computes them. */
module PoolSequential {
  import opened PoolTypes
  import opened WaitQueue
  import opened PoolCore
  import opened PoolProtocol
  import opened PoolAlone
  import opened PoolRuns

  /** `notify(n)`. */
  function Notify(c: Core, n: nat): Core {
    SetQueue(c, PopN(c.queue, NotifyUnits(c, n)))
  }

  function ReleaseAndWake(c: Core, n: nat): Core {
    Notify(ReleaseSlots(c, n), n)
  }

  function ReapCore(c: Core): Core {
    var n := |Retired(c.idle, c.clock, c.cfg)|;
    var c1 := c.(idle := Kept(c.idle, c.clock, c.cfg), stats := NoteRetired(c.stats, c.idle, c.clock, c.cfg));
    if n == 0 then c1 else ReleaseAndWake(LowerIdleGauge(c1, n), n)
  }

  function ClearCore(c: Core): Core {
    var n := |c.idle|;
    var c1 := LowerIdleGauge(c.(idle := []), n);
    ReleaseAndWake(c1.(stats := c1.stats.(manual := c1.stats.manual + n)), n)
  }

  /** One expired connection is dropped from the end of the idle list. */
  function DiscardNewest(c: Core, reason: Expiry): Core
    requires c.idle != []
  {
    var c1 := PopIdle(c);
    ReleaseAndWake(c1.(stats := c1.stats.NoteExpired(reason)), 1)
  }

  /** `pop_fresh_idle`: what is left, and the connection found. */
  function PopFresh(c: Core, now: Time): (r: (Core, Option<Conn>))
    ensures r.1.Some? ==> !Expired(r.1.value, now, c.cfg)
    ensures r.1.None? ==> r.0.idle == []
    ensures r.0.cfg == c.cfg && r.0.closed == c.closed && r.0.clock == c.clock
    decreases |c.idle|
  {
    if c.idle == [] then (c, None)
    else
      var conn := c.idle[|c.idle| - 1];
      match ExpiryOf(conn, now, c.cfg)
      case None => (PopIdle(c), Some(conn))
      case Some(reason) => PopFresh(DiscardNewest(c, reason), now)
  }

  /** The connections `pop_fresh_idle` discards: the expired ones at the end, newest first. */
  function Discarded(idle: seq<Conn>, now: Time, cfg: Config): (r: seq<Conn>)
    ensures |r| <= |idle|
  {
    if idle == [] || !Expired(idle[|idle| - 1], now, cfg) then []
    else [idle[|idle| - 1]] + Discarded(idle[..|idle| - 1], now, cfg)
  }

  lemma DiscardNewestIs(c: Core, reason: Expiry)
    requires c.idle != [] && |c.idle| <= c.slots
    ensures var c' := DiscardNewest(c, reason);
            && c'.idle == c.idle[..|c.idle| - 1] && c'.slots == c.slots - 1 && c'.cfg == c.cfg && c'.closed == c.closed
            && c'.stats == c.stats.NoteExpired(reason)
            && (!c.closed ==> c'.queue == PopN(c.queue, 1))
  {
  }

  /** One count per discarded connection, under its own reason. */
  function NoteDiscarded(stats: Stats, discarded: seq<Conn>, now: Time, cfg: Config): Stats {
    stats.(idleTimeout := stats.idleTimeout + CountFor(discarded, now, cfg, IdleTimeout),
           maxLifetime := stats.maxLifetime + CountFor(discarded, now, cfg, MaxLifetime))
  }

  /** What is found when the last `d` connections are discarded. */
  ghost predicate FoundBefore(idle: seq<Conn>, d: nat, left: seq<Conn>, found: Option<Conn>) {
    var n := |idle| - d;
    if n <= 0 then found == None && left == [] else found == Some(idle[n - 1]) && left == idle[..n - 1]
  }

  lemma {:induction false} PopFreshFinds(c: Core, now: Time)
    requires |c.idle| <= c.slots
    ensures var d, r := |Discarded(c.idle, now, c.cfg)|, PopFresh(c, now);
            FoundBefore(c.idle, d, r.0.idle, r.1) && r.0.slots == c.slots - d
    decreases |c.idle|
  {
    if c.idle != [] && Expired(c.idle[|c.idle| - 1], now, c.cfg) {
      var reason := ExpiryOf(c.idle[|c.idle| - 1], now, c.cfg).value;
      var c' := DiscardNewest(c, reason);
      DiscardNewestIs(c, reason);
      PopFreshFinds(c', now);
      FoundFurther(c.idle, |Discarded(c'.idle, now, c.cfg)|, PopFresh(c', now).0.idle, PopFresh(c', now).1);
    }
  }

  lemma {:induction false} PopFreshCounts(c: Core, now: Time)
    requires |c.idle| <= c.slots
    ensures PopFresh(c, now).0.stats == NoteDiscarded(c.stats, Discarded(c.idle, now, c.cfg), now, c.cfg)
    decreases |c.idle|
  {
    if c.idle != [] && Expired(c.idle[|c.idle| - 1], now, c.cfg) {
      var newest := c.idle[|c.idle| - 1];
      var reason := ExpiryOf(newest, now, c.cfg).value;
      var c' := DiscardNewest(c, reason);
      DiscardNewestIs(c, reason);
      PopFreshCounts(c', now);
      NoteFirst(c.stats, newest, Discarded(c'.idle, now, c.cfg), now, c.cfg, reason);
    }
  }

  lemma {:induction false} PopFreshWakes(c: Core, now: Time)
    requires |c.idle| <= c.slots && !c.closed
    ensures PopFresh(c, now).0.queue == PopN(c.queue, |Discarded(c.idle, now, c.cfg)|)
    decreases |c.idle|
  {
    if c.idle != [] && Expired(c.idle[|c.idle| - 1], now, c.cfg) {
      var reason := ExpiryOf(c.idle[|c.idle| - 1], now, c.cfg).value;
      var c' := DiscardNewest(c, reason);
      DiscardNewestIs(c, reason);
      PopFreshWakes(c', now);
      PopNStep(c.queue, 1, |Discarded(c'.idle, now, c.cfg)|);
    }
  }

  /** It discards exactly those, each counted under its reason, giving its slot back and waking
      one waiter of an open pool, and hands out the newest of the rest. */
  lemma PopFreshDiscards(c: Core, now: Time)
    requires |c.idle| <= c.slots
    ensures var d, r := Discarded(c.idle, now, c.cfg), PopFresh(c, now);
            && FoundBefore(c.idle, |d|, r.0.idle, r.1) && r.0.slots == c.slots - |d|
            && r.0.stats == NoteDiscarded(c.stats, d, now, c.cfg)
            && (!c.closed ==> r.0.queue == PopN(c.queue, |d|))
  {
    PopFreshFinds(c, now);
    PopFreshCounts(c, now);
    if !c.closed {
      PopFreshWakes(c, now);
    }
  }

  lemma NoteFirst(stats: Stats, first: Conn, rest: seq<Conn>, now: Time, cfg: Config, reason: Expiry)
    requires ExpiryOf(first, now, cfg) == Some(reason)
    ensures NoteDiscarded(stats.NoteExpired(reason), rest, now, cfg) == NoteDiscarded(stats, [first] + rest, now, cfg)
  {
    CountForFirst(first, rest, now, cfg, IdleTimeout);
    CountForFirst(first, rest, now, cfg, MaxLifetime);
  }

  lemma FoundFurther(idle: seq<Conn>, d: nat, left: seq<Conn>, found: Option<Conn>)
    requires idle != [] && FoundBefore(idle[..|idle| - 1], d, left, found)
    ensures FoundBefore(idle, d + 1, left, found)
  {
    var n := |idle| - 1 - d;
    if n > 0 {
      assert idle[..|idle| - 1][..n - 1] == idle[..n - 1];
    }
  }

  /** A lease comes back. */
  function ReturnCore(c: Core, conn: Conn, broken: bool): Core {
    if c.closed then ReleaseAndWake(c.(stats := NoteWhy(c.stats, Manual)), 1)
    else if broken then ReleaseAndWake(c.(stats := NoteWhy(c.stats, Broken)), 1)
    else
      match ExpiryOf(conn, c.clock, c.cfg)
      case Some(reason) => ReleaseAndWake(c.(stats := NoteWhy(c.stats, Aged(reason))), 1)
      case None => Notify(PushIdle(c, conn.(lastUsed := c.clock)), 1)
  }

  /** How many connections `warm` has to open, and can. */
  function ToWarm(idle: nat, slots: nat, cfg: Config): (n: nat)
    ensures n == 0 <==> idle >= cfg.minIdle || slots >= cfg.maxSize
    ensures slots <= cfg.maxSize ==> slots + n <= cfg.maxSize
  {
    var wanted := if idle < cfg.minIdle then cfg.minIdle - idle else 0;
    var room := if slots < cfg.maxSize then cfg.maxSize - slots else 0;
    if wanted < room then wanted else room
  }

  /** Connection `k` of a call that numbers its connections from `firstId`. */
  function NewConn(firstId: nat, k: nat, openedAt: nat -> Time): Conn {
    Conn(firstId + k, openedAt(k), openedAt(k))
  }

  /** The first `n` of them. */
  function NewConns(firstId: nat, n: nat, openedAt: nat -> Time): (r: seq<Conn>)
    ensures |r| == n
  {
    if n == 0 then [] else NewConns(firstId, n - 1, openedAt) + [NewConn(firstId, n - 1, openedAt)]
  }

  lemma NextConn(idle: seq<Conn>, firstId: nat, made: nat, openedAt: nat -> Time)
    ensures idle + NewConns(firstId, made, openedAt) + [NewConn(firstId, made, openedAt)]
         == idle + NewConns(firstId, made + 1, openedAt)
  {
  }

  // ---- What the order of the idle list gives ----

  lemma {:induction false} AllExpiredAllRetired(idle: seq<Conn>, now: Time, cfg: Config)
    requires forall k :: 0 <= k < |idle| ==> Expired(idle[k], now, cfg)
    ensures Kept(idle, now, cfg) == [] && Retired(idle, now, cfg) == idle
  {
    if idle != [] {
      AllExpiredAllRetired(idle[..|idle| - 1], now, cfg);
      assert idle == idle[..|idle| - 1] + [idle[|idle| - 1]];
    }
  }

  /** With only an idle timeout, whoever was used no later than an expired connection has
      expired too. */
  lemma OlderExpired(idle: seq<Conn>, now: Time, cfg: Config)
    requires SortedByLastUsed(idle) && cfg.maxLifetime.None? && idle != [] && Expired(idle[|idle| - 1], now, cfg)
    ensures forall k :: 0 <= k < |idle| ==> Expired(idle[k], now, cfg)
  {
    forall k | 0 <= k < |idle|
      ensures Expired(idle[k], now, cfg)
    {
      assert idle[k].lastUsed <= idle[|idle| - 1].lastUsed;
    }
  }

  /** With no maximum lifetime and a sorted idle list, a reap cuts off exactly a prefix: the
      least recently used connections. */
  lemma {:induction false} ReapCutsPrefix(idle: seq<Conn>, now: Time, cfg: Config)
    requires SortedByLastUsed(idle) && cfg.maxLifetime.None?
    ensures var n := |Retired(idle, now, cfg)|;
            Kept(idle, now, cfg) == idle[n..] && Retired(idle, now, cfg) == idle[..n]
  {
    if idle != [] {
      var last := |idle| - 1;
      if Expired(idle[last], now, cfg) {
        OlderExpired(idle, now, cfg);
        AllExpiredAllRetired(idle, now, cfg);
      } else {
        ReapCutsPrefix(idle[..last], now, cfg);
        var n := |Retired(idle[..last], now, cfg)|;
        assert idle[n..] == idle[..last][n..] + [idle[last]];
        assert idle[..n] == idle[..last][..n];
      }
    }
  }

  /** Under the same conditions `pop_fresh_idle` hands out the newest connection and discards
      none, or the newest has expired and so has every other, and the list is emptied. */
  lemma PopFreshNewestOrNothing(c: Core, now: Time)
    requires SortedByLastUsed(c.idle) && c.cfg.maxLifetime.None? && c.idle != []
    ensures var newest := c.idle[|c.idle| - 1];
            if Expired(newest, now, c.cfg) then PopFresh(c, now).1 == None && PopFresh(c, now).0.idle == []
            else PopFresh(c, now) == (PopIdle(c), Some(newest))
  {
    if Expired(c.idle[|c.idle| - 1], now, c.cfg) {
      OlderExpired(c.idle, now, c.cfg);
      AllExpiredPopsNothing(c, now);
    }
  }

  lemma {:induction false} AllExpiredPopsNothing(c: Core, now: Time)
    requires forall k :: 0 <= k < |c.idle| ==> Expired(c.idle[k], now, c.cfg)
    ensures PopFresh(c, now).1 == None && PopFresh(c, now).0.idle == []
    decreases |c.idle|
  {
    if c.idle != [] {
      AllExpiredPopsNothing(DiscardNewest(c, ExpiryOf(c.idle[|c.idle| - 1], now, c.cfg).value), now);
    }
  }

  /** So in every reachable state of a pool without a maximum lifetime, at any time. */
  lemma LeastRecentlyUsedGoFirst(cfg: Config, events: seq<Event>, now: Time)
    requires cfg.Valid() && Run(Init(cfg), events).core.cfg.maxLifetime.None?
    ensures var c := Run(Init(cfg), events).core;
            var n := |Retired(c.idle, now, c.cfg)|;
            && Kept(c.idle, now, c.cfg) == c.idle[n..] && Retired(c.idle, now, c.cfg) == c.idle[..n]
            && (c.idle != [] ==>
                  PopFresh(c, now).1 == None || PopFresh(c, now) == (PopIdle(c), Some(c.idle[|c.idle| - 1])))
  {
    var c := Run(Init(cfg), events).core;
    IdleListSorted(cfg, events);
    ReapCutsPrefix(c.idle, now, c.cfg);
    if c.idle != [] {
      PopFreshNewestOrNothing(c, now);
    }
  }

  // ---- A task running alone computes these functions ----

  /** The wake loop, then whatever comes next. */
  lemma {:induction false} WakingAlone(s: State, i: nat, units: nat, end: End)
    requires i < |s.tasks| && s.tasks[i] == Waking(units, Finish(end))
    ensures Alone(s, i).core == SetQueue(s.core, PopN(s.core.queue, units)).(gauges := Alone(s, i).core.gauges)
    ensures Alone(s, i).tasks[i] == Done(Ended(end))
    ensures s.core.gauges.waiters == |s.core.queue.entries| ==>
              Alone(s, i).core == SetQueue(s.core, PopN(s.core.queue, units))
    decreases units
  {
    AdvanceTasks(s, i);
    if units > 0 && s.core.queue.entries != [] {
      var s1 := At(s, i, Waking(units - 1, Finish(end)));
      var s' := AdvanceTask(s, i);
      assert s' == WakeOldest(s1);
      assert s'.core == SetQueue(s.core, Pop(s.core.queue));
      assert s'.tasks[i] == Waking(units - 1, Finish(end));
      WakingAlone(s', i, units - 1, end);
    } else {
      assert PopN(s.core.queue, units) == s.core.queue;
    }
  }

  ghost predicate Mirrored(s: State) {
    s.core.gauges.waiters == |s.core.queue.entries|
  }

  lemma ReleaseAlone(s: State, i: nat, n: nat, end: End)
    requires i < |s.tasks| && Mirrored(s)
    ensures i < |ReleaseAndNotify(s, i, n, Finish(end)).tasks|
    ensures Alone(ReleaseAndNotify(s, i, n, Finish(end)), i).core == ReleaseAndWake(s.core, n)
  {
    var s1 := ReleaseAndNotify(s, i, n, Finish(end));
    WakingAlone(s1, i, s1.tasks[i].units, end);
  }

  lemma {:induction false} ReapingAlone(s: State, i: nat, left: seq<Conn>, n: nat)
    requires i < |s.tasks| && s.tasks[i] == Reaping(left, n) && Mirrored(s)
    ensures Alone(s, i).core == if n == 0 then s.core else ReleaseAndWake(LowerIdleGauge(s.core, n), n)
    decreases |left|
  {
    if left == [] {
      if n > 0 {
        ReleaseAlone(With(s, LowerIdleGauge(s.core, n)), i, n, Count(n));
      }
    } else {
      ReapingAlone(AdvanceTask(s, i), i, left[1..], n);
    }
  }

  /** `reap`, run alone. */
  lemma ReapAlone(s: State, i: nat)
    requires i < |s.tasks| && s.tasks[i] == Start(Reap) && Mirrored(s)
    ensures Alone(s, i).core == ReapCore(s.core)
  {
    var s1 := StartReap(s, i);
    assert AdvanceTask(s, i) == s1;
    ReapingAlone(s1, i, s1.tasks[i].left, s1.tasks[i].total);
  }

  /** The end of `clear`, once the detached connections have been dropped. */
  function FinishedClear(c: Core, n: nat): Core {
    var c1 := LowerIdleGauge(c, n);
    ReleaseAndWake(c1.(stats := c1.stats.(manual := c1.stats.manual + n)), n)
  }

  lemma {:induction false} ClearedAlone(s: State, i: nat, n: nat)
    requires i < |s.tasks| && s.tasks[i] == Clearing([], n) && Mirrored(s)
    ensures Alone(s, i).core == FinishedClear(s.core, n)
  {
    var c := LowerIdleGauge(s.core, n);
    var s1 := With(s, c.(stats := c.stats.(manual := c.stats.manual + n)));
    assert AdvanceTask(s, i) == ReleaseAndNotify(s1, i, n, Finish(Count(n)));
    ReleaseAlone(s1, i, n, Count(n));
  }

  lemma {:induction false} ClearingAlone(s: State, i: nat, left: seq<Conn>, n: nat)
    requires i < |s.tasks| && s.tasks[i] == Clearing(left, n) && Mirrored(s)
    ensures Alone(s, i).core == FinishedClear(s.core, n)
    decreases |left|
  {
    if left == [] {
      ClearedAlone(s, i, n);
    } else {
      var s' := AdvanceTask(s, i);
      assert s'.core == s.core && s'.tasks[i] == Clearing(left[1..], n);
      ClearingAlone(s', i, left[1..], n);
    }
  }

  /** `clear`, run alone. */
  lemma ClearAlone(s: State, i: nat)
    requires i < |s.tasks| && s.tasks[i] == Start(Clear) && Mirrored(s)
    ensures Alone(s, i).core == ClearCore(s.core)
  {
    var s1 := StartClear(s, i);
    assert AdvanceTask(s, i) == s1;
    ClearingAlone(s1, i, s1.tasks[i].left, s1.tasks[i].total);
  }

  /** A return, run alone: the lease is given up, the manager answers, the guard finishes. */
  lemma ReturnAlone(s: State, i: nat, broken: bool)
    requires i < |s.tasks| && s.tasks[i].Lease? && Mirrored(s)
    ensures var s1 := ReturnLease(s, i);
            var s2 := if s.core.closed then s1 else ResolveTask(s1, i, !broken);
            i < |s2.tasks| && Alone(s2, i).core == ReturnCore(s.core, s.tasks[i].conn, broken)
  {
    var conn := s.tasks[i].conn;
    var s1 := ReturnLease(s, i);
    var s2 := if s.core.closed then s1 else ResolveTask(s1, i, !broken);
    if s2.tasks[i].DroppingReturn? {
      var s3 := Note(Bury(s2, conn), s2.tasks[i].why);
      assert AdvanceTask(s2, i) == ReleaseAndNotify(s3, i, 1, Finish(Returned));
      ReleaseAlone(s3, i, 1, Returned);
    } else {
      WakingAlone(s2, i, s2.tasks[i].units, Returned);
    }
  }

  /** `r` is what a caller of `pop_fresh_idle` comes to, from the pool state `c0`. */
  ghost predicate Popped(r: State, i: nat, c0: Core, caller: Caller, at: Time) {
    var (c, found) := PopFresh(c0, at);
    && i < |r.tasks|
    && match found
       case Some(conn) =>
         if c.cfg.testOnCheckOut && !caller.Fast? then r.core == c && r.tasks[i] == Validating(caller, conn)
         else r.core == RecordAcquire(c, caller.Waited()) && r.tasks[i] == Lease(conn)
       case None =>
         && r.core == NothingIdle(With(r, c), i, caller).core
         && r.tasks[i] == NothingIdle(With(r, c), i, caller).tasks[i]
  }

  /** One turn of the wake loop. */
  lemma OneWake(s: State, i: nat, units: nat, cont: Cont)
    requires i < |s.tasks| && s.tasks[i] == Waking(units, cont) && units > 0 && s.core.queue.entries != []
    ensures var s' := AdvanceTask(s, i);
            && s'.core == SetQueue(s.core, Pop(s.core.queue)) && Mirrored(s') && s'.book == s.book
            && i < |s'.tasks| && s'.tasks[i] == Waking(units - 1, cont) && Alone(s, i) == Alone(s', i)
  {
    assert AdvanceTask(s, i) == WakeOldest(At(s, i, Waking(units - 1, cont)));
  }

  /** The state in which a task's wakes have been sent. */
  lemma {:induction false} WakesFirst(s: State, i: nat, units: nat, cont: Cont) returns (s1: State)
    requires i < |s.tasks| && s.tasks[i] == Waking(units, cont) && Mirrored(s)
    ensures i < |s1.tasks| && s1.tasks[i].Waking? && s1.tasks[i].cont == cont && Mirrored(s1) && s1.book == s.book
    ensures s1.tasks[i].units == 0 || s1.core.queue.entries == []
    ensures s1.core == SetQueue(s.core, PopN(s.core.queue, units)) && Alone(s, i) == Alone(s1, i)
    decreases units
  {
    s1 := s;
    if units > 0 && s.core.queue.entries != [] {
      OneWake(s, i, units, cont);
      s1 := WakesFirst(AdvanceTask(s, i), i, units - 1, cont);
    }
  }

  /** The wakes are over: round the loop of `pop_fresh_idle`. */
  lemma LastWake(s: State, i: nat, caller: Caller, at: Time, owed: bool)
    requires i < |s.tasks| && s.tasks[i].Waking? && s.tasks[i].cont == PopOn(caller, at, owed)
    requires s.tasks[i].units == 0 || s.core.queue.entries == []
    ensures var s1 := At(s, i, Waking(0, PopOn(caller, at, owed)));
            && i < |PopTurn(s1, i, caller, at, owed).tasks|
            && Alone(s, i) == Alone(PopTurn(s1, i, caller, at, owed), i)
  {
    assert AdvanceTask(s, i) == PopTurn(At(s, i, Waking(0, PopOn(caller, at, owed))), i, caller, at, owed);
  }

  /** Waking `units` waiters and then going round the loop of `pop_fresh_idle`, run alone. */
  lemma {:induction false} PopLoopAlone(s: State, i: nat, units: nat, caller: Caller, at: Time, owed: bool)
    requires i < |s.tasks| && s.tasks[i] == Waking(units, PopOn(caller, at, owed)) && Mirrored(s)
    ensures Popped(Alone(s, i), i, SetQueue(s.core, PopN(s.core.queue, units)), caller, at)
    decreases |s.core.idle|, 1, units
  {
    var s1 := WakesFirst(s, i, units, PopOn(caller, at, owed));
    LastWake(s1, i, caller, at, owed);
    PopTurnAlone(At(s1, i, Waking(0, PopOn(caller, at, owed))), i, caller, at, owed);
  }

  /** One turn of the loop, and the rest of it. */
  lemma {:induction false} PopTurnAlone(s: State, i: nat, caller: Caller, at: Time, owed: bool)
    requires i < |s.tasks| && Mirrored(s)
    ensures i < |PopTurn(s, i, caller, at, owed).tasks|
    ensures Popped(Alone(PopTurn(s, i, caller, at, owed), i), i, s.core, caller, at)
    decreases |s.core.idle|, 0, 0
  {
    if s.core.idle == [] || !Expired(s.core.idle[|s.core.idle| - 1], at, s.core.cfg) {
      LastTurnAlone(s, i, caller, at, owed);
    } else {
      var reason := ExpiryOf(s.core.idle[|s.core.idle| - 1], at, s.core.cfg).value;
      var s1 := PopTurn(s, i, caller, at, owed);
      var s2 := AdvanceTask(s1, i);
      var c := PopIdle(s.core);
      var c1 := ReleaseSlots(c.(stats := c.stats.NoteExpired(reason)), 1);
      assert s2.core == c1;
      assert s2.tasks[i] == Waking(NotifyUnits(c1, 1), PopOn(caller, at, owed));
      PopLoopAlone(s2, i, NotifyUnits(c1, 1), caller, at, owed);
      assert PopFresh(s.core, at) == PopFresh(DiscardNewest(s.core, reason), at);
      assert Alone(s1, i) == Alone(s2, i);
    }
  }

  lemma LastTurnAlone(s: State, i: nat, caller: Caller, at: Time, owed: bool)
    requires i < |s.tasks|
    requires s.core.idle == [] || !Expired(s.core.idle[|s.core.idle| - 1], at, s.core.cfg)
    ensures i < |PopTurn(s, i, caller, at, owed).tasks|
    ensures Popped(Alone(PopTurn(s, i, caller, at, owed), i), i, s.core, caller, at)
  {
    assert !InCode(PopTurn(s, i, caller, at, owed).tasks[i]);
    assert s.core.idle == [] ==> With(s, s.core) == s;
  }
}
