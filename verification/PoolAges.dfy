/** Expiry told by the history of a run: when each connection was opened, when it was last put on
    the idle list, and when a checkout began to look for one. */
module PoolAges {
  import opened PoolTypes
  import opened WaitQueue
  import opened PoolCore
  import opened PoolProtocol
  import opened Sums
  import opened PoolIdentity
  import opened PoolRuns
  import opened PoolAlone
  import opened PoolCalls

  // ---- The history ----

  /** When each connection was opened, by its number. */
  ghost function Births(cfg: Config, events: seq<Event>): seq<Time> {
    if events == [] then []
    else
      var before, e := events[..|events| - 1], events[|events| - 1];
      var s := Run(Init(cfg), before);
      Births(cfg, before) + if Step(s, e).book.nextConn > s.book.nextConn then [s.core.clock] else []
  }

  /** A step opens the connection `id`, or puts it on the idle list. */
  predicate Renews(s: State, e: Event, id: nat) {
    || (id == s.book.nextConn && Step(s, e).book.nextConn > id)
    || (Copies(s.core.idle, id) == 0 && Copies(Step(s, e).core.idle, id) > 0)
  }

  /** When the connection `id` was last put on the idle list; when it was opened if it never was. */
  ghost function LastUse(cfg: Config, events: seq<Event>, id: nat): Time {
    if events == [] then 0
    else
      var before, e := events[..|events| - 1], events[|events| - 1];
      var s := Run(Init(cfg), before);
      if Renews(s, e, id) then s.core.clock else LastUse(cfg, before, id)
  }

  predicate TooOld(cfg: Config, birth: Time, now: Time) {
    cfg.maxLifetime.Some? && (birth + cfg.maxLifetime.value <= now || cfg.maxLifetime.value == 0)
  }

  predicate TooIdle(cfg: Config, use: Time, now: Time) {
    cfg.idleTimeout.Some? && (use + cfg.idleTimeout.value <= now || cfg.idleTimeout.value == 0)
  }

  // ---- Where connections are ----

  predicate HasConn(t: Task, conn: Conn) {
    match t
    case Discarding(_, _, _, c, _) => c == conn
    case Validating(_, c) => c == conn
    case DroppingHeld(c, _) => c == conn
    case Lease(c) => c == conn
    case AskBroken(c) => c == conn
    case DroppingReturn(c, _) => c == conn
    case Reaping(left, _) => conn in left
    case Clearing(left, _) => conn in left
    case _ => false
  }

  ghost predicate Carries(s: State, k: nat, conn: Conn) {
    k < |s.tasks| && HasConn(s.tasks[k], conn)
  }

  ghost predicate Around(s: State, conn: Conn) {
    conn in s.core.idle || exists k: nat :: Carries(s, k, conn)
  }

  lemma {:induction false} InCopies(conns: seq<Conn>, conn: Conn)
    requires conn in conns
    ensures Copies(conns, conn.id) >= 1
  {
    var n := |conns| - 1;
    if conns[n] != conn {
      assert conns == conns[..n] + [conns[n]];
      InCopies(conns[..n], conn);
    }
  }

  lemma {:induction false} CopiesIn(conns: seq<Conn>, id: nat) returns (conn: Conn)
    requires Copies(conns, id) >= 1
    ensures conn in conns && conn.id == id
  {
    var n := |conns| - 1;
    if conns[n].id == id {
      conn := conns[n];
    } else {
      conn := CopiesIn(conns[..n], id);
    }
  }

  lemma {:induction false} TwoCopies(conns: seq<Conn>, a: Conn, b: Conn)
    requires a in conns && b in conns && a != b && a.id == b.id
    ensures Copies(conns, a.id) >= 2
  {
    var n := |conns| - 1;
    assert conns == conns[..n] + [conns[n]];
    if conns[n] == a {
      InCopies(conns[..n], b);
    } else if conns[n] == b {
      InCopies(conns[..n], a);
    } else {
      TwoCopies(conns[..n], a, b);
    }
  }

  lemma HeldHolds(t: Task, conn: Conn)
    requires HasConn(t, conn)
    ensures Holds(t, conn.id) >= 1
  {
    if t.Reaping? || t.Clearing? {
      InCopies(t.left, conn);
    }
  }

  lemma TwoHolds(t: Task, a: Conn, b: Conn)
    requires HasConn(t, a) && HasConn(t, b) && a != b && a.id == b.id
    ensures Holds(t, a.id) >= 2
  {
    if t.Reaping? || t.Clearing? {
      TwoCopies(t.left, a, b);
    }
  }

  lemma {:induction false} SumOfTwo(ns: seq<nat>, a: nat, b: nat)
    requires a < b < |ns|
    ensures ns[a] + ns[b] <= SumOf(ns)
  {
    var n := |ns| - 1;
    if b == n {
      SumOfOne(ns[..n], a);
    } else {
      SumOfTwo(ns[..n], a, b);
    }
  }

  lemma {:induction false} SumOfOne(ns: seq<nat>, a: nat)
    requires a < |ns|
    ensures ns[a] <= SumOf(ns)
  {
    if a < |ns| - 1 {
      SumOfOne(ns[..|ns| - 1], a);
    }
  }

  lemma HeldCounted(s: State, k: nat, conn: Conn)
    requires Carries(s, k, conn)
    ensures SumOf(HeldCounts(s.tasks, conn.id)) >= 1
  {
    HeldHolds(s.tasks[k], conn);
    SumOfOne(HeldCounts(s.tasks, conn.id), k);
  }

  /** What a task holds is not idle. */
  lemma HeldNotIdle(s: State, k: nat, conn: Conn)
    requires InOnePlace(s, conn.id) && Carries(s, k, conn)
    ensures Copies(s.core.idle, conn.id) == 0
  {
    HeldCounted(s, k, conn);
  }

  lemma HeldOnce(s: State, j: nat, k: nat, a: Conn, b: Conn)
    requires InOnePlace(s, a.id) && a.id == b.id && Carries(s, j, a) && Carries(s, k, b)
    ensures a == b
  {
    var counts := HeldCounts(s.tasks, a.id);
    HeldHolds(s.tasks[j], a);
    HeldHolds(s.tasks[k], b);
    if j < k {
      SumOfTwo(counts, j, k);
    } else if k < j {
      SumOfTwo(counts, k, j);
    } else if a != b {
      TwoHolds(s.tasks[j], a, b);
      SumOfOne(counts, j);
    }
  }

  /** No two copies of one connection. */
  lemma OneCopy(s: State, a: Conn, b: Conn)
    requires InOnePlace(s, a.id) && a.id == b.id && Around(s, a) && Around(s, b)
    ensures a == b
  {
    if a in s.core.idle && b in s.core.idle {
      if a != b {
        TwoCopies(s.core.idle, a, b);
      }
    } else if a in s.core.idle {
      var k: nat :| Carries(s, k, b);
      HeldNotIdle(s, k, b);
      InCopies(s.core.idle, a);
    } else {
      var j: nat :| Carries(s, j, a);
      if b in s.core.idle {
        HeldNotIdle(s, j, a);
        InCopies(s.core.idle, b);
      } else {
        var k: nat :| Carries(s, k, b);
        HeldOnce(s, j, k, a, b);
      }
    }
  }

  // ---- No step makes up a connection ----

  /** If task `i` or the idle list holds the connection, one of them held it before. */
  predicate NoNewFace(s: State, s': State, i: nat, conn: Conn) {
    && i < |s.tasks| && i < |s'.tasks| && s'.book.nextConn == s.book.nextConn
    && (conn in s'.core.idle ==> conn in s.core.idle)
    && (HasConn(s'.tasks[i], conn) ==> conn in s.core.idle || HasConn(s.tasks[i], conn))
  }

  lemma PopTurnFaces(s: State, i: nat, caller: Caller, at: Time, owed: bool, conn: Conn)
    requires i < |s.tasks|
    ensures NoNewFace(s, PopTurn(s, i, caller, at, owed), i, conn)
  {
  }

  lemma GoFaces(s: State, i: nat, cont: Cont, conn: Conn)
    requires i < |s.tasks|
    ensures NoNewFace(s, Go(s, i, cont), i, conn)
  {
    var s1 := At(s, i, Waking(0, cont));
    match cont
    case PopOn(caller, at, owed) => PopTurnFaces(s1, i, caller, at, owed, conn);
    case LoopTop(caller) =>
      PopTurnFaces(s1, i, if caller.Try? then caller else Inner(caller.Waited()), s.core.clock, false, conn);
    case _ =>
  }

  lemma StartFaces(s: State, i: nat, conn: Conn)
    requires i < |s.tasks| && s.tasks[i].Start?
    ensures NoNewFace(s, AdvanceTask(s, i), i, conn)
  {
    var call := s.tasks[i].call;
    if FirstLoop(s.core, call).Some? {
      GoFaces(s, i, FirstLoop(s.core, call).value, conn);
    } else if call.Reap? {
      ReapSplitsByExpiry(s.core.idle, s.core.clock, s.core.cfg, conn);
    }
  }

  lemma BatchFaces(s: State, i: nat, conn: Conn)
    requires i < |s.tasks| && (s.tasks[i].Reaping? || s.tasks[i].Clearing?)
    ensures NoNewFace(s, AdvanceTask(s, i), i, conn)
  {
  }

  /** Dropping a connection, or waking a waiter. */
  lemma DropFaces(s: State, i: nat, conn: Conn)
    requires i < |s.tasks| && !s.tasks[i].Start? && !s.tasks[i].Reaping? && !s.tasks[i].Clearing?
    requires s.tasks[i].Waking? ==> s.tasks[i].units > 0 && s.core.queue.entries != []
    ensures NoNewFace(s, AdvanceTask(s, i), i, conn)
  {
  }

  lemma AdvanceFaces(s: State, i: nat, conn: Conn)
    requires i < |s.tasks|
    ensures NoNewFace(s, AdvanceTask(s, i), i, conn)
  {
    var t := s.tasks[i];
    if t.Start? {
      StartFaces(s, i, conn);
    } else if t.Reaping? || t.Clearing? {
      BatchFaces(s, i, conn);
    } else if t.Waking? && (t.units == 0 || s.core.queue.entries == []) {
      GoFaces(s, i, t.cont, conn);
    } else {
      DropFaces(s, i, conn);
    }
  }

  lemma PollFaces(s: State, i: nat, conn: Conn)
    requires i < |s.tasks|
    ensures NoNewFace(s, PollTask(s, i), i, conn)
  {
    var t, c := s.tasks[i], s.core;
    if t.Parked? && ReadyNow(c) && !c.closed {
      GoFaces(With(s, SetQueue(c, Unregister(c.queue, t.id).0)), i, PopOn(Inner(true), c.clock, t.woken), conn);
    } else if t.Backoff? {
      GoFaces(s, i, LoopTop(Inner(t.waited)), conn);
    }
  }

  lemma EndFaces(s: State, e: Event, i: nat, conn: Conn)
    requires i < |s.tasks| && Names(e, i) && (e.Cancel? || e.Return? || e.Take?)
    ensures NoNewFace(s, Step(s, e), i, conn)
  {
  }

  /** The connection that a dial opens in this state. */
  function NextFace(s: State): Conn {
    Conn(s.book.nextConn, s.core.clock, s.core.clock)
  }

  predicate Opens(s: State, e: Event) {
    e.Resolve? && e.ok && e.i < |s.tasks| && s.tasks[e.i].Dialling?
  }

  /** A returned connection, stamped. */
  predicate Stamped(s: State, e: Event, conn: Conn) {
    && e.Resolve? && e.i < |s.tasks| && s.tasks[e.i].AskBroken?
    && conn == s.tasks[e.i].conn.(lastUsed := s.core.clock)
  }

  /** But for the connection that a dial opens and the time stamp of a return. */
  lemma ResolveFaces(s: State, i: nat, ok: bool, conn: Conn)
    requires i < |s.tasks|
    ensures var s', e := ResolveTask(s, i, ok), Resolve(i, ok);
            && s'.book.nextConn == s.book.nextConn + (if Opens(s, e) then 1 else 0)
            && (conn in s'.core.idle ==> conn in s.core.idle || Stamped(s, e, conn) || NewFace(s, e, conn))
            && (HasConn(s'.tasks[i], conn) ==> HasConn(s.tasks[i], conn) || NewFace(s, e, conn))
  {
  }

  predicate NewFace(s: State, e: Event, conn: Conn) {
    Opens(s, e) && conn == NextFace(s)
  }

  lemma NamedFaces(s: State, e: Event, i: nat, conn: Conn)
    requires i < |s.tasks| && Names(e, i)
    ensures i < |Step(s, e).tasks| && Step(s, e).book.nextConn == s.book.nextConn + if Opens(s, e) then 1 else 0
    ensures conn in Step(s, e).core.idle ==> conn in s.core.idle || Stamped(s, e, conn) || NewFace(s, e, conn)
    ensures HasConn(Step(s, e).tasks[i], conn) ==>
              conn in s.core.idle || HasConn(s.tasks[i], conn) || NewFace(s, e, conn)
  {
    match e
    case Advance(_) => AdvanceFaces(s, i, conn);
    case Poll(_) => PollFaces(s, i, conn);
    case Resolve(_, ok) => ResolveFaces(s, i, ok, conn);
    case _ => EndFaces(s, e, i, conn);
  }

  lemma StepIdle(s: State, e: Event, conn: Conn)
    ensures Step(s, e).book.nextConn == s.book.nextConn + if Opens(s, e) then 1 else 0
    ensures conn in Step(s, e).core.idle ==> conn in s.core.idle || Stamped(s, e, conn) || NewFace(s, e, conn)
  {
    if (e.Advance? || e.Poll? || e.Resolve? || e.Cancel? || e.Return? || e.Take?) && e.i < |s.tasks| {
      NamedFaces(s, e, e.i, conn);
    }
  }

  lemma StepFaces(s: State, e: Event, conn: Conn)
    ensures Around(Step(s, e), conn) ==> Around(s, conn) || NewFace(s, e, conn) || Stamped(s, e, conn)
  {
    var s' := Step(s, e);
    StepIdle(s, e, conn);
    if conn !in s'.core.idle && exists k: nat :: Carries(s', k, conn) {
      var k: nat :| Carries(s', k, conn);
      StepHeld(s, e, k, conn);
      if Names(e, k) {
        NamedFaces(s, e, k, conn);
        assert HasConn(s.tasks[k], conn) ==> Carries(s, k, conn);
      }
    }
  }

  /** A task that the event does not name holds what it held. */
  lemma StepHeld(s: State, e: Event, k: nat, conn: Conn)
    requires Carries(Step(s, e), k, conn)
    ensures k < |s.tasks|
    ensures !Names(e, k) ==> Carries(s, k, conn)
  {
    if k >= |s.tasks| {
      StepStarts(s, e, k);
    } else if !Names(e, k) {
      OthersGoOn(s, e, k);
    }
  }

  // ---- Every time stamp tells the truth ----

  /** The connection is as old, and was last used, as the history says. */
  ghost predicate Dated(cfg: Config, events: seq<Event>, conn: Conn) {
    && conn.id < |Births(cfg, events)| && conn.createdAt == Births(cfg, events)[conn.id]
    && conn.lastUsed == LastUse(cfg, events, conn.id)
  }

  lemma {:induction false} BirthsCounted(cfg: Config, events: seq<Event>)
    ensures |Births(cfg, events)| == Run(Init(cfg), events).book.nextConn
  {
    if events != [] {
      BirthsCounted(cfg, events[..|events| - 1]);
      StepIdle(Run(Init(cfg), events[..|events| - 1]), events[|events| - 1], Conn(0, 0, 0));
    }
  }

  /** In every run, every connection the pool has carries the times of its opening and of its last
      use. */
  lemma {:induction false} EveryStampTrue(cfg: Config, events: seq<Event>, conn: Conn)
    requires cfg.Valid() && Around(Run(Init(cfg), events), conn)
    ensures Dated(cfg, events, conn)
  {
    if events != [] {
      var before, e := events[..|events| - 1], events[|events| - 1];
      var s := Run(Init(cfg), before);
      StepFaces(s, e, conn);
      StepIdle(s, e, conn);
      BirthsCounted(cfg, before);
      EveryRun(cfg, before);
      EveryRun(cfg, events);
      if Around(s, conn) {
        EveryStampTrue(cfg, before, conn);
        if Renews(s, e, conn.id) {
          RenewedStamp(s, e, conn);
        }
      } else if !NewFace(s, e, conn) {
        var returned := s.tasks[e.i].conn;
        assert Carries(s, e.i, returned);
        EveryStampTrue(cfg, before, returned);
        StampedRenews(s, e, conn);
      }
    }
  }

  /** The last use of a connection that comes onto the idle list is now, also if that is no change. */
  lemma RenewedStamp(s: State, e: Event, conn: Conn)
    requires Inv(Step(s, e)) && Around(s, conn) && Around(Step(s, e), conn)
    requires conn.id < s.book.nextConn && Renews(s, e, conn.id)
    ensures conn.lastUsed == s.core.clock
  {
    var s' := Step(s, e);
    var idle := CopiesIn(s'.core.idle, conn.id);
    if idle in s.core.idle {
      InCopies(s.core.idle, idle);
    }
    StepIdle(s, e, idle);
    assert InOnePlace(s', conn.id);
    OneCopy(s', conn, idle);
  }

  lemma StampedRenews(s: State, e: Event, conn: Conn)
    requires Inv(s) && Stamped(s, e, conn) && Around(Step(s, e), conn) && !Around(s, conn)
    ensures Renews(s, e, conn.id)
  {
    var s' := Step(s, e);
    assert InOnePlace(s, conn.id) && Carries(s, e.i, s.tasks[e.i].conn);
    HeldNotIdle(s, e.i, s.tasks[e.i].conn);
    if conn in s'.core.idle {
      InCopies(s'.core.idle, conn);
    } else {
      var k: nat :| Carries(s', k, conn);
      StepHeld(s, e, k, conn);
      ResolveFaces(s, e.i, e.ok, conn);
      assert Carries(s, k, conn);
    }
  }
}
