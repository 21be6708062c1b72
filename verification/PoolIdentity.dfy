/** Connections keep their identity: each one ever opened is in exactly one place. */
module PoolIdentity {
  import opened PoolTypes
  import opened WaitQueue
  import opened PoolCore
  import opened PoolProtocol
  import opened Sums

  /** How often the connection `id` occurs in a list. */
  function Copies(conns: seq<Conn>, id: nat): nat {
    if conns == [] then 0
    else Copies(conns[..|conns| - 1], id) + One(conns[|conns| - 1], id)
  }

  function One(conn: Conn, id: nat): nat {
    if conn.id == id then 1 else 0
  }

  /** How often a task holds the connection `id`. */
  function Holds(t: Task, id: nat): nat {
    match t
    case Discarding(_, _, _, conn, _) => One(conn, id)
    case Validating(_, conn) => One(conn, id)
    case DroppingHeld(conn, _) => One(conn, id)
    case Lease(conn) => One(conn, id)
    case AskBroken(conn) => One(conn, id)
    case DroppingReturn(conn, _) => One(conn, id)
    case Reaping(left, _) => Copies(left, id)
    case Clearing(left, _) => Copies(left, id)
    case _ => 0
  }

  function HeldCounts(tasks: seq<Task>, id: nat): (r: seq<nat>)
    ensures |r| == |tasks|
    ensures forall k :: 0 <= k < |r| ==> r[k] == Holds(tasks[k], id)
  {
    seq(|tasks|, k requires 0 <= k < |tasks| => Holds(tasks[k], id))
  }

  /** The number of places where the connection `id` is: idle, held by a task, or gone. */
  function Places(s: State, id: nat): nat {
    Copies(s.core.idle, id) + SumOf(HeldCounts(s.tasks, id)) + s.book.gone[id]
  }

  /** The connection `id` is in exactly one place if it was ever opened, and nowhere otherwise. */
  predicate InOnePlace(s: State, id: nat) {
    Places(s, id) == if id < s.book.nextConn then 1 else 0
  }

  lemma {:induction false} CopiesFirst(conns: seq<Conn>, id: nat)
    requires conns != []
    ensures Copies(conns, id) == One(conns[0], id) + Copies(conns[1..], id)
  {
    if |conns| > 1 {
      CopiesFirst(conns[..|conns| - 1], id);
      assert conns[..|conns| - 1][1..] == conns[1..][..|conns| - 2];
    }
  }

  lemma CopiesPush(conns: seq<Conn>, conn: Conn, id: nat)
    ensures Copies(conns + [conn], id) == Copies(conns, id) + One(conn, id)
  {
    assert (conns + [conn])[..|conns|] == conns;
  }

  lemma {:induction false} CopiesPartition(idle: seq<Conn>, now: Time, cfg: Config, id: nat)
    ensures Copies(idle, id) == Copies(Kept(idle, now, cfg), id) + Copies(Retired(idle, now, cfg), id)
  {
    if idle != [] {
      var n := |idle| - 1;
      CopiesPartition(idle[..n], now, cfg, id);
      CopiesPush(Kept(idle[..n], now, cfg), idle[n], id);
      CopiesPush(Retired(idle[..n], now, cfg), idle[n], id);
    }
  }

  /** One task and the idle list exchange connections. */
  ghost predicate Passed(s: State, s': State, i: nat, id: nat) {
    && i < |s.tasks| == |s'.tasks|
    && s'.tasks == s.tasks[i := s'.tasks[i]]
    && s'.book.nextConn == s.book.nextConn
    && Copies(s'.core.idle, id) + s'.book.gone[id] + Holds(s'.tasks[i], id)
       == Copies(s.core.idle, id) + s.book.gone[id] + Holds(s.tasks[i], id)
  }

  lemma HeldUpdate(tasks: seq<Task>, i: nat, t: Task, id: nat)
    requires i < |tasks|
    ensures SumOf(HeldCounts(tasks[i := t], id)) + Holds(tasks[i], id) == SumOf(HeldCounts(tasks, id)) + Holds(t, id)
  {
    assert HeldCounts(tasks[i := t], id) == HeldCounts(tasks, id)[i := Holds(t, id)];
    SumOfUpdate(HeldCounts(tasks, id), i, Holds(t, id));
  }

  lemma PassedWhole(s: State, s': State, i: nat, id: nat)
    requires InOnePlace(s, id) && Passed(s, s', i, id)
    ensures InOnePlace(s', id)
  {
    HeldUpdate(s.tasks, i, s'.tasks[i], id);
  }

  lemma NothingIdlePassed(s: State, i: nat, caller: Caller, id: nat)
    requires i < |s.tasks| && Holds(s.tasks[i], id) == 0
    ensures Passed(s, NothingIdle(s, i, caller), i, id)
  {
  }

  lemma PopTurnPassed(s: State, i: nat, caller: Caller, at: Time, owed: bool, id: nat)
    requires i < |s.tasks| && Holds(s.tasks[i], id) == 0
    ensures Passed(s, PopTurn(s, i, caller, at, owed), i, id)
  {
    if s.core.idle == [] {
      NothingIdlePassed(s, i, caller, id);
    }
  }

  lemma ResumePassed(s: State, i: nat, cont: Cont, id: nat)
    requires i < |s.tasks| && Holds(s.tasks[i], id) == 0
    ensures Passed(s, Resume(s, i, cont), i, id)
  {
    match cont
    case PopOn(caller, at, owed) => PopTurnPassed(s, i, caller, at, owed, id);
    case LoopTop(caller) => PopTurnPassed(s, i, if caller.Try? then caller else Inner(caller.Waited()), s.core.clock, false, id);
    case _ =>
  }

  lemma GoWhole(s: State, i: nat, cont: Cont, id: nat)
    requires InOnePlace(s, id) && i < |s.tasks| && Holds(s.tasks[i], id) == 0
    ensures InOnePlace(Go(s, i, cont), id)
  {
    var s1 := At(s, i, Waking(0, cont));
    PassedWhole(s, s1, i, id);
    ResumePassed(s1, i, cont, id);
    PassedWhole(s1, Resume(s1, i, cont), i, id);
  }

  lemma ReapWhole(s: State, i: nat, id: nat)
    requires InOnePlace(s, id) && i < |s.tasks| && s.tasks[i] == Start(Reap)
    ensures InOnePlace(StartReap(s, i), id)
  {
    CopiesPartition(s.core.idle, s.core.clock, s.core.cfg, id);
    PassedWhole(s, StartReap(s, i), i, id);
  }

  lemma StartWhole(s: State, i: nat, call: Call, id: nat)
    requires InOnePlace(s, id) && i < |s.tasks| && s.tasks[i] == Start(call)
    ensures InOnePlace(StartCall(s, i, call), id)
  {
    if FirstLoop(s.core, call).Some? {
      GoWhole(s, i, FirstLoop(s.core, call).value, id);
    } else if call.Reap? {
      ReapWhole(s, i, id);
    } else {
      PassedWhole(s, StartCall(s, i, call), i, id);
    }
  }

  lemma WakeOldestWhole(s: State, id: nat)
    requires InOnePlace(s, id) && s.core.queue.entries != []
    ensures InOnePlace(WakeOldest(s), id)
  {
    var e := s.core.queue.entries[0];
    if e.task < |s.tasks| && s.tasks[e.task].Parked? {
      PassedWhole(s, WakeOldest(s), e.task, id);
    }
  }

  /** A connection finishes dropping: it moves from the task to the gone. */
  lemma BuryWhole(s: State, core: Core, i: nat, conn: Conn, to: Task, id: nat)
    requires InOnePlace(s, id) && i < |s.tasks| && core.idle == s.core.idle
    requires Holds(s.tasks[i], id) == Holds(to, id) + One(conn, id)
    ensures InOnePlace(At(With(Bury(s, conn), core), i, to), id)
  {
    PassedWhole(s, At(With(Bury(s, conn), core), i, to), i, id);
  }

  lemma WakingWhole(s: State, i: nat, units: nat, cont: Cont, id: nat)
    requires InOnePlace(s, id) && i < |s.tasks| && s.tasks[i] == Waking(units, cont)
    ensures InOnePlace(AdvanceTask(s, i), id)
  {
    if units > 0 && s.core.queue.entries != [] {
      var s1 := At(s, i, Waking(units - 1, cont));
      PassedWhole(s, s1, i, id);
      WakeOldestWhole(s1, id);
    } else {
      GoWhole(s, i, cont, id);
    }
  }

  lemma BatchWhole(s: State, i: nat, id: nat)
    requires InOnePlace(s, id) && i < |s.tasks| && (s.tasks[i].Reaping? || s.tasks[i].Clearing?)
    ensures InOnePlace(AdvanceTask(s, i), id)
  {
    if s.tasks[i].left == [] {
      PassedWhole(s, AdvanceTask(s, i), i, id);
    } else {
      BatchStep(s, i, id);
    }
  }

  lemma BatchStep(s: State, i: nat, id: nat)
    requires InOnePlace(s, id) && i < |s.tasks| && (s.tasks[i].Reaping? || s.tasks[i].Clearing?) && s.tasks[i].left != []
    ensures InOnePlace(AdvanceTask(s, i), id)
  {
    var left := s.tasks[i].left;
    CopiesFirst(left, id);
    BuryWhole(s, s.core, i, left[0], AdvanceTask(s, i).tasks[i], id);
  }

  lemma AdvanceWhole(s: State, i: nat, id: nat)
    requires InOnePlace(s, id) && i < |s.tasks|
    ensures InOnePlace(AdvanceTask(s, i), id)
  {
    var t := s.tasks[i];
    if t.Start? {
      StartWhole(s, i, t.call, id);
    } else if t.Waking? {
      WakingWhole(s, i, t.units, t.cont, id);
    } else if t.Reaping? || t.Clearing? {
      BatchWhole(s, i, id);
    } else if t.Discarding? || t.DroppingHeld? || t.DroppingReturn? {
      BuryWhole(s, AdvanceTask(s, i).core, i, t.conn, AdvanceTask(s, i).tasks[i], id);
    }
  }

  lemma PollWhole(s: State, i: nat, id: nat)
    requires InOnePlace(s, id) && i < |s.tasks|
    ensures InOnePlace(PollTask(s, i), id)
  {
    match s.tasks[i]
    case Parked(waiter, woken) =>
      if !ReadyNow(s.core) || s.core.closed {
        PassedWhole(s, PollTask(s, i), i, id);
      } else {
        var s1 := With(s, SetQueue(s.core, Unregister(s.core.queue, waiter).0));
        GoWhole(s1, i, PopOn(Inner(true), s.core.clock, woken), id);
      }
    case Backoff(waited) => GoWhole(s, i, LoopTop(Inner(waited)), id);
    case _ =>
  }

  /** A successful dial adds the next identity. */
  lemma OpenedWhole(s: State, i: nat, to: Task, id: nat)
    requires InOnePlace(s, id) && i < |s.tasks| && s.tasks[i].Dialling?
    requires Holds(to, id) == if id == s.book.nextConn then 1 else 0
    ensures InOnePlace(At(Opened(s).0, i, to), id)
  {
    HeldUpdate(s.tasks, i, to, id);
  }

  lemma ParkIdleWhole(s: State, i: nat, conn: Conn, cont: Cont, id: nat)
    requires InOnePlace(s, id) && i < |s.tasks| && Holds(s.tasks[i], id) == One(conn, id)
    ensures InOnePlace(ParkIdle(s, i, conn, cont), id)
  {
    CopiesPush(s.core.idle, conn.(lastUsed := s.core.clock), id);
    PassedWhole(s, ParkIdle(s, i, conn, cont), i, id);
  }

  lemma OpenedParkWhole(s: State, i: nat, cont: Cont, id: nat)
    requires InOnePlace(s, id) && i < |s.tasks| && s.tasks[i].Dialling?
    ensures InOnePlace(ParkIdle(Opened(s).0, i, Opened(s).1, cont), id)
  {
    var (s1, conn) := Opened(s);
    var s2 := At(s1, i, AskBroken(conn));
    OpenedWhole(s, i, AskBroken(conn), id);
    ParkIdleWhole(s2, i, conn, cont, id);
    assert ParkIdle(s2, i, conn, cont).tasks == ParkIdle(s1, i, conn, cont).tasks;
  }

  lemma OpenedGrantWhole(s: State, i: nat, waited: bool, id: nat)
    requires InOnePlace(s, id) && i < |s.tasks| && s.tasks[i].Dialling?
    ensures InOnePlace(Grant(Opened(s).0, i, Opened(s).1, waited), id)
  {
    var (s1, conn) := Opened(s);
    OpenedWhole(s, i, Lease(conn), id);
    assert Grant(s1, i, conn, waited).tasks == At(s1, i, Lease(conn)).tasks;
  }

  lemma DialDoneWhole(s: State, i: nat, dialler: Dialler, ok: bool, id: nat)
    requires InOnePlace(s, id) && i < |s.tasks| && s.tasks[i] == Dialling(dialler)
    ensures InOnePlace(DialDone(s, i, dialler, ok), id)
  {
    if !ok {
      PassedWhole(s, DialDone(s, i, dialler, ok), i, id);
    } else if dialler.DialWarm? {
      OpenedParkWhole(s, i, WarmLoop(dialler.made + 1), id);
    } else {
      OpenedGrantWhole(s, i, dialler.DialGet? && dialler.waited, id);
    }
  }

  lemma ResolveWhole(s: State, i: nat, ok: bool, id: nat)
    requires InOnePlace(s, id) && i < |s.tasks|
    ensures InOnePlace(ResolveTask(s, i, ok), id)
  {
    var t := s.tasks[i];
    if t.Validating? {
      PassedWhole(s, ResolveTask(s, i, ok), i, id);
    } else if t.Dialling? {
      DialDoneWhole(s, i, t.dialler, ok, id);
    } else if t.AskBroken? {
      if ok && !Expired(t.conn, s.core.clock, s.core.cfg) {
        ParkIdleWhole(s, i, t.conn, Finish(Returned), id);
      } else {
        PassedWhole(s, ResolveTask(s, i, ok), i, id);
      }
    }
  }

  lemma CancelWhole(s: State, i: nat, timedOut: bool, id: nat)
    requires InOnePlace(s, id) && i < |s.tasks|
    ensures InOnePlace(CancelTask(s, i, timedOut), id)
  {
    var t := s.tasks[i];
    if t.Parked? || t.Validating? || t.Dialling? || t.Backoff? {
      PassedWhole(s, CancelTask(s, i, timedOut), i, id);
    }
  }

  lemma LeaseEndWhole(s: State, i: nat, id: nat)
    requires InOnePlace(s, id) && i < |s.tasks|
    ensures InOnePlace(ReturnLease(s, i), id) && InOnePlace(TakeLease(s, i), id)
  {
    if s.tasks[i].Lease? {
      PassedWhole(s, ReturnLease(s, i), i, id);
      PassedWhole(s, TakeLease(s, i), i, id);
    }
  }

  lemma StepWhole(s: State, e: Event, id: nat)
    requires InOnePlace(s, id)
    ensures InOnePlace(Step(s, e), id)
  {
    match e
    case Spawn(call) =>
      var counts := HeldCounts(s.tasks, id);
      assert HeldCounts(s.tasks + [Start(call)], id) == counts + [0];
      assert (counts + [0])[..|counts|] == counts;
    case Close =>
    case Tick(_) =>
    case Advance(i) => if i < |s.tasks| { AdvanceWhole(s, i, id); }
    case Poll(i) => if i < |s.tasks| { PollWhole(s, i, id); }
    case Resolve(i, ok) => if i < |s.tasks| { ResolveWhole(s, i, ok, id); }
    case Cancel(i, timedOut) => if i < |s.tasks| { CancelWhole(s, i, timedOut, id); }
    case Return(i) => if i < |s.tasks| { LeaseEndWhole(s, i, id); }
    case Take(i) => if i < |s.tasks| { LeaseEndWhole(s, i, id); }
  }
}
