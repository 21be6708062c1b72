/** The books of the pool: slots, gauges, statistics and wakes add up after every step. */
module PoolBalance {
  import opened PoolTypes
  import opened WaitQueue
  import opened PoolCore
  import opened PoolProtocol
  import opened Sums
  import opened PoolTotals
  import opened PoolLinks

  /** Slots are exactly the idle connections plus what the tasks hold, and within the
      cap; the gauges follow; every connection opened is accounted for, and so is every
      lease issued. */
  ghost predicate Accounts(s: State) {
    var c, b, t := s.core, s.book, Total(s.tasks);
    && c.cfg.Valid()
    && c.slots == |c.idle| + t.held.slots <= c.cfg.maxSize
    && c.gauges == Gauges(c.slots, |c.idle| + t.lag.idle, |c.queue.entries|)
    && c.stats.created == |c.idle| + t.lag.unnoted + c.stats.Closed() + b.taken + b.abandoned
    && c.stats.created == b.nextConn
    && c.stats.direct + c.stats.waited == b.leases == b.returned + b.taken + t.held.leases
  }

  function Free(c: Core): int {
    |c.idle| + c.cfg.maxSize - c.slots
  }

  /** While anybody is queued on an open pool, free capacity is covered by wakes that were
      sent or are being sent. */
  ghost predicate NothingStranded(s: State) {
    !s.core.closed && s.core.queue.entries != [] ==>
      Free(s.core) <= Total(s.tasks).wakes.woken + Total(s.tasks).wakes.passing
  }

  ghost predicate Balanced(s: State) {
    Accounts(s) && NothingStranded(s)
  }

  /** The totals after task `i` became `to`. */
  lemma Moves(s: State, i: nat, to: Task)
    requires i < |s.tasks|
    ensures Exchanged(Total(s.tasks[i := to]), Weigh(s.tasks[i]), Total(s.tasks), Weigh(to))
  {
    TotalUpdate(s.tasks, i, to);
  }

  lemma ParkBalanced(s: State, i: nat)
    requires Balanced(s) && i < |s.tasks| && Bare(Weigh(s.tasks[i]))
    requires !ReadyNow(s.core)
    ensures Balanced(Park(s, i))
  {
    Moves(s, i, Park(s, i).tasks[i]);
  }

  lemma DialBalanced(s: State, i: nat, d: Dialler)
    requires Balanced(s) && i < |s.tasks| && Bare(Weigh(s.tasks[i])) && Weigh(s.tasks[i]).wakes.passing <= 1
    requires s.core.slots < s.core.cfg.maxSize
    ensures Balanced(Dial(s, i, d))
  {
    Moves(s, i, Dialling(d));
  }

  /** The newest idle connection moves into task `i`. */
  lemma PopIdleBalanced(s: State, i: nat, to: Task, owed: bool)
    requires Balanced(s) && i < |s.tasks| && s.core.idle != []
    requires Weigh(s.tasks[i]) == Tally(NOTHING, EVEN, Wakes(0, if owed then 1 else 0))
    requires Weigh(to) == Tally(ONE, UNNOTED, Wakes(0, 0)) || Weigh(to) == Tally(ONE, UNNOTED, Weigh(s.tasks[i]).wakes)
    ensures Balanced(At(With(s, PopIdle(s.core)), i, to))
  {
    Moves(s, i, to);
  }

  lemma GrantBalanced(s: State, i: nat, conn: Conn, waited: bool)
    requires Balanced(s) && i < |s.tasks| && s.tasks[i].Validating?
    ensures Balanced(Grant(s, i, conn, waited))
  {
    Moves(s, i, Lease(conn));
  }

  lemma NothingIdleBalanced(s: State, i: nat, caller: Caller, owed: bool)
    requires Balanced(s) && i < |s.tasks| && s.core.idle == []
    requires Weigh(s.tasks[i]) == Tally(NOTHING, EVEN, Wakes(0, if owed then 1 else 0))
    ensures Balanced(NothingIdle(s, i, caller))
  {
    var c := s.core;
    if (caller.Fast? && c.closed) || (c.slots >= c.cfg.maxSize && (caller.Try? || c.closed)) {
      Moves(s, i, NothingIdle(s, i, caller).tasks[i]);
    } else if c.slots < c.cfg.maxSize {
      DialBalanced(s, i, NothingIdle(s, i, caller).tasks[i].dialler);
    } else {
      ParkBalanced(s, i);
    }
  }

  lemma PopTurnBalanced(s: State, i: nat, caller: Caller, at: Time, owed: bool)
    requires Balanced(s) && i < |s.tasks|
    requires Weigh(s.tasks[i]) == Tally(NOTHING, EVEN, Wakes(0, if owed then 1 else 0))
    ensures Balanced(PopTurn(s, i, caller, at, owed))
  {
    var c := s.core;
    if c.idle == [] {
      NothingIdleBalanced(s, i, caller, owed);
    } else {
      var conn := c.idle[|c.idle| - 1];
      var s1 := With(s, PopIdle(c));
      if ExpiryOf(conn, at, c.cfg).Some? {
        PopIdleBalanced(s, i, Discarding(caller, at, owed, conn, ExpiryOf(conn, at, c.cfg).value), owed);
      } else {
        PopIdleBalanced(s, i, Validating(caller, conn), owed);
        PopGrantBalanced(s1, i, Validating(caller, conn), conn, caller.Waited());
      }
    }
  }

  /** Handing out a connection that would pass for one being validated. */
  lemma PopGrantBalanced(s: State, i: nat, t: Task, conn: Conn, waited: bool)
    requires i < |s.tasks| && t.Validating? && Balanced(At(s, i, t))
    ensures Balanced(Grant(s, i, conn, waited))
  {
    GrantBalanced(At(s, i, t), i, conn, waited);
    assert Grant(At(s, i, t), i, conn, waited).tasks == Grant(s, i, conn, waited).tasks;
  }

  lemma GetTopBalanced(s: State, i: nat, waited: bool)
    requires Balanced(s) && i < |s.tasks| && Weigh(s.tasks[i]) == ZERO
    ensures Balanced(GetTop(s, i, waited))
  {
    if s.core.closed {
      Moves(s, i, Done(Ended(ClosedErr)));
    } else if !ReadyNow(s.core) {
      ParkBalanced(s, i);
    } else {
      PopTurnBalanced(s, i, Inner(waited), s.core.clock, false);
    }
  }

  lemma WarmTopBalanced(s: State, i: nat, made: nat)
    requires Balanced(s) && i < |s.tasks| && Weigh(s.tasks[i]) == ZERO
    ensures Balanced(WarmTop(s, i, made))
  {
    if |s.core.idle| < s.core.cfg.minIdle && s.core.slots < s.core.cfg.maxSize {
      DialBalanced(s, i, DialWarm(made));
    } else {
      Moves(s, i, Done(Warmed(made)));
    }
  }

  /** A task that holds nothing becomes another one that holds nothing. */
  lemma IdleMoveBalanced(s: State, i: nat, to: Task)
    requires Balanced(s) && i < |s.tasks| && Weigh(s.tasks[i]) == ZERO == Weigh(to)
    ensures Balanced(At(s, i, to))
  {
    Moves(s, i, to);
  }

  lemma ResumeBalanced(s: State, i: nat, cont: Cont)
    requires Balanced(s) && i < |s.tasks| && Weigh(s.tasks[i]) == Tally(NOTHING, EVEN, Wakes(0, Owed(cont)))
    ensures Balanced(Resume(s, i, cont))
  {
    match cont
    case PopOn(caller, at, owed) => PopTurnBalanced(s, i, caller, at, owed);
    case LoopTop(caller) =>
      if caller.Try? {
        PopTurnBalanced(s, i, caller, s.core.clock, false);
      } else {
        GetTopBalanced(s, i, caller.Waited());
      }
    case WarmLoop(made) => WarmTopBalanced(s, i, made);
    case Sleep(waited) => IdleMoveBalanced(s, i, Backoff(waited));
    case Finish(end) => IdleMoveBalanced(s, i, Done(Ended(end)));
  }

  lemma GoBalanced(s: State, i: nat, cont: Cont)
    requires Balanced(s) && i < |s.tasks| && Weigh(s.tasks[i]) == Tally(NOTHING, EVEN, Wakes(0, Owed(cont)))
    ensures Balanced(Go(s, i, cont))
  {
    var s1 := At(s, i, Waking(0, cont));
    Moves(s, i, Waking(0, cont));
    ResumeBalanced(s1, i, cont);
  }

  // ---- The steps keep the books balanced ----

  /** A task that only holds `n` slots gives them back. */
  lemma ReleaseBalanced(s: State, i: nat, n: nat, cont: Cont)
    requires Balanced(s) && i < |s.tasks|
    requires Weigh(s.tasks[i]) == Tally(Held(n, Weigh(s.tasks[i]).held.conns, 0), EVEN, Wakes(0, Owed(cont)))
    ensures Balanced(ReleaseAndNotify(s, i, n, cont))
  {
    var c := ReleaseSlots(s.core, n);
    Moves(s, i, Waking(NotifyUnits(c, n), cont));
  }

  /** A task's connection is counted as closed; it still holds the slot. */
  lemma NoteBalanced(s: State, i: nat, why: Why, to: Task)
    requires Balanced(s) && i < |s.tasks|
    requires Weigh(s.tasks[i]).held.leases == 0 && Weigh(s.tasks[i]).lag.unnoted == 1
    requires Weigh(to) == Weigh(s.tasks[i]).(lag := Weigh(s.tasks[i]).lag.(unnoted := 0))
    ensures Balanced(At(Note(s, why), i, to))
  {
    Moves(s, i, to);
  }

  lemma DropBalanced(s: State, i: nat, conn: Conn, why: Why, cont: Cont)
    requires Balanced(s) && i < |s.tasks|
    requires Weigh(s.tasks[i]) == Tally(ONE, UNNOTED, Wakes(0, Owed(cont)))
    ensures Balanced(ReleaseAndNotify(Note(Bury(s, conn), why), i, 1, cont))
  {
    var s1 := Bury(s, conn);
    NoteBalanced(s1, i, why, DroppingHeld(conn, cont));
    var s2 := At(Note(s1, why), i, DroppingHeld(conn, cont));
    ReleaseBalanced(s2, i, 1, cont);
    assert ReleaseAndNotify(s2, i, 1, cont).tasks == ReleaseAndNotify(Note(s1, why), i, 1, cont).tasks;
  }

  /** Waking the oldest waiter moves one wake from the waker's task to the waiter. */
  lemma WakeOldestBalanced(s: State, i: nat, units: nat, cont: Cont)
    requires Balanced(s) && i < |s.tasks| && s.tasks[i] == Waking(units, cont) && units > 0
    requires s.core.queue.entries != []
    requires var e := s.core.queue.entries[0]; e.task < |s.tasks| && s.tasks[e.task] == Parked(e.id, false)
    ensures Balanced(WakeOldest(At(s, i, Waking(units - 1, cont))))
  {
    var e := s.core.queue.entries[0];
    var s1 := At(s, i, Waking(units - 1, cont));
    Moves(s, i, Waking(units - 1, cont));
    Moves(s1, e.task, Parked(e.id, true));
  }

  /** The loop ends: units are left over only if nobody is queued. */
  lemma LoopEndBalanced(s: State, i: nat, units: nat, cont: Cont)
    requires Balanced(s) && i < |s.tasks| && s.tasks[i] == Waking(units, cont)
    requires units > 0 ==> s.core.queue.entries == []
    ensures Balanced(Go(s, i, cont))
  {
    UnitsSpentBalanced(s, i, units, cont);
    GoBalanced(At(s, i, Waking(0, cont)), i, cont);
    GoAgain(s, i, cont);
  }

  lemma UnitsSpentBalanced(s: State, i: nat, units: nat, cont: Cont)
    requires Balanced(s) && i < |s.tasks| && s.tasks[i] == Waking(units, cont)
    requires units > 0 ==> s.core.queue.entries == []
    ensures Balanced(At(s, i, Waking(0, cont)))
  {
    Moves(s, i, Waking(0, cont));
  }

  /** Where the task stood before does not matter. */
  lemma GoAgain(s: State, i: nat, cont: Cont)
    requires i < |s.tasks|
    ensures Go(At(s, i, Waking(0, cont)), i, cont) == Go(s, i, cont)
  {
    assert At(At(s, i, Waking(0, cont)), i, Waking(0, cont)) == At(s, i, Waking(0, cont));
  }

  lemma StartReapBalanced(s: State, i: nat)
    requires Balanced(s) && i < |s.tasks| && s.tasks[i] == Start(Reap)
    ensures Balanced(StartReap(s, i))
  {
    Moves(s, i, StartReap(s, i).tasks[i]);
  }

  lemma StartBalanced(s: State, i: nat, call: Call)
    requires Balanced(s) && i < |s.tasks| && s.tasks[i] == Start(call)
    ensures Balanced(StartCall(s, i, call))
  {
    match FirstLoop(s.core, call)
    case Some(cont) => GoBalanced(s, i, cont);
    case None =>
      match call
      case Reap => StartReapBalanced(s, i);
      case Clear => Moves(s, i, Clearing(s.core.idle, |s.core.idle|));
      case Warm => IdleMoveBalanced(s, i, Done(Warmed(0)));
      case _ => IdleMoveBalanced(s, i, Done(Ended(ClosedErr)));
  }

  lemma FinishReapBalanced(s: State, i: nat, n: nat)
    requires Balanced(s) && i < |s.tasks| && s.tasks[i] == Reaping([], n)
    ensures Balanced(FinishReap(s, i, n))
  {
    if n == 0 {
      IdleMoveBalanced(s, i, Done(Ended(Count(0))));
    } else {
      Moves(s, i, FinishReap(s, i, n).tasks[i]);
    }
  }

  lemma FinishClearBalanced(s: State, i: nat, n: nat)
    requires Balanced(s) && i < |s.tasks| && s.tasks[i] == Clearing([], n)
    ensures Balanced(FinishClear(s, i, n))
  {
    Moves(s, i, FinishClear(s, i, n).tasks[i]);
  }

  /** Two tasks that differ only in the connections still to be dropped. */
  lemma BuryBalanced(s: State, i: nat, conn: Conn, to: Task)
    requires Balanced(s) && i < |s.tasks|
    requires Weigh(to) == Weigh(s.tasks[i]).(held := Weigh(s.tasks[i]).held.(conns := Weigh(to).held.conns))
    ensures Balanced(At(Bury(s, conn), i, to))
  {
    Moves(s, i, to);
  }

  lemma AdvanceBalanced(s: State, i: nat)
    requires Balanced(s) && i < |s.tasks|
    requires s.core.queue.entries != [] ==>
               var e := s.core.queue.entries[0]; e.task < |s.tasks| && s.tasks[e.task] == Parked(e.id, false)
    ensures Balanced(AdvanceTask(s, i))
  {
    match s.tasks[i]
    case Start(call) => StartBalanced(s, i, call);
    case Waking(units, cont) =>
      if units > 0 && s.core.queue.entries != [] {
        WakeOldestBalanced(s, i, units, cont);
      } else {
        LoopEndBalanced(s, i, units, cont);
      }
    case Discarding(caller, at, owed, conn, reason) => DropBalanced(s, i, conn, Aged(reason), PopOn(caller, at, owed));
    case DroppingHeld(conn, cont) => ReleaseBalanced(Bury(s, conn), i, 1, cont);
    case DroppingReturn(conn, why) => DropBalanced(s, i, conn, why, Finish(Returned));
    case Reaping(left, n) =>
      if left == [] {
        FinishReapBalanced(s, i, n);
      } else {
        BuryBalanced(s, i, left[0], Reaping(left[1..], n));
      }
    case Clearing(left, n) =>
      if left == [] {
        FinishClearBalanced(s, i, n);
      } else {
        BuryBalanced(s, i, left[0], Clearing(left[1..], n));
      }
    case _ =>
  }

  /** A woken waiter on an open pool leaves the queue and goes on. */
  lemma ReadyBalanced(s: State, i: nat)
    requires Balanced(s) && i < |s.tasks| && s.tasks[i].Parked? && ReadyNow(s.core) && !s.core.closed
    ensures Balanced(PollTask(s, i))
  {
    var t := s.tasks[i];
    var cont := PopOn(Inner(true), s.core.clock, t.woken);
    var s1 := With(s, SetQueue(s.core, Unregister(s.core.queue, t.id).0));
    Moves(s, i, Waking(0, cont));
    ResumeBalanced(At(s1, i, Waking(0, cont)), i, cont);
  }

  lemma NotReadyBalanced(s: State, i: nat)
    requires Balanced(s) && i < |s.tasks| && s.tasks[i].Parked? && !ReadyNow(s.core)
    ensures Balanced(PollTask(s, i))
  {
    Moves(s, i, PollTask(s, i).tasks[i]);
  }

  lemma ClosedPollBalanced(s: State, i: nat)
    requires Balanced(s) && i < |s.tasks| && s.tasks[i].Parked? && ReadyNow(s.core) && s.core.closed
    ensures Balanced(PollTask(s, i))
  {
    Moves(s, i, PollTask(s, i).tasks[i]);
  }

  lemma PollBalanced(s: State, i: nat)
    requires Balanced(s) && i < |s.tasks|
    ensures Balanced(PollTask(s, i))
  {
    match s.tasks[i]
    case Parked(_, _) =>
      if !ReadyNow(s.core) {
        NotReadyBalanced(s, i);
      } else if s.core.closed {
        ClosedPollBalanced(s, i);
      } else {
        ReadyBalanced(s, i);
      }
    case Backoff(waited) => GoBalanced(s, i, LoopTop(Inner(waited)));
    case _ =>
  }

  lemma ParkIdleBalanced(s: State, i: nat, conn: Conn, cont: Cont)
    requires Balanced(s) && i < |s.tasks| && s.tasks[i].AskBroken? && Owed(cont) == 0
    ensures Balanced(ParkIdle(s, i, conn, cont))
  {
    Moves(s, i, ParkIdle(s, i, conn, cont).tasks[i]);
  }

  /** A dial succeeds: the reserved slot gets the new connection. */
  lemma OpenedBalanced(s: State, i: nat, to: Task)
    requires Balanced(s) && i < |s.tasks| && s.tasks[i].Dialling?
    requires Weigh(to) == Tally(ONE, UNNOTED, Wakes(0, 0))
    ensures Balanced(At(Opened(s).0, i, to))
  {
    Moves(s, i, to);
  }

  /** A fresh connection is handed out at once. */
  lemma OpenedGrantBalanced(s: State, i: nat, waited: bool)
    requires Balanced(s) && i < |s.tasks| && s.tasks[i].Dialling?
    ensures Balanced(Grant(Opened(s).0, i, Opened(s).1, waited))
  {
    var (s1, conn) := Opened(s);
    var t := Validating(Inner(waited), conn);
    OpenedBalanced(s, i, t);
    GrantBalanced(At(s1, i, t), i, conn, waited);
    assert Grant(At(s1, i, t), i, conn, waited).tasks == Grant(s1, i, conn, waited).tasks;
  }

  /** A fresh connection is parked. */
  lemma OpenedParkBalanced(s: State, i: nat, cont: Cont)
    requires Balanced(s) && i < |s.tasks| && s.tasks[i].Dialling? && Owed(cont) == 0
    ensures Balanced(ParkIdle(Opened(s).0, i, Opened(s).1, cont))
  {
    var (s1, conn) := Opened(s);
    OpenedBalanced(s, i, AskBroken(conn));
    ParkIdleBalanced(At(s1, i, AskBroken(conn)), i, conn, cont);
    assert ParkIdle(At(s1, i, AskBroken(conn)), i, conn, cont).tasks == ParkIdle(s1, i, conn, cont).tasks;
  }

  lemma DialDoneBalanced(s: State, i: nat, d: Dialler, ok: bool)
    requires Balanced(s) && i < |s.tasks| && s.tasks[i] == Dialling(d)
    ensures Balanced(DialDone(s, i, d, ok))
  {
    if !ok {
      ReleaseBalanced(s, i, 1, if d.DialGet? && s.core.cfg.retryConnection && !s.core.closed
                               then Sleep(d.waited) else Finish(Failed));
    } else {
      match d
      case DialGet(waited) => OpenedGrantBalanced(s, i, waited);
      case DialTry => OpenedGrantBalanced(s, i, false);
      case DialWarm(made) => OpenedParkBalanced(s, i, WarmLoop(made + 1));
    }
  }

  lemma ResolveBalanced(s: State, i: nat, ok: bool)
    requires Balanced(s) && i < |s.tasks|
    ensures Balanced(ResolveTask(s, i, ok))
  {
    match s.tasks[i]
    case Validating(caller, conn) =>
      if ok {
        GrantBalanced(s, i, conn, caller.Waited());
      } else {
        NoteBalanced(s, i, Broken, DroppingHeld(conn, LoopTop(caller)));
      }
    case Dialling(d) => DialDoneBalanced(s, i, d, ok);
    case AskBroken(conn) =>
      if ok && !Expired(conn, s.core.clock, s.core.cfg) {
        ParkIdleBalanced(s, i, conn, Finish(Returned));
      } else {
        Moves(s, i, ResolveTask(s, i, ok).tasks[i]);
      }
    case _ =>
  }

  /** A woken waiter that is dropped passes its wake on; a queued one just leaves. */
  lemma WithdrawBalanced(s: State, i: nat)
    requires Balanced(s) && i < |s.tasks| && s.tasks[i].Parked?
    requires s.tasks[i].woken ==> s.tasks[i].id <= s.core.queue.wokenUpto
    ensures Balanced(Abandon(s, i))
  {
    Moves(s, i, Abandon(s, i).tasks[i]);
  }

  lemma AbandonBalanced(s: State, i: nat)
    requires Balanced(s) && i < |s.tasks|
    requires s.tasks[i].Parked? && s.tasks[i].woken ==> s.tasks[i].id <= s.core.queue.wokenUpto
    ensures Balanced(Abandon(s, i))
  {
    match s.tasks[i]
    case Parked(id, woken) => WithdrawBalanced(s, i);
    case Validating(_, conn) => Moves(s, i, DroppingHeld(conn, Finish(Cancelled)));
    case Dialling(_) => ReleaseBalanced(s, i, 1, Finish(Cancelled));
    case Backoff(_) => IdleMoveBalanced(s, i, Done(Ended(Cancelled)));
    case _ =>
  }

  lemma CancelBalanced(s: State, i: nat, timedOut: bool)
    requires Balanced(s) && i < |s.tasks|
    requires s.tasks[i].Parked? && s.tasks[i].woken ==> s.tasks[i].id <= s.core.queue.wokenUpto
    ensures Balanced(CancelTask(s, i, timedOut))
  {
    AbandonBalanced(if timedOut && InGet(s.tasks[i]) then NoteTimeout(s) else s, i);
  }

  lemma ReturnBalanced(s: State, i: nat)
    requires Balanced(s) && i < |s.tasks|
    ensures Balanced(ReturnLease(s, i))
  {
    if s.tasks[i].Lease? {
      Moves(s, i, ReturnLease(s, i).tasks[i]);
    }
  }

  lemma TakeBalanced(s: State, i: nat)
    requires Balanced(s) && i < |s.tasks|
    ensures Balanced(TakeLease(s, i))
  {
    if s.tasks[i].Lease? {
      Moves(s, i, TakeLease(s, i).tasks[i]);
    }
  }

  lemma SameTotals(s: State, s': State)
    requires Balanced(s) && s'.core == s.core && s'.book == s.book
    requires Exchanged(Total(s'.tasks), ZERO, Total(s.tasks), ZERO)
    ensures Balanced(s')
  {
  }

  lemma SpawnBalanced(s: State, call: Call)
    requires Balanced(s)
    ensures Balanced(s.(tasks := s.tasks + [Start(call)]))
  {
    TotalAppend(s.tasks, Start(call));
    SameTotals(s, s.(tasks := s.tasks + [Start(call)]));
  }

  /** The oldest waiter's task and a woken waiter's id, as the steps need them. */
  lemma LinksOf(s: State, i: nat)
    requires Linked(s)
    ensures s.core.queue.entries != [] ==>
              var e := s.core.queue.entries[0]; e.task < |s.tasks| && s.tasks[e.task] == Parked(e.id, false)
    ensures i < |s.tasks| && s.tasks[i].Parked? && s.tasks[i].woken ==> s.tasks[i].id <= s.core.queue.wokenUpto
  {
    if s.core.queue.entries != [] {
      assert s.core.queue.entries[0] in s.core.queue.entries;
    }
    if i < |s.tasks| && s.tasks[i].Parked? {
      assert LinkedTask(s, i);
    }
  }

  lemma StepBalanced(s: State, e: Event)
    requires Balanced(s) && Linked(s)
    ensures Balanced(Step(s, e))
  {
    match e
    case Spawn(call) => SpawnBalanced(s, call);
    case Close =>
    case Tick(_) =>
    case Advance(i) => LinksOf(s, i); if i < |s.tasks| { AdvanceBalanced(s, i); }
    case Poll(i) => if i < |s.tasks| { PollBalanced(s, i); }
    case Resolve(i, ok) => if i < |s.tasks| { ResolveBalanced(s, i, ok); }
    case Cancel(i, timedOut) => LinksOf(s, i); if i < |s.tasks| { CancelBalanced(s, i, timedOut); }
    case Return(i) => if i < |s.tasks| { ReturnBalanced(s, i); }
    case Take(i) => if i < |s.tasks| { TakeBalanced(s, i); }
  }
}
