/** Checkouts are counted as waited exactly for the calls that parked. */
module PoolWaits {
  import opened PoolTypes
  import opened WaitQueue
  import opened PoolCore
  import opened PoolProtocol
  import opened PoolAlone

  /** What a `get` or `try_get` remembers: whether it has parked. */
  function Flag(t: Task): Option<bool> {
    match t
    case Start(call) => if call.Get? || call.TryGet? then Some(false) else None
    case Parked(_, _) => Some(true)
    case Discarding(caller, _, _, _, _) => Some(caller.Waited())
    case Waking(_, cont) => ContFlag(cont)
    case Validating(caller, _) => Some(caller.Waited())
    case DroppingHeld(_, cont) => ContFlag(cont)
    case Dialling(dialler) =>
      (match dialler
       case DialGet(waited) => Some(waited)
       case DialTry => Some(false)
       case DialWarm(_) => None)
    case Backoff(waited) => Some(waited)
    case _ => None
  }

  function ContFlag(cont: Cont): Option<bool> {
    match cont
    case PopOn(caller, _, _) => Some(caller.Waited())
    case LoopTop(caller) => Some(caller.Waited())
    case Sleep(waited) => Some(waited)
    case _ => None
  }

  /** A call goes on as what it was, or parks. */
  predicate Remembers(flag: Option<bool>, t: Task) {
    Flag(t).Some? ==> flag.Some? && (t.Parked? || Flag(t) == flag)
  }

  /** One checkout more, counted by the flag, or none and nothing counted. */
  predicate Counted(s: State, s': State, flag: Option<bool>) {
    var st, st' := s.core.stats, s'.core.stats;
    if s'.book.leases == s.book.leases then st'.waited == st.waited && st'.direct == st.direct
    else
      && flag.Some? && s'.book.leases == s.book.leases + 1
      && st'.waited == st.waited + (if flag.value then 1 else 0)
      && st'.direct == st.direct + (if flag.value then 0 else 1)
  }

  /** Both, for task `i`. */
  predicate Honours(s: State, s': State, i: nat, flag: Option<bool>) {
    i < |s'.tasks| && Remembers(flag, s'.tasks[i]) && Counted(s, s', flag)
  }

  lemma PopTurnHonours(s: State, i: nat, caller: Caller, at: Time, owed: bool)
    requires i < |s.tasks|
    ensures Honours(s, PopTurn(s, i, caller, at, owed), i, Some(caller.Waited()))
  {
  }

  lemma GoHonours(s: State, i: nat, cont: Cont)
    requires i < |s.tasks|
    ensures Honours(s, Go(s, i, cont), i, ContFlag(cont))
  {
    var s1 := At(s, i, Waking(0, cont));
    match cont
    case PopOn(caller, at, owed) => PopTurnHonours(s1, i, caller, at, owed);
    case LoopTop(caller) =>
      PopTurnHonours(s1, i, if caller.Try? then caller else Inner(caller.Waited()), s.core.clock, false);
    case _ =>
  }

  lemma WakeHonours(s: State, i: nat, units: nat, cont: Cont)
    requires i < |s.tasks| && s.core.queue.entries != []
    ensures Honours(s, WakeOldest(At(s, i, Waking(units, cont))), i, ContFlag(cont))
  {
  }

  /** Dropping a connection, or a batch of them. */
  lemma DropHonours(s: State, i: nat)
    requires i < |s.tasks| && !s.tasks[i].Waking? && !s.tasks[i].Start?
    ensures Honours(s, AdvanceTask(s, i), i, Flag(s.tasks[i]))
  {
  }

  lemma AdvanceHonours(s: State, i: nat)
    requires i < |s.tasks|
    ensures Honours(s, AdvanceTask(s, i), i, Flag(s.tasks[i]))
  {
    var t, c := s.tasks[i], s.core;
    if t.Waking? {
      if t.units > 0 && c.queue.entries != [] {
        WakeHonours(s, i, t.units - 1, t.cont);
      } else {
        GoHonours(s, i, t.cont);
      }
    } else if t.Start? {
      if FirstLoop(c, t.call).Some? {
        GoHonours(s, i, FirstLoop(c, t.call).value);
      }
    } else {
      DropHonours(s, i);
    }
  }

  lemma PollHonours(s: State, i: nat)
    requires i < |s.tasks|
    ensures Honours(s, PollTask(s, i), i, Flag(s.tasks[i]))
  {
    var t, c := s.tasks[i], s.core;
    if t.Parked? && ReadyNow(c) && !c.closed {
      var s1 := With(s, SetQueue(c, Unregister(c.queue, t.id).0));
      GoHonours(s1, i, PopOn(Inner(true), c.clock, t.woken));
    } else if t.Backoff? {
      GoHonours(s, i, LoopTop(Inner(t.waited)));
    }
  }

  lemma ResolveHonours(s: State, i: nat, ok: bool)
    requires i < |s.tasks|
    ensures Honours(s, ResolveTask(s, i, ok), i, Flag(s.tasks[i]))
  {
  }

  lemma EndHonours(s: State, i: nat, timedOut: bool)
    requires i < |s.tasks|
    ensures Honours(s, CancelTask(s, i, timedOut), i, Flag(s.tasks[i]))
    ensures Honours(s, ReturnLease(s, i), i, Flag(s.tasks[i])) && Honours(s, TakeLease(s, i), i, Flag(s.tasks[i]))
  {
  }

  lemma StepHonours(s: State, e: Event, i: nat)
    requires i < |s.tasks| && Names(e, i)
    ensures Honours(s, Step(s, e), i, Flag(s.tasks[i]))
  {
    match e
    case Advance(_) => AdvanceHonours(s, i);
    case Poll(_) => PollHonours(s, i);
    case Resolve(_, ok) => ResolveHonours(s, i, ok);
    case Cancel(_, timedOut) => EndHonours(s, i, timedOut);
    case Return(_) => EndHonours(s, i, false);
    case Take(_) => EndHonours(s, i, false);
  }

  // ---- Over whole runs ----

  ghost predicate ParkedIn(s: State, i: nat) {
    i < |s.tasks| && s.tasks[i].Parked?
  }

  /** Task `i` was parked in some state of the run. */
  ghost predicate EverParked(s: State, events: seq<Event>, i: nat)
    decreases |events|
  {
    ParkedIn(Run(s, events), i) || (events != [] && EverParked(s, events[..|events| - 1], i))
  }

  /** A task that is still in its call remembers the truth. */
  ghost predicate Truthful(cfg: Config, events: seq<Event>, i: nat) {
    var s := Run(Init(cfg), events);
    if i < |s.tasks| then Flag(s.tasks[i]).Some? ==> Flag(s.tasks[i]).value == EverParked(Init(cfg), events, i)
    else !EverParked(Init(cfg), events, i)
  }

  lemma {:induction false} RunTruthful(cfg: Config, events: seq<Event>, i: nat)
    ensures Truthful(cfg, events, i)
  {
    if events != [] {
      var before, e := events[..|events| - 1], events[|events| - 1];
      var s := Run(Init(cfg), before);
      RunTruthful(cfg, before, i);
      if i < |s.tasks| {
        StepRemembers(s, e, i);
      } else {
        StepStarts(s, e, i);
      }
    }
  }

  /** Whoever the event names, task `i` remembers. */
  lemma StepRemembers(s: State, e: Event, i: nat)
    requires i < |s.tasks|
    ensures i < |Step(s, e).tasks| && Remembers(Flag(s.tasks[i]), Step(s, e).tasks[i])
  {
    if Names(e, i) {
      StepHonours(s, e, i);
    } else {
      OthersGoOn(s, e, i);
    }
  }

  /** Every checkout is counted, once, as waited if its call was ever parked and as direct if it
      was not; no other step moves either counter. */
  lemma WaitedExactlyIfParked(cfg: Config, events: seq<Event>, e: Event)
    ensures var s := Run(Init(cfg), events);
            var st, st' := s.core.stats, Step(s, e).core.stats;
            if Step(s, e).book.leases == s.book.leases then st'.waited == st.waited && st'.direct == st.direct
            else
              && (e.Advance? || e.Poll? || e.Resolve?) && Step(s, e).book.leases == s.book.leases + 1
              && (EverParked(Init(cfg), events, e.i) ==> st'.waited == st.waited + 1 && st'.direct == st.direct)
              && (!EverParked(Init(cfg), events, e.i) ==> st'.waited == st.waited && st'.direct == st.direct + 1)
  {
    var s := Run(Init(cfg), events);
    if e.Advance? || e.Poll? || e.Resolve? || e.Cancel? || e.Return? || e.Take? {
      if e.i < |s.tasks| {
        StepHonours(s, e, e.i);
        RunTruthful(cfg, events, e.i);
      }
    }
  }
}
