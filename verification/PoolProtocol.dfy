/** One thread's pool together with every call in progress on it.

    Each task is one call: a `get`, `try_get`, `warm`, `reap` or `clear`, or the lease
    that a `get` turned into. A task stands either at an await, where it may be
    cancelled, or at a call-out: a connection's `Drop`, `Waker::wake`, `has_broken`.
    Any other task may move while it stands there. Re-entrant calls made from inside a
    call-out are the special case in which the other task runs to its own end first.
    The code between two such points is one step, split further in places: a step may
    end at the head of a wake loop or before a call's first statement.

    The manager's answers, the clock and the order of the steps are the events of a
    run. A step reads `closed` as of its beginning. */
module PoolProtocol {
  import opened PoolTypes
  import opened WaitQueue
  import opened PoolCore

  datatype Call = Get | TryGet | Warm | Reap | Clear

  /** Who is running `pop_fresh_idle`: the fast path of `get`, its slow path, or `try_get`. */
  datatype Caller = Fast | Inner(waited: bool) | Try
  {
    predicate Waited() { Inner? && waited }
  }

  datatype Dialler = DialGet(waited: bool) | DialTry | DialWarm(made: nat)

  datatype Why = Broken | Aged(reason: Expiry) | Manual

  datatype End = ClosedErr | Failed | Count(n: nat) | Returned | TakenOut | Cancelled

  /** How a task is over: `try_get` found nothing, `warm` made so many, or any other end. */
  datatype Outcome = NoneFree | Warmed(made: nat) | Ended(end: End)

  /** What a task does once its wake loop ends. `owed` marks a task that was itself woken
      and has not yet taken the capacity it was woken for. */
  datatype Cont =
    | PopOn(caller: Caller, at: Time, owed: bool)
    | LoopTop(caller: Caller)
    | WarmLoop(made: nat)
    | Sleep(waited: bool)
    | Finish(end: End)

  datatype Task =
    | Start(call: Call)
    | Parked(id: nat, woken: bool)
    | Discarding(caller: Caller, at: Time, owed: bool, conn: Conn, reason: Expiry)
    | Waking(units: nat, cont: Cont)
    | Validating(caller: Caller, conn: Conn)
    | DroppingHeld(conn: Conn, cont: Cont)
    | Dialling(dialler: Dialler)
    | Backoff(waited: bool)
    | Lease(conn: Conn)
    | AskBroken(conn: Conn)
    | DroppingReturn(conn: Conn, why: Why)
    | Reaping(left: seq<Conn>, total: nat)
    | Clearing(left: seq<Conn>, total: nat)
    | Done(outcome: Outcome)

  /** History that no step reads: connections opened, connections no longer the pool's,
      leases issued, returned and taken, connections dropped by a cancelled validation. */
  datatype Book = Book(nextConn: nat, gone: multiset<nat>, leases: nat, returned: nat, taken: nat, abandoned: nat)

  datatype State = State(core: Core, book: Book, tasks: seq<Task>)

  datatype Event =
    | Spawn(call: Call)
    | Close
    | Tick(elapsed: nat)
    | Advance(i: nat)             // a task in the middle of its code goes on
    | Poll(i: nat)                // a parked or backing-off task is polled
    | Resolve(i: nat, ok: bool)   // the manager answers task i
    | Cancel(i: nat, timedOut: bool)
    | Return(i: nat)
    | Take(i: nat)

  function Init(cfg: Config): State {
    State(NewCore(cfg), Book(0, multiset{}, 0, 0, 0, 0), [])
  }

  function At(s: State, i: nat, t: Task): State
    requires i < |s.tasks|
  {
    s.(tasks := s.tasks[i := t])
  }

  function With(s: State, core: Core): State {
    s.(core := core)
  }

  // ---- The pieces of `get_inner`, `try_get` and `warm` ----

  /** Hand out a lease and count it. */
  function Grant(s: State, i: nat, conn: Conn, waited: bool): State
    requires i < |s.tasks|
  {
    At(s, i, Lease(conn)).(
    core := RecordAcquire(s.core, waited),
    book := s.book.(leases := s.book.leases + 1))
  }

  /** `wait_ready` finds nothing: queue up under a fresh id. */
  function Park(s: State, i: nat): State
    requires i < |s.tasks|
  {
    var (q, id) := Register(s.core.queue, None, i);
    At(With(s, SetQueue(s.core, q)), i, Parked(id, false))
  }

  function Dial(s: State, i: nat, dialler: Dialler): State
    requires i < |s.tasks|
  {
    At(With(s, TakeSlot(s.core)), i, Dialling(dialler))
  }

  /** The idle list is empty: reserve a slot if there is room. The slow path of `get`
      otherwise goes round its loop, where the pool is closed or again not ready. */
  function NothingIdle(s: State, i: nat, caller: Caller): State
    requires i < |s.tasks|
  {
    var c := s.core;
    if caller.Fast? && c.closed then At(s, i, Done(Ended(ClosedErr)))
    else if c.slots < c.cfg.maxSize then
      Dial(s, i, match caller
                 case Try => DialTry
                 case Fast => DialGet(false)
                 case Inner(waited) => DialGet(waited))
    else if caller.Try? then At(s, i, Done(NoneFree))
    else if c.closed then At(s, i, Done(Ended(ClosedErr)))
    else Park(s, i)
  }

  /** One turn of `pop_fresh_idle`, and what its caller does with the result. */
  function PopTurn(s: State, i: nat, caller: Caller, at: Time, owed: bool): State
    requires i < |s.tasks|
  {
    var c := s.core;
    if c.idle == [] then NothingIdle(s, i, caller)
    else
      var conn := c.idle[|c.idle| - 1];
      var s1 := With(s, PopIdle(c));
      match ExpiryOf(conn, at, c.cfg)
      case Some(reason) => At(s1, i, Discarding(caller, at, owed, conn, reason))
      case None =>
        if c.cfg.testOnCheckOut && !caller.Fast? then At(s1, i, Validating(caller, conn))
        else Grant(s1, i, conn, caller.Waited())
  }

  /** The head of the loop in `get_inner`: a new `wait_ready`, polled at once. */
  function GetTop(s: State, i: nat, waited: bool): State
    requires i < |s.tasks|
  {
    var c := s.core;
    if c.closed then At(s, i, Done(Ended(ClosedErr)))
    else if !ReadyNow(c) then Park(s, i)
    else PopTurn(s, i, Inner(waited), c.clock, false)
  }

  /** The head of the loop in `warm`. */
  function WarmTop(s: State, i: nat, made: nat): State
    requires i < |s.tasks|
  {
    var c := s.core;
    if |c.idle| < c.cfg.minIdle && c.slots < c.cfg.maxSize then Dial(s, i, DialWarm(made))
    else At(s, i, Done(Warmed(made)))
  }

  /** Carry on after a wake loop, or at the head of a caller's loop. */
  function Resume(s: State, i: nat, cont: Cont): State
    requires i < |s.tasks|
  {
    match cont
    case PopOn(caller, at, owed) => PopTurn(s, i, caller, at, owed)
    case LoopTop(caller) =>
      if caller.Try? then PopTurn(s, i, caller, s.core.clock, false) else GetTop(s, i, caller.Waited())
    case WarmLoop(made) => WarmTop(s, i, made)
    case Sleep(waited) => At(s, i, Backoff(waited))
    case Finish(end) => At(s, i, Done(Ended(end)))
  }

  /** Put task `i` at the head of `cont` and run it. */
  function Go(s: State, i: nat, cont: Cont): State
    requires i < |s.tasks|
  {
    Resume(At(s, i, Waking(0, cont)), i, cont)
  }

  /** Release `n` slots, then wake waiters for them. */
  function ReleaseAndNotify(s: State, i: nat, n: nat, cont: Cont): State
    requires i < |s.tasks|
  {
    var c := ReleaseSlots(s.core, n);
    At(With(s, c), i, Waking(NotifyUnits(c, n), cont))
  }

  /** A connection has finished dropping. */
  function Bury(s: State, conn: Conn): State {
    s.(book := s.book.(gone := s.book.gone + multiset{conn.id}))
  }

  function NoteWhy(stats: Stats, why: Why): Stats {
    match why
    case Broken => stats.(broken := stats.broken + 1)
    case Manual => stats.(manual := stats.manual + 1)
    case Aged(reason) => stats.NoteExpired(reason)
  }

  function Note(s: State, why: Why): State {
    With(s, s.core.(stats := NoteWhy(s.core.stats, why)))
  }

  /** Pop the oldest waiter, raise the watermark and run its waker, which marks its task. */
  function WakeOldest(s: State): State
    requires s.core.queue.entries != []
  {
    var e := s.core.queue.entries[0];
    var s1 := With(s, SetQueue(s.core, Pop(s.core.queue)));
    if e.task < |s.tasks| && s.tasks[e.task].Parked? then At(s1, e.task, s.tasks[e.task].(woken := true))
    else s1
  }

  // ---- The steps ----

  /** Detach the expired connections; the idle gauge waits until they have been dropped. */
  function StartReap(s: State, i: nat): State
    requires i < |s.tasks|
  {
    var c := s.core;
    var expired := Retired(c.idle, c.clock, c.cfg);
    At(With(s, c.(idle := Kept(c.idle, c.clock, c.cfg), stats := NoteRetired(c.stats, c.idle, c.clock, c.cfg))),
       i, Reaping(expired, |expired|))
  }

  /** Where a call enters its loop, unless it has none or the pool is closed. */
  function FirstLoop(c: Core, call: Call): Option<Cont> {
    if c.closed then None
    else
      match call
      case Get => Some(if c.cfg.testOnCheckOut then LoopTop(Inner(false)) else PopOn(Fast, c.clock, false))
      case TryGet => Some(LoopTop(Try))
      case Warm => Some(WarmLoop(0))
      case _ => None
  }

  function StartClear(s: State, i: nat): State
    requires i < |s.tasks|
  {
    At(With(s, s.core.(idle := [])), i, Clearing(s.core.idle, |s.core.idle|))
  }

  function StartCall(s: State, i: nat, call: Call): State
    requires i < |s.tasks|
  {
    match FirstLoop(s.core, call)
    case Some(cont) => Go(s, i, cont)
    case None =>
      match call
      case Reap => StartReap(s, i)
      case Clear => StartClear(s, i)
      case Warm => At(s, i, Done(Warmed(0)))
      case _ => At(s, i, Done(Ended(ClosedErr)))
  }

  function FinishReap(s: State, i: nat, n: nat): State
    requires i < |s.tasks|
  {
    if n == 0 then At(s, i, Done(Ended(Count(0))))
    else ReleaseAndNotify(With(s, LowerIdleGauge(s.core, n)), i, n, Finish(Count(n)))
  }

  function FinishClear(s: State, i: nat, n: nat): State
    requires i < |s.tasks|
  {
    var c := LowerIdleGauge(s.core, n);
    ReleaseAndNotify(With(s, c.(stats := c.stats.(manual := c.stats.manual + n))), i, n, Finish(Count(n)))
  }

  /** A task in the middle of its code goes on to its next call-out or await. */
  function AdvanceTask(s: State, i: nat): State
    requires i < |s.tasks|
  {
    match s.tasks[i]
    case Start(call) => StartCall(s, i, call)
    case Waking(units, cont) =>
      if units > 0 && s.core.queue.entries != [] then WakeOldest(At(s, i, Waking(units - 1, cont)))
      else Go(s, i, cont)
    case Discarding(caller, at, owed, conn, reason) =>
      ReleaseAndNotify(Note(Bury(s, conn), Aged(reason)), i, 1, PopOn(caller, at, owed))
    case DroppingHeld(conn, cont) => ReleaseAndNotify(Bury(s, conn), i, 1, cont)
    case DroppingReturn(conn, why) => ReleaseAndNotify(Note(Bury(s, conn), why), i, 1, Finish(Returned))
    case Reaping(left, n) =>
      if left == [] then FinishReap(s, i, n)
      else At(Bury(s, left[0]), i, Reaping(left[1..], n))
    case Clearing(left, n) =>
      if left == [] then FinishClear(s, i, n)
      else At(Bury(s, left[0]), i, Clearing(left[1..], n))
    case _ => s
  }

  /** `WaitReady::poll`, or a backoff that has run out. */
  function PollTask(s: State, i: nat): State
    requires i < |s.tasks|
  {
    match s.tasks[i]
    case Parked(id, woken) =>
      if ReadyNow(s.core) then
        var c := SetQueue(s.core, Unregister(s.core.queue, id).0);
        if c.closed then At(With(s, c), i, Waking(WakeAllUnits(|c.queue.entries|), Finish(ClosedErr)))
        else Go(With(s, c), i, PopOn(Inner(true), c.clock, woken))
      else
        var (q, id') := Register(s.core.queue, Some(id), i);
        At(With(s, SetQueue(s.core, q)), i, Parked(id', woken && id' == id))
    case Backoff(waited) => Go(s, i, LoopTop(Inner(waited)))
    case _ => s
  }

  /** A dial succeeded: the reserved slot now has a connection. */
  function Opened(s: State): (State, Conn) {
    var c := s.core;
    (s.(core := c.(stats := c.stats.(created := c.stats.created + 1)),
        book := s.book.(nextConn := s.book.nextConn + 1)),
     Conn(s.book.nextConn, c.clock, c.clock))
  }

  function DialDone(s: State, i: nat, dialler: Dialler, ok: bool): State
    requires i < |s.tasks|
  {
    if ok then
      var (s1, conn) := Opened(s);
      match dialler
      case DialGet(waited) => Grant(s1, i, conn, waited)
      case DialTry => Grant(s1, i, conn, false)
      case DialWarm(made) => ParkIdle(s1, i, conn, WarmLoop(made + 1))
    else
      ReleaseAndNotify(s, i, 1,
                       if dialler.DialGet? && s.core.cfg.retryConnection && !s.core.closed
                       then Sleep(dialler.waited) else Finish(Failed))
  }

  /** Stamp a connection, put it on the idle list and wake one waiter for it. */
  function ParkIdle(s: State, i: nat, conn: Conn, cont: Cont): State
    requires i < |s.tasks|
  {
    var c := PushIdle(s.core, conn.(lastUsed := s.core.clock));
    At(With(s, c), i, Waking(NotifyUnits(c, 1), cont))
  }

  function ResolveTask(s: State, i: nat, ok: bool): State
    requires i < |s.tasks|
  {
    match s.tasks[i]
    case Validating(caller, conn) =>
      if ok then Grant(s, i, conn, caller.Waited())
      else At(Note(s, Broken), i, DroppingHeld(conn, LoopTop(caller)))
    case Dialling(dialler) => DialDone(s, i, dialler, ok)
    case AskBroken(conn) =>
      if !ok then At(s, i, DroppingReturn(conn, Broken))
      else (match ExpiryOf(conn, s.core.clock, s.core.cfg)
            case Some(reason) => At(s, i, DroppingReturn(conn, Aged(reason)))
            case None => ParkIdle(s, i, conn, Finish(Returned)))
    case _ => s
  }

  predicate InGet(t: Task) {
    t.Parked? || t.Backoff? || (t.Validating? && t.caller.Inner?) || (t.Dialling? && t.dialler.DialGet?)
  }

  /** The future is dropped at an await; its guards run. */
  function Abandon(s: State, i: nat): State
    requires i < |s.tasks|
  {
    match s.tasks[i]
    case Parked(id, _) =>
      var (q, found) := Unregister(s.core.queue, id);
      At(With(s, SetQueue(s.core, q)), i, if found then Done(Ended(Cancelled)) else Waking(1, Finish(Cancelled)))
    case Validating(_, conn) =>
      At(s, i, DroppingHeld(conn, Finish(Cancelled))).(book := s.book.(abandoned := s.book.abandoned + 1))
    case Dialling(_) => ReleaseAndNotify(s, i, 1, Finish(Cancelled))
    case Backoff(_) => At(s, i, Done(Ended(Cancelled)))
    case _ => s
  }

  function NoteTimeout(s: State): State {
    With(s, s.core.(stats := s.core.stats.(timedOut := s.core.stats.timedOut + 1)))
  }

  /** A cancellation, counted if it is the timeout of a `get`. */
  function CancelTask(s: State, i: nat, timedOut: bool): State
    requires i < |s.tasks|
  {
    Abandon(if timedOut && InGet(s.tasks[i]) then NoteTimeout(s) else s, i)
  }

  function ReturnLease(s: State, i: nat): State
    requires i < |s.tasks|
  {
    if !s.tasks[i].Lease? then s
    else
      var conn := s.tasks[i].conn;
      At(s, i, if s.core.closed then DroppingReturn(conn, Manual) else AskBroken(conn)).(
      book := s.book.(returned := s.book.returned + 1))
  }

  function TakeLease(s: State, i: nat): State
    requires i < |s.tasks|
  {
    if !s.tasks[i].Lease? then s
    else
      var s1 := Bury(s, s.tasks[i].conn);
      ReleaseAndNotify(s1.(book := s1.book.(taken := s1.book.taken + 1)), i, 1, Finish(TakenOut))
  }

  /** One step. An event that does not fit the task it names changes nothing. */
  function Step(s: State, e: Event): State {
    match e
    case Spawn(call) => s.(tasks := s.tasks + [Start(call)])
    case Close => With(s, s.core.(closed := true))
    case Tick(elapsed) => With(s, s.core.(clock := s.core.clock + elapsed))
    case Advance(i) => if i < |s.tasks| then AdvanceTask(s, i) else s
    case Poll(i) => if i < |s.tasks| then PollTask(s, i) else s
    case Resolve(i, ok) => if i < |s.tasks| then ResolveTask(s, i, ok) else s
    case Cancel(i, timedOut) => if i < |s.tasks| then CancelTask(s, i, timedOut) else s
    case Return(i) => if i < |s.tasks| then ReturnLease(s, i) else s
    case Take(i) => if i < |s.tasks| then TakeLease(s, i) else s
  }

  function Run(s: State, events: seq<Event>): State {
    if events == [] then s else Step(Run(s, events[..|events| - 1]), events[|events| - 1])
  }
}
