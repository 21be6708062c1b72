/** The waiter queue and the parked tasks agree after every step. */
module PoolLinks {
  import opened WaitQueue
  import opened PoolCore
  import opened PoolProtocol

  /** The queue and the parked tasks name each other: an entry's waker belongs to the task
      that holds its id, and a parked task is queued exactly while its id lies above the
      watermark. */
  ghost predicate Linked(s: State) {
    && Sorted(s.core.queue)
    && (forall e :: e in s.core.queue.entries ==> e.task < |s.tasks| && s.tasks[e.task] == Parked(e.id, false))
    && (forall i :: 0 <= i < |s.tasks| && s.tasks[i].Parked? ==> LinkedTask(s, i))
  }

  ghost predicate LinkedTask(s: State, i: nat)
    requires i < |s.tasks| && s.tasks[i].Parked?
  {
    var id, q := s.tasks[i].id, s.core.queue;
    && id < q.nextId
    && (s.tasks[i].woken <==> id <= q.wokenUpto)
    && (id > q.wokenUpto ==> Entry(id, i) in q.entries)
  }


  /** The queue is untouched and no parked task appears or goes. */
  ghost predicate QueueKept(s: State, s': State, i: nat) {
    && i < |s.tasks| == |s'.tasks|
    && s'.core.queue == s.core.queue
    && s'.tasks == s.tasks[i := s'.tasks[i]]
    && !s.tasks[i].Parked? && !s'.tasks[i].Parked?
  }

  lemma KeptLinked(s: State, s': State, i: nat)
    requires Linked(s) && QueueKept(s, s', i)
    ensures Linked(s')
  {
    forall k | 0 <= k < |s'.tasks| && s'.tasks[k].Parked?
      ensures LinkedTask(s', k)
    {
      assert LinkedTask(s, k);
    }
  }

  /** A task that is not queued joins the queue. */
  lemma ParkLinked(s: State, i: nat)
    requires Linked(s) && i < |s.tasks| && (s.tasks[i].Parked? ==> s.tasks[i].woken)
    ensures Linked(Park(s, i))
  {
    var s' := Park(s, i);
    PushSorted(s.core.queue, i);
    forall e | e in s'.core.queue.entries
      ensures e.task < |s'.tasks| && s'.tasks[e.task] == Parked(e.id, false)
    {
      assert e in s.core.queue.entries || e == Entry(s.core.queue.nextId, i);
    }
    forall k | 0 <= k < |s'.tasks| && s'.tasks[k].Parked?
      ensures LinkedTask(s', k)
    {
      if k != i {
        assert LinkedTask(s, k);
      } else {
        assert Entry(s.core.queue.nextId, i) in s'.core.queue.entries;
      }
    }
  }

  /** Carrying on either parks the task or leaves the queue alone. */
  lemma ResumeQueue(s: State, i: nat, cont: Cont)
    requires i < |s.tasks| && !s.tasks[i].Parked?
    ensures Resume(s, i, cont) == Park(s, i) || QueueKept(s, Resume(s, i, cont), i)
  {
  }

  lemma GoLinked(s: State, i: nat, cont: Cont)
    requires Linked(s) && i < |s.tasks| && !s.tasks[i].Parked?
    ensures Linked(Go(s, i, cont))
  {
    var s1 := At(s, i, Waking(0, cont));
    KeptLinked(s, s1, i);
    ResumeQueue(s1, i, cont);
    if Resume(s1, i, cont) == Park(s1, i) {
      ParkLinked(s1, i);
    } else {
      KeptLinked(s1, Resume(s1, i, cont), i);
    }
  }

  lemma WakeOldestLinked(s: State)
    requires Linked(s) && s.core.queue.entries != []
    ensures Linked(WakeOldest(s))
  {
    var q := s.core.queue;
    var e0, s' := q.entries[0], WakeOldest(s);
    assert e0 in q.entries;
    PopSorted(q);
    forall e | e in s'.core.queue.entries
      ensures e.task < |s'.tasks| && s'.tasks[e.task] == Parked(e.id, false)
    {
      assert e in q.entries;
      assert e.id > e0.id;
    }
    forall k | 0 <= k < |s'.tasks| && s'.tasks[k].Parked?
      ensures LinkedTask(s', k)
    {
      assert LinkedTask(s, k);
      if k != e0.task && s.tasks[k].id > q.wokenUpto {
        assert Entry(s.tasks[k].id, k) in q.entries[1..];
      }
    }
  }

  /** Task `i` leaves the queue, if it was on it, and is not parked any more. */
  lemma UnregisterLinked(s: State, i: nat, to: Task)
    requires Linked(s) && i < |s.tasks| && s.tasks[i].Parked? && !to.Parked?
    ensures Linked(At(With(s, SetQueue(s.core, Unregister(s.core.queue, s.tasks[i].id).0)), i, to))
    ensures Unregister(s.core.queue, s.tasks[i].id).1 <==> !s.tasks[i].woken
  {
    var q, id := s.core.queue, s.tasks[i].id;
    var s' := At(With(s, SetQueue(s.core, Unregister(q, id).0)), i, to);
    assert LinkedTask(s, i);
    if s.tasks[i].woken {
      WokenLinked(s, i, to);
    } else {
      var k :| 0 <= k < |q.entries| && q.entries[k] == Entry(id, i);
      IndexUnique(q, k);
      RemoveLinked(s, i, k, to);
    }
  }

  lemma WokenLinked(s: State, i: nat, to: Task)
    requires Linked(s) && i < |s.tasks| && s.tasks[i].Parked? && s.tasks[i].woken && !to.Parked?
    ensures Linked(At(s, i, to))
  {
    var s' := At(s, i, to);
    forall k | 0 <= k < |s'.tasks| && s'.tasks[k].Parked?
      ensures LinkedTask(s', k)
    {
      assert LinkedTask(s, k);
    }
  }

  lemma RemoveEntries(q: Queue, k: nat, e: Entry)
    requires Sorted(q) && k < |q.entries| && e in RemoveAt(q, k).entries
    ensures e in q.entries && e.id != q.entries[k].id
  {
    var a :| 0 <= a < |RemoveAt(q, k).entries| && RemoveAt(q, k).entries[a] == e;
    assert q.entries[if a < k then a else a + 1] == e;
  }

  lemma RemoveLinked(s: State, i: nat, k: nat, to: Task)
    requires Linked(s) && i < |s.tasks| && !to.Parked?
    requires k < |s.core.queue.entries| && s.core.queue.entries[k].task == i
    ensures Linked(At(With(s, SetQueue(s.core, RemoveAt(s.core.queue, k))), i, to))
  {
    var q := s.core.queue;
    var s' := At(With(s, SetQueue(s.core, RemoveAt(q, k))), i, to);
    assert q.entries[k] in q.entries;
    RemoveSorted(q, k);
    forall e | e in s'.core.queue.entries
      ensures e.task < |s'.tasks| && s'.tasks[e.task] == Parked(e.id, false)
    {
      RemoveEntries(q, k, e);
    }
    forall j | 0 <= j < |s'.tasks| && s'.tasks[j].Parked?
      ensures LinkedTask(s', j)
    {
      StaysLinked(s, s', i, k, j);
    }
  }

  lemma StaysLinked(s: State, s': State, i: nat, k: nat, j: nat)
    requires j < |s.tasks| && s.tasks[j].Parked? && LinkedTask(s, j) && j != i
    requires k < |s.core.queue.entries| && s.core.queue.entries[k].task == i
    requires s'.core.queue == RemoveAt(s.core.queue, k) && j < |s'.tasks| && s'.tasks[j] == s.tasks[j]
    ensures LinkedTask(s', j)
  {
    if s.tasks[j].id > s.core.queue.wokenUpto {
      RemoveKeepsOthers(s.core.queue, k, Entry(s.tasks[j].id, j));
    }
  }

  /** A poll that finds nothing: a queued waiter stays where it is, a woken one rejoins. */
  lemma RejoinLinked(s: State, i: nat)
    requires Linked(s) && i < |s.tasks| && s.tasks[i].Parked? && !ReadyNow(s.core)
    ensures Linked(PollTask(s, i))
    ensures !s.tasks[i].woken ==> PollTask(s, i).core.queue == s.core.queue && PollTask(s, i).tasks == s.tasks
    ensures s.tasks[i].woken ==> PollTask(s, i) == Park(s, i)
  {
    var q, id := s.core.queue, s.tasks[i].id;
    assert LinkedTask(s, i);
    if s.tasks[i].woken {
      ParkLinked(s, i);
    } else {
      var k :| 0 <= k < |q.entries| && q.entries[k] == Entry(id, i);
      IndexUnique(q, k);
      assert q.entries[k := Entry(id, i)] == q.entries;
      assert s.tasks[i := s.tasks[i]] == s.tasks;
      SameLinked(s, PollTask(s, i));
    }
  }

  /** Only the queue and the tasks matter. */
  lemma SameLinked(s: State, s': State)
    requires Linked(s) && s'.core.queue == s.core.queue && s'.tasks == s.tasks
    ensures Linked(s')
  {
    forall k | 0 <= k < |s'.tasks| && s'.tasks[k].Parked?
      ensures LinkedTask(s', k)
    {
      assert LinkedTask(s, k);
    }
  }

  lemma AdvanceLinked(s: State, i: nat)
    requires Linked(s) && i < |s.tasks|
    ensures Linked(AdvanceTask(s, i))
  {
    var t, c := s.tasks[i], s.core;
    match t
    case Start(call) =>
      if FirstLoop(c, call).Some? {
        GoLinked(s, i, FirstLoop(c, call).value);
      } else {
        KeptLinked(s, AdvanceTask(s, i), i);
      }
    case Waking(units, cont) =>
      if units > 0 && c.queue.entries != [] {
        KeptLinked(s, At(s, i, Waking(units - 1, cont)), i);
        WakeOldestLinked(At(s, i, Waking(units - 1, cont)));
      } else {
        GoLinked(s, i, cont);
      }
    case Parked(_, _) =>
    case Backoff(_) =>
    case Validating(_, _) =>
    case Dialling(_) =>
    case Lease(_) =>
    case AskBroken(_) =>
    case Done(_) =>
    case _ => KeptLinked(s, AdvanceTask(s, i), i);
  }

  lemma PollLinked(s: State, i: nat)
    requires Linked(s) && i < |s.tasks|
    ensures Linked(PollTask(s, i))
  {
    match s.tasks[i]
    case Parked(id, woken) =>
      if !ReadyNow(s.core) {
        RejoinLinked(s, i);
      } else {
        UnregisterLinked(s, i, PollEntry(s, i));
        if !s.core.closed {
          var cont := PollEntry(s, i).cont;
          var s1 := With(s, SetQueue(s.core, Unregister(s.core.queue, id).0));
          var s2 := At(s1, i, Waking(0, cont));
          GoLinked(s2, i, cont);
          assert s2.tasks[i := Waking(0, cont)] == s2.tasks;
        }
      }
    case Backoff(waited) => GoLinked(s, i, LoopTop(Inner(waited)));
    case _ =>
  }

  /** Where a waiter stands once its poll has found the pool ready. */
  function PollEntry(s: State, i: nat): (t: Task)
    requires i < |s.tasks| && s.tasks[i].Parked?
    ensures t.Waking?
  {
    if s.core.closed
    then Waking(WakeAllUnits(|Unregister(s.core.queue, s.tasks[i].id).0.entries|), Finish(ClosedErr))
    else Waking(0, PopOn(Inner(true), s.core.clock, s.tasks[i].woken))
  }

  lemma CancelLinked(s: State, i: nat, timedOut: bool)
    requires Linked(s) && i < |s.tasks|
    ensures Linked(CancelTask(s, i, timedOut))
  {
    var s1 := if timedOut && InGet(s.tasks[i]) then NoteTimeout(s) else s;
    SameLinked(s, s1);
    match s.tasks[i]
    case Parked(_, _) => UnregisterLinked(s1, i, CancelTask(s, i, timedOut).tasks[i]);
    case Validating(_, _) => KeptLinked(s1, Abandon(s1, i), i);
    case Dialling(_) => KeptLinked(s1, Abandon(s1, i), i);
    case Backoff(_) => KeptLinked(s1, Abandon(s1, i), i);
    case _ =>
  }

  lemma SpawnLinked(s: State, call: Call)
    requires Linked(s)
    ensures Linked(Step(s, Spawn(call)))
  {
    var s' := Step(s, Spawn(call));
    forall k | 0 <= k < |s'.tasks| && s'.tasks[k].Parked?
      ensures LinkedTask(s', k)
    {
      assert LinkedTask(s, k);
    }
  }

  lemma StepLinked(s: State, e: Event)
    requires Linked(s)
    ensures Linked(Step(s, e))
  {
    match e
    case Spawn(call) => SpawnLinked(s, call);
    case Close => SameLinked(s, Step(s, e));
    case Tick(_) => SameLinked(s, Step(s, e));
    case Advance(i) => if i < |s.tasks| { AdvanceLinked(s, i); }
    case Poll(i) => if i < |s.tasks| { PollLinked(s, i); }
    case Resolve(i, ok) =>
      if i < |s.tasks| && (s.tasks[i].Validating? || s.tasks[i].Dialling? || s.tasks[i].AskBroken?) {
        KeptLinked(s, Step(s, e), i);
      }
    case Cancel(i, timedOut) => if i < |s.tasks| { CancelLinked(s, i, timedOut); }
    case Return(i) => if i < |s.tasks| && s.tasks[i].Lease? { KeptLinked(s, Step(s, e), i); }
    case Take(i) => if i < |s.tasks| && s.tasks[i].Lease? { KeptLinked(s, Step(s, e), i); }
  }
}
