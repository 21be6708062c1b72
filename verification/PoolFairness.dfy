/** Wakes are sent in registration order, and every registration has one fate. */
module PoolFairness {
  import opened PoolTypes
  import opened WaitQueue
  import opened PoolCore
  import opened PoolProtocol
  import opened PoolLinks
  import opened PoolRuns

  /** What one step may do to the queue. */
  ghost predicate QueueMoved(q: Queue, q': Queue) {
    || q' == q
    || (exists task :: q' == Push(q, task))
    || (exists k :: 0 <= k < |q.entries| && q' == RemoveAt(q, k))
    || (q.entries != [] && q' == Pop(q))
  }

  lemma GoQueue(s: State, i: nat, cont: Cont)
    requires i < |s.tasks| && !s.tasks[i].Parked?
    ensures QueueMoved(s.core.queue, Go(s, i, cont).core.queue)
  {
    var s1 := At(s, i, Waking(0, cont));
    ResumeQueue(s1, i, cont);
    assert Park(s1, i).core.queue == Push(s.core.queue, i);
  }

  lemma AdvanceQueue(s: State, i: nat)
    requires i < |s.tasks|
    ensures QueueMoved(s.core.queue, AdvanceTask(s, i).core.queue)
  {
    var t, c := s.tasks[i], s.core;
    if t.Waking? {
      GoQueue(s, i, t.cont);
    } else if t.Start? && FirstLoop(c, t.call).Some? {
      GoQueue(s, i, FirstLoop(c, t.call).value);
    }
  }

  lemma PollQueue(s: State, i: nat)
    requires Linked(s) && i < |s.tasks|
    ensures QueueMoved(s.core.queue, PollTask(s, i).core.queue)
  {
    var t, c := s.tasks[i], s.core;
    if t.Parked? {
      if !ReadyNow(c) {
        RejoinLinked(s, i);
        assert t.woken ==> PollTask(s, i).core.queue == Push(c.queue, i);
      } else {
        ReadyPollQueue(s, i);
      }
    } else if t.Backoff? {
      GoQueue(s, i, LoopTop(Inner(t.waited)));
    }
  }

  /** A poll that finds the pool ready only withdraws: what follows finds it ready too. */
  lemma ReadyPollQueue(s: State, i: nat)
    requires i < |s.tasks| && s.tasks[i].Parked? && ReadyNow(s.core)
    ensures PollTask(s, i).core.queue == Unregister(s.core.queue, s.tasks[i].id).0
  {
    var c := SetQueue(s.core, Unregister(s.core.queue, s.tasks[i].id).0);
    if !s.core.closed {
      var cont := PopOn(Inner(true), c.clock, s.tasks[i].woken);
      assert Go(With(s, c), i, cont).core.queue == c.queue;
    }
  }

  lemma StepQueue(s: State, e: Event)
    requires Linked(s)
    ensures QueueMoved(s.core.queue, Step(s, e).core.queue)
  {
    match e
    case Advance(i) => if i < |s.tasks| { AdvanceQueue(s, i); }
    case Poll(i) => if i < |s.tasks| { PollQueue(s, i); }
    case _ =>
  }

  // ---- History ----

  function IdsOf(entries: seq<Entry>): (r: seq<nat>)
    ensures |r| == |entries|
    ensures forall k :: 0 <= k < |r| ==> r[k] == entries[k].id
  {
    seq(|entries|, k requires 0 <= k < |entries| => entries[k].id)
  }

  /** How often `id` is queued, was woken and was withdrawn. */
  function Fates(q: Queue, id: nat): (nat, nat, nat) {
    (multiset(IdsOf(q.entries))[id], multiset(q.wokenLog)[id], multiset(q.withdrawn)[id])
  }

  ghost predicate OneFate(q: Queue, id: nat) {
    var (queued, woken, withdrawn) := Fates(q, id);
    queued + woken + withdrawn == if 1 <= id < q.nextId then 1 else 0
  }

  ghost predicate WokenInOrder(q: Queue) {
    && (forall a, b :: 0 <= a < b < |q.wokenLog| ==> q.wokenLog[a] < q.wokenLog[b])
    && (forall a :: 0 <= a < |q.wokenLog| ==> q.wokenLog[a] <= q.wokenUpto)
  }

  lemma PushFates(q: Queue, task: nat, id: nat)
    ensures Fates(Push(q, task), id).0 == Fates(q, id).0 + if id == q.nextId then 1 else 0
  {
    assert IdsOf(Push(q, task).entries) == IdsOf(q.entries) + [q.nextId];
  }

  lemma PopFates(q: Queue, id: nat)
    requires q.entries != []
    ensures Fates(Pop(q), id).0 + Fates(Pop(q), id).1 == Fates(q, id).0 + Fates(q, id).1
  {
    assert IdsOf(q.entries) == [q.entries[0].id] + IdsOf(Pop(q).entries);
  }

  lemma RemoveFates(q: Queue, k: nat, id: nat)
    requires k < |q.entries|
    ensures Fates(RemoveAt(q, k), id).0 + Fates(RemoveAt(q, k), id).2 == Fates(q, id).0 + Fates(q, id).2
  {
    var ids := IdsOf(q.entries);
    assert ids == ids[..k] + [ids[k]] + ids[k + 1..];
    assert IdsOf(RemoveAt(q, k).entries) == ids[..k] + ids[k + 1..];
  }

  lemma MovedOneFate(q: Queue, q': Queue, id: nat)
    requires QueueMoved(q, q') && OneFate(q, id) && 1 <= q.nextId
    ensures OneFate(q', id) && 1 <= q'.nextId
  {
    if q' != q {
      if task :| q' == Push(q, task) {
        PushFates(q, task, id);
      } else if q.entries != [] && q' == Pop(q) {
        PopFates(q, id);
      } else {
        var k :| 0 <= k < |q.entries| && q' == RemoveAt(q, k);
        RemoveFates(q, k, id);
      }
    }
  }

  lemma MovedInOrder(q: Queue, q': Queue)
    requires QueueMoved(q, q') && Sorted(q) && WokenInOrder(q)
    ensures WokenInOrder(q')
  {
  }

  /** If `id` is queued at all, at most `bound` waiters are ahead of it. */
  ghost predicate AheadAtMost(q: Queue, id: nat, bound: int) {
    forall j :: 0 <= j < |q.entries| && q.entries[j].id == id ==> j <= bound
  }

  /** A position never grows, and falls by one with every wake. */
  lemma MovedAhead(q: Queue, q': Queue, id: nat, bound: int)
    requires QueueMoved(q, q') && id < q.nextId && AheadAtMost(q, id, bound)
    ensures |q.wokenLog| <= |q'.wokenLog| && q.nextId <= q'.nextId
    ensures AheadAtMost(q', id, bound - (|q'.wokenLog| - |q.wokenLog|))
  {
    if q' != q {
      if task :| q' == Push(q, task) {
        PushAhead(q, task, id, bound);
      } else if q.entries != [] && q' == Pop(q) {
        PopAhead(q, id, bound);
      } else {
        var k :| 0 <= k < |q.entries| && q' == RemoveAt(q, k);
        RemoveAhead(q, k, id, bound);
      }
    }
  }

  lemma PushAhead(q: Queue, task: nat, id: nat, bound: int)
    requires id < q.nextId && AheadAtMost(q, id, bound)
    ensures AheadAtMost(Push(q, task), id, bound)
  {
  }

  lemma PopAhead(q: Queue, id: nat, bound: int)
    requires q.entries != [] && AheadAtMost(q, id, bound)
    ensures AheadAtMost(Pop(q), id, bound - 1)
  {
    forall j | 0 <= j < |q.entries| - 1 && q.entries[1..][j].id == id
      ensures j <= bound - 1
    {
      assert q.entries[j + 1].id == id;
    }
  }

  lemma RemoveAhead(q: Queue, k: nat, id: nat, bound: int)
    requires k < |q.entries| && AheadAtMost(q, id, bound)
    ensures AheadAtMost(RemoveAt(q, k), id, bound)
  {
    var left := RemoveAt(q, k).entries;
    forall j | 0 <= j < |left| && left[j].id == id
      ensures j <= bound
    {
      var was := if j < k then j else j + 1;
      assert left[j] == q.entries[was];
    }
  }

  // ---- Over whole runs ----

  lemma {:induction false} RunHistory(cfg: Config, events: seq<Event>, id: nat)
    requires cfg.Valid()
    ensures var q := Run(Init(cfg), events).core.queue;
            OneFate(q, id) && WokenInOrder(q) && 1 <= q.nextId
  {
    if events != [] {
      var before := events[..|events| - 1];
      var s := Run(Init(cfg), before);
      RunHistory(cfg, before, id);
      EveryRun(cfg, before);
      StepQueue(s, events[|events| - 1]);
      MovedOneFate(s.core.queue, Run(Init(cfg), events).core.queue, id);
      MovedInOrder(s.core.queue, Run(Init(cfg), events).core.queue);
    } else {
      assert IdsOf([]) == [];
    }
  }

  /** Ids are woken in strictly increasing registration order. */
  lemma WokenInRegistrationOrder(cfg: Config, events: seq<Event>)
    requires cfg.Valid()
    ensures var log := Run(Init(cfg), events).core.queue.wokenLog;
            forall a, b :: 0 <= a < b < |log| ==> log[a] < log[b]
  {
    RunHistory(cfg, events, 0);
  }

  /** Every registration is still queued, was woken once, or was withdrawn once: exactly one. */
  lemma OneFatePerRegistration(cfg: Config, events: seq<Event>, id: nat)
    requires cfg.Valid() && 1 <= id < Run(Init(cfg), events).core.queue.nextId
    ensures Fates(Run(Init(cfg), events).core.queue, id) in {(1, 0, 0), (0, 1, 0), (0, 0, 1)}
  {
    RunHistory(cfg, events, id);
  }

  lemma {:induction false} RunAhead(s: State, events: seq<Event>, id: nat, bound: int)
    requires Inv(s) && id < s.core.queue.nextId && AheadAtMost(s.core.queue, id, bound)
    ensures var q, q' := s.core.queue, Run(s, events).core.queue;
            && |q.wokenLog| <= |q'.wokenLog| && q.nextId <= q'.nextId
            && AheadAtMost(q', id, bound - (|q'.wokenLog| - |q.wokenLog|))
  {
    if events != [] {
      var before := events[..|events| - 1];
      var mid := Run(s, before);
      RunAhead(s, before, id, bound);
      RunKeepsInv(s, before);
      StepQueue(mid, events[|events| - 1]);
      MovedAhead(mid.core.queue, Run(s, events).core.queue, id,
                 bound - (|mid.core.queue.wokenLog| - |s.core.queue.wokenLog|));
    }
  }

  /** From any reachable state on: the waiter with `k` others ahead of it never falls back,
      and is off the queue once `k + 1` more waiters were woken. */
  lemma WokenWithinItsPosition(cfg: Config, past: seq<Event>, future: seq<Event>, k: nat)
    requires cfg.Valid() && k < |Run(Init(cfg), past).core.queue.entries|
    ensures var q, q' := Run(Init(cfg), past).core.queue, Run(Run(Init(cfg), past), future).core.queue;
            var wakes := |q'.wokenLog| - |q.wokenLog|;
            && (forall j :: 0 <= j < |q'.entries| && q'.entries[j].id == q.entries[k].id ==> j + wakes <= k)
            && (wakes > k ==> !Queued(q', q.entries[k].id))
  {
    var s := Run(Init(cfg), past);
    var q := s.core.queue;
    EveryRun(cfg, past);
    forall j | 0 <= j < |q.entries| && q.entries[j].id == q.entries[k].id
      ensures j <= k
    {
      IndexUnique(q, j);
      IndexUnique(q, k);
    }
    RunAhead(s, future, q.entries[k].id, k);
  }
}
