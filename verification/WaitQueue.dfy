/** The waiter queue as a value: an id counter, the watermark of the highest id
    ever woken, and the parked entries, oldest first. `wokenLog` and `withdrawn`
    record history; no operation reads them. */
module WaitQueue {
  import opened PoolTypes

  /** A parked waiter: its id, and the task its waker makes runnable. */
  datatype Entry = Entry(id: nat, task: nat)

  datatype Queue = Queue(
    nextId: nat,
    wokenUpto: nat,
    entries: seq<Entry>,
    wokenLog: seq<nat>,
    withdrawn: seq<nat>)

  /** Ids start at 1, so that a watermark of 0 means that nobody was woken yet. */
  const EMPTY := Queue(1, 0, [], [], [])

  /** The index of the entry that carries `id`: what a search of the queue reports. */
  function IndexOf(entries: seq<Entry>, id: nat): (r: Option<nat>)
    ensures r.Some? ==> r.value < |entries| && entries[r.value].id == id
    ensures r.None? ==> forall k :: 0 <= k < |entries| ==> entries[k].id != id
  {
    if entries == [] then None
    else if entries[|entries| - 1].id == id then Some(|entries| - 1)
    else IndexOf(entries[..|entries| - 1], id)
  }

  predicate Queued(q: Queue, id: nat) {
    exists k :: 0 <= k < |q.entries| && q.entries[k].id == id
  }

  function Push(q: Queue, task: nat): Queue {
    q.(nextId := q.nextId + 1, entries := q.entries + [Entry(q.nextId, task)])
  }

  function RemoveAt(q: Queue, k: nat): Queue
    requires k < |q.entries|
  {
    q.(entries := q.entries[..k] + q.entries[k + 1..], withdrawn := q.withdrawn + [q.entries[k].id])
  }

  /** Queue the waiter that holds `held`, or only refresh its waker if the watermark
      and the search say that it is still queued. Returns the id it holds afterwards. */
  function Register(q: Queue, held: Option<nat>, task: nat): (Queue, nat) {
    if held.Some? && held.value > q.wokenUpto && IndexOf(q.entries, held.value).Some? then
      var k := IndexOf(q.entries, held.value).value;
      (q.(entries := q.entries[k := Entry(held.value, task)]), held.value)
    else (Push(q, task), q.nextId)
  }

  /** Withdraw `id`. False means that it was not queued any more. */
  function Unregister(q: Queue, id: nat): (Queue, bool) {
    if id <= q.wokenUpto || IndexOf(q.entries, id).None? then (q, false)
    else (RemoveAt(q, IndexOf(q.entries, id).value), true)
  }

  /** Take the oldest waiter off the queue and raise the watermark to its id. */
  function Pop(q: Queue): Queue
    requires q.entries != []
  {
    q.(entries := q.entries[1..], wokenUpto := q.entries[0].id, wokenLog := q.wokenLog + [q.entries[0].id])
  }

  /** `wake(n)` with wakers that do not re-enter: pop up to `n` waiters. */
  function PopN(q: Queue, n: nat): (r: Queue)
    ensures r.nextId == q.nextId
    ensures |r.entries| == if n <= |q.entries| then |q.entries| - n else 0
    decreases n
  {
    if n == 0 || q.entries == [] then q else PopN(Pop(q), n - 1)
  }

  /** Waking `n` and then `m` is waking `n + m`. */
  lemma {:induction false} PopNStep(q: Queue, n: nat, m: nat)
    ensures PopN(PopN(q, n), m) == PopN(q, n + m)
    decreases n
  {
    if n > 0 && q.entries != [] {
      PopNStep(Pop(q), n - 1, m);
    }
  }

  /** `wake(n)` with wakers that may poll inline: a task for which `rejoins` holds registers again
      before the next one is woken. Its id is not above the watermark, so it gets a fresh one. */
  function WakeN(q: Queue, n: nat, rejoins: nat -> bool): Queue
    decreases n
  {
    if n == 0 || q.entries == [] then q else WakeN(WakeOne(q, rejoins), n - 1, rejoins)
  }

  function WakeOne(q: Queue, rejoins: nat -> bool): Queue
    requires q.entries != []
  {
    var task := q.entries[0].task;
    if rejoins(task) then Push(Pop(q), task) else Pop(q)
  }

  /** The tasks it wakes, in order. */
  function WokenTasks(q: Queue, n: nat, rejoins: nat -> bool): seq<nat>
    decreases n
  {
    if n == 0 || q.entries == [] then []
    else [q.entries[0].task] + WokenTasks(WakeOne(q, rejoins), n - 1, rejoins)
  }

  /** If nobody rejoins it pops. */
  lemma {:induction false} WakeWithoutRejoin(q: Queue, n: nat, rejoins: nat -> bool)
    requires forall task :: !rejoins(task)
    ensures WakeN(q, n, rejoins) == PopN(q, n)
    ensures |WokenTasks(q, n, rejoins)| == if n <= |q.entries| then n else |q.entries|
    decreases n
  {
    if n > 0 && q.entries != [] {
      WakeWithoutRejoin(Pop(q), n - 1, rejoins);
    }
  }

  /** Whoever rejoins, those who were queued are woken first, oldest first. */
  lemma {:induction false} OldestWokenFirst(q: Queue, n: nat, rejoins: nat -> bool, k: nat)
    requires k < n && k < |q.entries|
    ensures k < |WokenTasks(q, n, rejoins)| && WokenTasks(q, n, rejoins)[k] == q.entries[k].task
    decreases n
  {
    if k > 0 {
      OldestWokenFirst(WakeOne(q, rejoins), n - 1, rejoins, k - 1);
    }
  }

  /** `wake_all` counts the queue as a `u32`. */
  function WakeAllUnits(queued: nat): (units: u32) {
    if queued <= U32_MAX then queued else U32_MAX
  }

  /** Strictly sorted by id, everything queued lies above the watermark and below the next id. */
  ghost predicate Sorted(q: Queue) {
    && q.wokenUpto < q.nextId
    && (forall a, b :: 0 <= a < b < |q.entries| ==> q.entries[a].id < q.entries[b].id)
    && (forall a :: 0 <= a < |q.entries| ==> q.wokenUpto < q.entries[a].id < q.nextId)
  }

  /** An id that a live waiter may hold: issued, and either woken or still queued. */
  ghost predicate LiveId(q: Queue, id: nat) {
    id < q.nextId && (id <= q.wokenUpto || Queued(q, id))
  }

  // ---- The plain queue: membership tests, no watermark ----

  function PlainRegister(entries: seq<Entry>, nextId: nat, held: Option<nat>, task: nat): seq<Entry> {
    if held.Some? && IndexOf(entries, held.value).Some?
    then entries[IndexOf(entries, held.value).value := Entry(held.value, task)]
    else entries + [Entry(nextId, task)]
  }

  function PlainUnregister(entries: seq<Entry>, id: nat): (seq<Entry>, bool) {
    if IndexOf(entries, id).None? then (entries, false)
    else var k := IndexOf(entries, id).value; (entries[..k] + entries[k + 1..], true)
  }

  /** The watermark decides exactly what a membership test would: for an id that a
      live waiter holds, "above the watermark" and "queued" are the same, and both
      operations agree with the plain queue, result and contents. */
  lemma WatermarkRefinesPlain(q: Queue, id: nat, task: nat)
    requires Sorted(q) && LiveId(q, id)
    ensures Queued(q, id) <==> id > q.wokenUpto
    ensures Unregister(q, id).1 <==> Queued(q, id)
    ensures (Unregister(q, id).0.entries, Unregister(q, id).1) == PlainUnregister(q.entries, id)
    ensures Register(q, Some(id), task).0.entries == PlainRegister(q.entries, q.nextId, Some(id), task)
    ensures Register(q, Some(id), task).1 == if Queued(q, id) then id else q.nextId
  {
    var found := IndexOf(q.entries, id);
    if found.Some? {
      assert q.entries[found.value].id == id;
    }
  }

  // ---- Every operation keeps the order ----

  lemma IndexUnique(q: Queue, k: nat)
    requires Sorted(q) && k < |q.entries|
    ensures IndexOf(q.entries, q.entries[k].id) == Some(k)
  {
    var found := IndexOf(q.entries, q.entries[k].id);
    assert found.Some?;
  }

  lemma PushSorted(q: Queue, task: nat)
    requires Sorted(q)
    ensures Sorted(Push(q, task))
  {
  }

  lemma RemoveSorted(q: Queue, k: nat)
    requires Sorted(q) && k < |q.entries|
    ensures Sorted(RemoveAt(q, k))
  {
    var r := RemoveAt(q, k);
    forall a, b | 0 <= a < b < |r.entries|
      ensures r.entries[a].id < r.entries[b].id
    {
      assert r.entries[a] == q.entries[if a < k then a else a + 1];
      assert r.entries[b] == q.entries[if b < k then b else b + 1];
    }
    forall a | 0 <= a < |r.entries|
      ensures q.wokenUpto < r.entries[a].id < q.nextId
    {
      assert r.entries[a] == q.entries[if a < k then a else a + 1];
    }
  }

  lemma RemoveKeepsOthers(q: Queue, k: nat, e: Entry)
    requires k < |q.entries|
    requires e in q.entries && e != q.entries[k]
    ensures e in RemoveAt(q, k).entries
  {
    var b :| 0 <= b < |q.entries| && q.entries[b] == e;
    assert RemoveAt(q, k).entries[if b < k then b else b - 1] == e;
  }

  lemma PopSorted(q: Queue)
    requires Sorted(q) && q.entries != []
    ensures Sorted(Pop(q))
  {
  }
}
