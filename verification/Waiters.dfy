/** The FIFO of parked tasks, updated in place. */
module WaitersModule {
  import opened PoolTypes
  import Q = WaitQueue

  class Waiters {
    var nextId: nat
    var wokenUpto: nat
    var entries: seq<Q.Entry>
    /** The cross-thread mirror of the queue length. */
    var gauge: nat
    /** Whether the cell around `entries` is borrowed. */
    var borrowed: bool
    ghost var wokenLog: seq<nat>
    ghost var withdrawn: seq<nat>

    ghost function View(): Q.Queue
      reads this
    {
      Q.Queue(nextId, wokenUpto, entries, wokenLog, withdrawn)
    }

    ghost predicate Valid()
      reads this
    {
      Q.Sorted(View()) && gauge == |entries| && !borrowed
    }

    constructor ()
      ensures Valid() && View() == Q.EMPTY
    {
      nextId, wokenUpto, entries, gauge, borrowed := 1, 0, [], 0, false;
      wokenLog, withdrawn := [], [];
    }

    /** Binary search by id: finds a queued waiter, always. */
    method Search(id: nat) returns (pos: Option<nat>)
      requires Valid()
      ensures pos == Q.IndexOf(entries, id)
      ensures pos.Some? <==> Q.Queued(View(), id)
    {
      var lo, hi := 0, |entries|;
      while lo < hi
        invariant 0 <= lo <= hi <= |entries|
        invariant forall k :: 0 <= k < lo ==> entries[k].id < id
        invariant forall k :: hi <= k < |entries| ==> entries[k].id > id
      {
        var mid := (lo + hi) / 2;
        if entries[mid].id == id {
          Q.IndexUnique(View(), mid);
          return Some(mid);
        } else if entries[mid].id < id {
          lo := mid + 1;
        } else {
          hi := mid;
        }
      }
      pos := None;
    }

    /** Queue the waiter that holds `held`, or refresh its waker if it is still queued. */
    method Register(held: Option<nat>, task: nat) returns (id: nat)
      requires Valid()
      modifies this
      ensures Valid()
      ensures (View(), id) == Q.Register(old(View()), held, task)
    {
      if held.Some? && held.value > wokenUpto {
        var pos := Search(held.value);
        if pos.Some? {
          entries := entries[pos.value := Q.Entry(held.value, task)];
          id := held.value;
          return;
        }
      }
      Q.PushSorted(View(), task);
      id := nextId;
      nextId := nextId + 1;
      entries := entries + [Q.Entry(id, task)];
      gauge := |entries|;
    }

    /** Take `id` off the queue; false means that it had been woken. */
    method Unregister(id: nat) returns (found: bool)
      requires Valid()
      modifies this
      ensures Valid()
      ensures (View(), found) == Q.Unregister(old(View()), id)
    {
      if id <= wokenUpto {
        return false;
      }
      var pos := Search(id);
      if pos.None? {
        return false;
      }
      Q.RemoveSorted(View(), pos.value);
      entries := entries[..pos.value] + entries[pos.value + 1..];
      withdrawn := withdrawn + [id];
      gauge := |entries|;
      found := true;
    }

    /** The call-out to a waker, made with neither this queue nor the idle list borrowed. Its task
        becomes runnable, or polls inline and registers again under a fresh id. */
    method RunWaker(next: Q.Entry, rejoin: bool, ghost idleBorrowed: bool)
      requires Valid() && !idleBorrowed && next.id <= wokenUpto
      modifies this
      ensures Valid()
      ensures View() == if rejoin then Q.Push(old(View()), next.task) else old(View())
    {
      if rejoin {
        var _ := Register(Some(next.id), next.task);
      }
    }

    /** Take the oldest waiter off the queue and run its waker. */
    method WakeNext(rejoins: nat -> bool, ghost idleBorrowed: bool) returns (task: nat)
      requires Valid() && !idleBorrowed && entries != []
      modifies this
      ensures Valid()
      ensures task == old(entries)[0].task && View() == Q.WakeOne(old(View()), rejoins)
    {
      Q.PopSorted(View());
      borrowed := true;
      var next := entries[0];
      entries := entries[1..];
      gauge := |entries|;
      borrowed := false;
      wokenUpto := next.id;
      wokenLog := wokenLog + [next.id];
      RunWaker(next, rejoins(next.task), idleBorrowed);
      task := next.task;
    }

    /** Wake up to `n` waiters, oldest first. Returns the tasks woken, in order. */
    method Wake(n: nat, rejoins: nat -> bool, ghost idleBorrowed: bool) returns (woken: seq<nat>)
      requires Valid() && !idleBorrowed
      modifies this
      ensures Valid()
      ensures View() == Q.WakeN(old(View()), n, rejoins) && woken == Q.WokenTasks(old(View()), n, rejoins)
      ensures OldestFirst(old(entries), n, woken)
    {
      ghost var before := View();
      woken := [];
      var i := 0;
      while i < n && entries != []
        invariant 0 <= i <= n && Valid()
        invariant Q.WakeN(View(), n - i, rejoins) == Q.WakeN(before, n, rejoins)
        invariant woken + Q.WokenTasks(View(), n - i, rejoins) == Q.WokenTasks(before, n, rejoins)
      {
        ghost var was := woken;
        var task := WakeNext(rejoins, idleBorrowed);
        woken := woken + [task];
        i := i + 1;
        Regroup(was, task, Q.WokenTasks(View(), n - i, rejoins));
      }
      assert woken + [] == woken;
      FirstTasks(before, n, rejoins);
    }

    /** Wake as many as are queued when it begins. */
    method WakeAll(rejoins: nat -> bool, ghost idleBorrowed: bool) returns (woken: seq<nat>)
      requires Valid() && !idleBorrowed
      modifies this
      ensures Valid()
      ensures View() == Q.WakeN(old(View()), Q.WakeAllUnits(|old(entries)|), rejoins)
      ensures |old(entries)| <= U32_MAX && (forall task :: !rejoins(task)) ==> entries == []
    {
      ghost var before := View();
      var n := if |entries| <= U32_MAX then |entries| else U32_MAX;
      woken := Wake(n, rejoins, idleBorrowed);
      if forall task :: !rejoins(task) {
        Q.WakeWithoutRejoin(before, n, rejoins);
      }
    }
  }

  lemma Regroup(a: seq<nat>, b: nat, c: seq<nat>)
    ensures a + [b] + c == a + ([b] + c)
  {
  }

  /** The `k`-th task woken is that of the `k`-th entry. */
  predicate WokenAt(entries: seq<Q.Entry>, woken: seq<nat>, k: nat)
    requires k < |entries|
  {
    k < |woken| && woken[k] == entries[k].task
  }

  /** The tasks woken begin with those of the oldest entries, in order, up to `n` of them. */
  predicate OldestFirst(entries: seq<Q.Entry>, n: nat, woken: seq<nat>) {
    forall k :: 0 <= k < n && k < |entries| ==> WokenAt(entries, woken, k)
  }

  lemma FirstTasks(q: Q.Queue, n: nat, rejoins: nat -> bool)
    ensures OldestFirst(q.entries, n, Q.WokenTasks(q, n, rejoins))
  {
    var woken := Q.WokenTasks(q, n, rejoins);
    forall k | 0 <= k < n && k < |q.entries|
      ensures WokenAt(q.entries, woken, k)
    {
      Q.OldestWokenFirst(q, n, rejoins, k);
    }
  }
}
