/** One thread's pool, updated in place, for call-outs that do not re-enter. Most methods are tied
    to a function on the pool's state that a task of the protocol, running alone, computes
    (PoolSequential); `TryReserve` and `Warm` state their results outright. */
module LocalPoolModule {
  import opened PoolTypes
  import opened WaitQueue
  import opened PoolCore
  import opened PoolProtocol
  import opened PoolSequential
  import opened WaitersModule

  /** Wakers that only mark their tasks runnable. */
  function NobodyRejoins(task: nat): bool {
    false
  }

  class LocalPool {
    const cfg: Config
    var closed: bool
    var idle: seq<Conn>
    var slots: nat
    var connectionGauge: nat
    var idleGauge: nat
    var stats: Stats
    const waiters: Waiters
    /** Whether the cell around `idle` is borrowed. */
    var idleBorrowed: bool
    /** The connections dropped so far, in order. */
    var dropped: seq<Conn>

    ghost function View(clock: Time): Core
      reads this, waiters
    {
      Core(cfg, closed, clock, idle, slots, waiters.View(), Gauges(connectionGauge, idleGauge, waiters.gauge), stats)
    }

    ghost predicate Valid()
      reads this, waiters
    {
      waiters.Valid() && !idleBorrowed
    }

    constructor (cfg: Config)
      ensures Valid() && fresh(waiters)
      ensures View(0) == NewCore(cfg) && dropped == []
    {
      this.cfg := cfg;
      closed, idle, slots, connectionGauge, idleGauge := false, [], 0, 0, 0;
      stats := Stats(0, 0, 0, 0, 0, 0, 0, 0);
      waiters := new Waiters();
      idleBorrowed, dropped := false, [];
    }

    /** The call-out to connections' own `Drop`, made with neither cell borrowed. */
    method DropAll(conns: seq<Conn>)
      requires !idleBorrowed && !waiters.borrowed
      modifies this`dropped
      ensures dropped == old(dropped) + conns
    {
      dropped := dropped + conns;
    }

    method ReleaseSlots(n: nat, ghost clock: Time)
      requires Valid()
      modifies this`slots, this`connectionGauge
      ensures Valid() && View(clock) == PoolCore.ReleaseSlots(old(View(clock)), n)
    {
      slots := SatSub(slots, n);
      connectionGauge := SatSub(connectionGauge, n);
    }

    method NotifyWaiters(n: nat, ghost clock: Time)
      requires Valid()
      modifies waiters
      ensures Valid() && View(clock) == Notify(old(View(clock)), n)
    {
      ghost var queue := waiters.View();
      WakeWithoutRejoin(queue, NotifyUnits(View(clock), n), NobodyRejoins);
      if closed {
        var _ := waiters.WakeAll(NobodyRejoins, idleBorrowed);
      } else {
        var _ := waiters.Wake(n, NobodyRejoins, idleBorrowed);
      }
    }

    method ReleaseSlot(ghost clock: Time)
      requires Valid()
      modifies this`slots, this`connectionGauge, waiters
      ensures Valid() && View(clock) == ReleaseAndWake(old(View(clock)), 1)
    {
      ReleaseSlots(1, clock);
      NotifyWaiters(1, clock);
    }

    method PushIdle(conn: Conn, ghost clock: Time)
      requires Valid()
      modifies this`idle, this`idleGauge
      ensures Valid() && View(clock) == PoolCore.PushIdle(old(View(clock)), conn)
    {
      idle := idle + [conn];
      idleGauge := idleGauge + 1;
    }

    method PopIdle(ghost clock: Time) returns (conn: Option<Conn>)
      requires Valid()
      modifies this`idle, this`idleGauge
      ensures Valid()
      ensures old(idle) == [] ==> conn == None && View(clock) == old(View(clock))
      ensures old(idle) != [] ==>
                conn == Some(old(idle)[|old(idle)| - 1]) && View(clock) == PoolCore.PopIdle(old(View(clock)))
    {
      if idle == [] {
        return None;
      }
      conn := Some(idle[|idle| - 1]);
      idle := idle[..|idle| - 1];
      idleGauge := SatSub(idleGauge, 1);
    }

    /** Drop a connection, count it under its reason and free its slot. */
    method Discard(conn: Conn, why: Why, ghost clock: Time)
      requires Valid()
      modifies this`dropped, this`stats, this`slots, this`connectionGauge, waiters
      ensures Valid() && dropped == old(dropped) + [conn] && idle == old(idle)
      ensures View(clock) == ReleaseAndWake(old(View(clock)).(stats := NoteWhy(old(stats), why)), 1)
    {
      DropAll([conn]);
      stats := NoteWhy(stats, why);
      ReleaseSlot(clock);
    }

    /** Pop the newest idle connection, discarding any that have expired. */
    method PopFreshIdle(now: Time) returns (found: Option<Conn>)
      requires Valid()
      modifies this, waiters
      ensures Valid()
      ensures (View(now), found) == PopFresh(old(View(now)), now)
      ensures dropped == old(dropped) + Discarded(old(idle), now, cfg)
    {
      while true
        invariant Valid()
        invariant PopFresh(View(now), now) == PopFresh(old(View(now)), now)
        invariant dropped + Discarded(idle, now, cfg) == old(dropped) + Discarded(old(idle), now, cfg)
        decreases |idle|
      {
        ghost var before, idleBefore, droppedBefore := View(now), idle, dropped;
        found := PopIdle(now);
        if found.None? {
          return;
        }
        var reason := ExpiryOf(found.value, now, cfg);
        if reason.None? {
          return;
        }
        Discard(found.value, Aged(reason.value), now);
        assert View(now) == DiscardNewest(before, reason.value);
        PopFreshGoesOn(before, now, reason.value);
        DiscardedOne(droppedBefore, idleBefore, now, cfg);
      }
    }

    /** Separate the expired idle connections from the rest, counting each under its reason. */
    method Partition(now: Time) returns (kept: seq<Conn>, expired: seq<Conn>)
      modifies this`stats
      ensures kept == Kept(idle, now, cfg) && expired == Retired(idle, now, cfg)
      ensures stats == NoteRetired(old(stats), idle, now, cfg)
    {
      kept, expired := [], [];
      var i := 0;
      while i < |idle|
        invariant 0 <= i <= |idle|
        invariant kept == Kept(idle[..i], now, cfg) && expired == Retired(idle[..i], now, cfg)
        invariant stats == NoteRetired(old(stats), idle[..i], now, cfg)
      {
        assert idle[..i + 1][..i] == idle[..i];
        var reason := ExpiryOf(idle[i], now, cfg);
        if reason.Some? {
          stats := stats.NoteExpired(reason.value);
          expired := expired + [idle[i]];
        } else {
          kept := kept + [idle[i]];
        }
        i := i + 1;
      }
      assert idle[..i] == idle;
    }

    /** Detach the expired idle connections, under the borrow; nothing is dropped yet. */
    method Detach(now: Time) returns (expired: seq<Conn>)
      requires Valid()
      modifies this`idle, this`stats, this`idleBorrowed
      ensures Valid() && expired == Retired(old(idle), now, cfg)
      ensures View(now) == old(View(now)).(idle := Kept(old(idle), now, cfg), stats := NoteRetired(old(stats), old(idle), now, cfg))
    {
      idleBorrowed := true;
      var kept;
      kept, expired := Partition(now);
      idle := kept;
      idleBorrowed := false;
    }

    /** Drop the idle connections that have expired, free their slots and hand them on. */
    method Reap(now: Time) returns (reaped: nat)
      requires Valid()
      modifies this, waiters
      ensures Valid()
      ensures View(now) == ReapCore(old(View(now)))
      ensures dropped == old(dropped) + Retired(old(idle), now, cfg)
      ensures reaped == |Retired(old(idle), now, cfg)|
    {
      var expired := Detach(now);
      reaped := |expired|;
      DropAll(expired);
      if reaped > 0 {
        idleGauge := SatSub(idleGauge, reaped);
        ReleaseSlots(reaped, now);
        NotifyWaiters(reaped, now);
      }
    }

    /** Drop every idle connection. The waiters are notified even if there was none. */
    method Clear(ghost clock: Time) returns (n: nat)
      requires Valid()
      modifies this, waiters
      ensures Valid()
      ensures View(clock) == ClearCore(old(View(clock)))
      ensures dropped == old(dropped) + old(idle) && n == |old(idle)|
      ensures closed && |old(waiters.entries)| <= U32_MAX ==> waiters.entries == []
    {
      idleBorrowed := true;
      var drained := idle;
      idle := [];
      idleBorrowed := false;
      n := |drained|;
      DropAll(drained);
      if n > 0 {
        idleGauge := SatSub(idleGauge, n);
        stats := stats.(manual := stats.manual + n);
        ReleaseSlots(n, clock);
      }
      NotifyWaiters(n, clock);
    }

    /** The call-out to the manager, made with neither cell borrowed; `answer` is what it says. */
    method HasBroken(conn: Conn, answer: bool) returns (broken: bool)
      requires !idleBorrowed && !waiters.borrowed
      ensures broken == answer
    {
      broken := answer;
    }

    /** A lease is dropped: back to the idle list if the pool is open and the connection is
        sound and young enough, else dropped and its slot freed. */
    method ReturnLease(conn: Conn, answer: bool, now: Time)
      requires Valid()
      modifies this, waiters
      ensures Valid()
      ensures View(now) == ReturnCore(old(View(now)), conn, answer)
      ensures dropped == old(dropped) + if |idle| == |old(idle)| then [conn] else []
    {
      if closed {
        Discard(conn, Manual, now);
        return;
      }
      var broken := HasBroken(conn, answer);
      var reason := ExpiryOf(conn, now, cfg);
      if broken {
        Discard(conn, Broken, now);
      } else if reason.Some? {
        Discard(conn, Aged(reason.value), now);
      } else {
        PushIdle(conn.(lastUsed := now), now);
        NotifyWaiters(1, now);
      }
    }

    /** Reserve a slot if there is room. */
    method TryReserve(ghost clock: Time) returns (ok: bool)
      requires Valid()
      modifies this`slots, this`connectionGauge
      ensures Valid() && ok == (old(slots) < cfg.maxSize)
      ensures View(clock) == if ok then TakeSlot(old(View(clock))) else old(View(clock))
    {
      ok := slots < cfg.maxSize;
      if ok {
        slots := slots + 1;
        connectionGauge := connectionGauge + 1;
      }
    }

    /** How many connections a `warm` call has to open, and can. */
    function Missing(): nat
      reads this
    {
      ToWarm(|idle|, slots, cfg)
    }

    /** Park a connection just opened and wake one waiter for it. */
    method ParkOpened(conn: Conn, ghost now: Time)
      requires Valid() && !closed
      modifies this`idle, this`idleGauge, this`stats, waiters
      ensures Valid()
      ensures idle == old(idle) + [conn] && stats == old(stats).(created := old(stats).created + 1)
      ensures waiters.View() == PopN(old(waiters.View()), 1)
    {
      stats := stats.(created := stats.created + 1);
      PushIdle(conn, now);
      NotifyWaiters(1, now);
    }

    /** One turn of `warm`: reserve, dial, and park the connection or release the slot. */
    method WarmOnce(conn: Conn, dials: bool, ghost now: Time) returns (room: bool)
      requires Valid() && !closed
      modifies this`slots, this`connectionGauge, this`idle, this`idleGauge, this`stats, waiters
      ensures Valid() && room == (old(slots) < cfg.maxSize)
      ensures !room || !dials ==> idle == old(idle) && slots == old(slots) && stats == old(stats)
      ensures !room ==> waiters.View() == old(waiters.View())
      ensures room ==> waiters.View() == PopN(old(waiters.View()), 1)
      ensures room && dials ==> idle == old(idle) + [conn] && slots == old(slots) + 1
      ensures room && dials ==> stats == old(stats).(created := old(stats).created + 1)
    {
      room := TryReserve(now);
      if room && dials {
        ParkOpened(conn, now);
      } else if room {
        ReleaseSlot(now);
      }
    }

    /** Open connections until the floor is met or there is no room. Dial `k` of the call
        succeeds iff `dials(k)`; its connection gets the identity `firstId + k` and is opened and
        parked at `openedAt(k)`. On a failed dial the reserved slot is released and what was opened
        before stays parked. */
    method Warm(openedAt: nat -> Time, dials: nat -> bool, firstId: nat) returns (made: nat, ok: bool)
      requires Valid()
      modifies this, waiters
      ensures Valid() && closed == old(closed)
      ensures closed ==> made == 0 && ok && waiters.View() == old(waiters.View())
      ensures !closed ==> ok == (forall k :: 0 <= k < old(Missing()) ==> dials(k))
      ensures !closed && ok ==> made == old(Missing())
      ensures !ok ==> made < old(Missing()) && !dials(made) && forall k :: 0 <= k < made ==> dials(k)
      ensures slots == old(slots) + made && idle == old(idle) + NewConns(firstId, made, openedAt)
      ensures stats == old(stats).(created := old(stats).created + made)
      ensures !closed ==> waiters.View() == PopN(old(waiters.View()), if ok then made else made + 1)
      ensures !closed && ok ==> |idle| >= cfg.minIdle || slots >= cfg.maxSize
    {
      made, ok := 0, true;
      if closed {
        return;
      }
      while |idle| < cfg.minIdle
        invariant Valid() && !closed && ok
        invariant Missing() == old(Missing()) - made
        invariant forall k :: 0 <= k < made ==> dials(k)
        invariant slots == old(slots) + made && idle == old(idle) + NewConns(firstId, made, openedAt)
        invariant stats == old(stats).(created := old(stats).created + made)
        invariant waiters.View() == PopN(old(waiters.View()), made)
        decreases cfg.minIdle - |idle|
      {
        PopNStep(old(waiters.View()), made, 1);
        NextConn(old(idle), firstId, made, openedAt);
        var conn := NewConn(firstId, made, openedAt);
        var room := WarmOnce(conn, dials(made), openedAt(made));
        if !room {
          break;
        }
        if !dials(made) {
          ok := false;
          return;
        }
        made := made + 1;
      }
    }
  }

  lemma PopFreshGoesOn(c: Core, now: Time, reason: Expiry)
    requires c.idle != [] && ExpiryOf(c.idle[|c.idle| - 1], now, c.cfg) == Some(reason)
    ensures PopFresh(c, now) == PopFresh(DiscardNewest(c, reason), now)
  {
  }

  lemma DiscardedOne(dropped: seq<Conn>, idle: seq<Conn>, now: Time, cfg: Config)
    requires idle != [] && Expired(idle[|idle| - 1], now, cfg)
    ensures dropped + [idle[|idle| - 1]] + Discarded(idle[..|idle| - 1], now, cfg) == dropped + Discarded(idle, now, cfg)
  {
  }
}
