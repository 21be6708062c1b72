/** The state of one thread's pool (`Inner`, its waiter queue and its metrics block)
    as a value, and the accounting operations on it. Each happens in one go: no
    foreign code runs inside. */
module PoolCore {
  import opened PoolTypes
  import opened WaitQueue

  /** The live gauges that mirror `slots`, the idle list and the waiter queue. */
  datatype Gauges = Gauges(connections: nat, idle: nat, waiters: nat)

  datatype Stats = Stats(
    direct: nat, waited: nat, timedOut: nat, created: nat,
    broken: nat, idleTimeout: nat, maxLifetime: nat, manual: nat)
  {
    function Closed(): nat {
      broken + idleTimeout + maxLifetime + manual
    }

    function NoteExpired(reason: Expiry): Stats {
      match reason
      case IdleTimeout => this.(idleTimeout := idleTimeout + 1)
      case MaxLifetime => this.(maxLifetime := maxLifetime + 1)
    }
  }

  datatype Core = Core(
    cfg: Config,
    closed: bool,
    clock: Time,
    idle: seq<Conn>,
    slots: nat,
    queue: Queue,
    gauges: Gauges,
    stats: Stats)

  function NewCore(cfg: Config): Core {
    Core(cfg, false, 0, [], 0, EMPTY, Gauges(0, 0, 0), Stats(0, 0, 0, 0, 0, 0, 0, 0))
  }

  function TakeSlot(c: Core): Core {
    c.(slots := c.slots + 1, gauges := c.gauges.(connections := c.gauges.connections + 1))
  }

  function ReleaseSlots(c: Core, n: nat): Core {
    c.(slots := SatSub(c.slots, n), gauges := c.gauges.(connections := SatSub(c.gauges.connections, n)))
  }

  function PushIdle(c: Core, conn: Conn): Core {
    c.(idle := c.idle + [conn], gauges := c.gauges.(idle := c.gauges.idle + 1))
  }

  function PopIdle(c: Core): Core
    requires c.idle != []
  {
    c.(idle := c.idle[..|c.idle| - 1], gauges := c.gauges.(idle := SatSub(c.gauges.idle, 1)))
  }

  /** The idle gauge follows a detached batch only once the batch has been dropped. */
  function LowerIdleGauge(c: Core, n: nat): Core {
    c.(gauges := c.gauges.(idle := SatSub(c.gauges.idle, n)))
  }

  function SetQueue(c: Core, q: Queue): Core {
    c.(queue := q, gauges := c.gauges.(waiters := |q.entries|))
  }

  /** How many waiters `notify(n)` sets out to wake: all of them once the pool is closed. */
  function NotifyUnits(c: Core, n: nat): nat {
    if c.closed then WakeAllUnits(|c.queue.entries|) else n
  }

  /** What `wait_ready` waits for. */
  predicate ReadyNow(c: Core) {
    c.closed || c.idle != [] || c.slots < c.cfg.maxSize
  }

  function RecordAcquire(c: Core, waited: bool): Core {
    c.(stats := if waited then c.stats.(waited := c.stats.waited + 1)
                else c.stats.(direct := c.stats.direct + 1))
  }

  // ---- The partition at the heart of `reap` ----

  /** The idle connections that a reap at `now` keeps, in order. */
  function Kept(idle: seq<Conn>, now: Time, cfg: Config): (r: seq<Conn>)
    ensures |r| <= |idle|
  {
    if idle == [] then []
    else
      var rest := Kept(idle[..|idle| - 1], now, cfg);
      if Expired(idle[|idle| - 1], now, cfg) then rest else rest + [idle[|idle| - 1]]
  }

  /** The idle connections that a reap at `now` retires, in order. */
  function Retired(idle: seq<Conn>, now: Time, cfg: Config): (r: seq<Conn>)
    ensures |r| + |Kept(idle, now, cfg)| == |idle|
  {
    if idle == [] then []
    else
      var rest := Retired(idle[..|idle| - 1], now, cfg);
      if Expired(idle[|idle| - 1], now, cfg) then rest + [idle[|idle| - 1]] else rest
  }

  /** A reap keeps exactly the unexpired connections and retires exactly the expired ones. */
  lemma {:induction false} ReapSplitsByExpiry(idle: seq<Conn>, now: Time, cfg: Config, conn: Conn)
    ensures conn in Kept(idle, now, cfg) <==> conn in idle && !Expired(conn, now, cfg)
    ensures conn in Retired(idle, now, cfg) <==> conn in idle && Expired(conn, now, cfg)
  {
    if idle != [] {
      var n := |idle| - 1;
      ReapSplitsByExpiry(idle[..n], now, cfg, conn);
      assert idle == idle[..n] + [idle[n]];
    }
  }

  /** The places in the list of the connections that have expired, or of those that have not. */
  function Places(idle: seq<Conn>, now: Time, cfg: Config, expired: bool): seq<nat> {
    if idle == [] then []
    else
      var last := |idle| - 1;
      Places(idle[..last], now, cfg, expired) + if Expired(idle[last], now, cfg) == expired then [last] else []
  }

  /** `conns` are the elements of `idle` at `places`, in the order of the list. */
  ghost predicate TakenFrom(conns: seq<Conn>, idle: seq<Conn>, places: seq<nat>) {
    && |conns| == |places|
    && (forall k :: 0 <= k < |places| ==> places[k] < |idle| && conns[k] == idle[places[k]])
    && (forall j, k :: 0 <= j < k < |places| ==> places[j] < places[k])
  }

  lemma TakeOneMore(conns: seq<Conn>, idle: seq<Conn>, places: seq<nat>, conn: Conn)
    requires TakenFrom(conns, idle, places)
    ensures TakenFrom(conns, idle + [conn], places)
    ensures TakenFrom(conns + [conn], idle + [conn], places + [|idle|])
  {
  }

  /** Those places are exactly the ones of the expired, or of the other, connections. */
  lemma {:induction false} PlacesExact(idle: seq<Conn>, now: Time, cfg: Config, expired: bool, p: nat)
    ensures p in Places(idle, now, cfg, expired) <==> p < |idle| && Expired(idle[p], now, cfg) == expired
  {
    if idle != [] {
      PlacesExact(idle[..|idle| - 1], now, cfg, expired, p);
    }
  }

  /** Both parts of a reap keep the order of the list. */
  lemma {:induction false} ReapKeepsOrder(idle: seq<Conn>, now: Time, cfg: Config)
    ensures TakenFrom(Kept(idle, now, cfg), idle, Places(idle, now, cfg, false))
    ensures TakenFrom(Retired(idle, now, cfg), idle, Places(idle, now, cfg, true))
  {
    if idle != [] {
      var n := |idle| - 1;
      var before := idle[..n];
      assert idle == before + [idle[n]];
      ReapKeepsOrder(before, now, cfg);
      TakeOneMore(Kept(before, now, cfg), before, Places(before, now, cfg, false), idle[n]);
      TakeOneMore(Retired(before, now, cfg), before, Places(before, now, cfg, true), idle[n]);
    }
  }

  /** One count per retired connection, under its own reason. */
  function NoteRetired(stats: Stats, idle: seq<Conn>, now: Time, cfg: Config): (r: Stats)
    ensures r.Closed() == stats.Closed() + |Retired(idle, now, cfg)|
    ensures r == stats.(idleTimeout := r.idleTimeout, maxLifetime := r.maxLifetime)
  {
    if idle == [] then stats
    else
      var before := NoteRetired(stats, idle[..|idle| - 1], now, cfg);
      match ExpiryOf(idle[|idle| - 1], now, cfg)
      case None => before
      case Some(reason) => before.NoteExpired(reason)
  }

  /** How many of them have expired for the given reason. */
  function CountFor(idle: seq<Conn>, now: Time, cfg: Config, reason: Expiry): nat {
    if idle == [] then 0
    else CountFor(idle[..|idle| - 1], now, cfg, reason)
         + if ExpiryOf(idle[|idle| - 1], now, cfg) == Some(reason) then 1 else 0
  }

  /** Each counter grows by exactly the connections retired for its own reason. */
  lemma {:induction false} RetiredCountedByReason(stats: Stats, idle: seq<Conn>, now: Time, cfg: Config)
    ensures NoteRetired(stats, idle, now, cfg) == stats.(
            idleTimeout := stats.idleTimeout + CountFor(idle, now, cfg, IdleTimeout),
            maxLifetime := stats.maxLifetime + CountFor(idle, now, cfg, MaxLifetime))
  {
    if idle != [] {
      RetiredCountedByReason(stats, idle[..|idle| - 1], now, cfg);
    }
  }

  lemma {:induction false} CountForFirst(first: Conn, rest: seq<Conn>, now: Time, cfg: Config, reason: Expiry)
    ensures CountFor([first] + rest, now, cfg, reason)
            == CountFor(rest, now, cfg, reason) + if ExpiryOf(first, now, cfg) == Some(reason) then 1 else 0
  {
    var n := |rest| - 1;
    if rest == [] {
      assert [first] + rest == [first];
    } else {
      CountForFirst(first, rest[..n], now, cfg, reason);
      assert ([first] + rest)[..n + 1] == [first] + rest[..n];
    }
  }
}
