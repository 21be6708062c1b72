/** Values shared by every part of the pool model: the resolved configuration,
    a connection with its two timestamps, and the rule that retires it. */
module PoolTypes {

  datatype Option<+T> = None | Some(value: T)

  const U32_MAX: nat := 0xFFFF_FFFF

  type u32 = n: nat | n <= U32_MAX

  /** Instants and durations are natural numbers of some fixed unit. */
  type Time = nat

  datatype Config = Config(
    maxSize: u32,
    minIdle: u32,
    idleTimeout: Option<Time>,
    maxLifetime: Option<Time>,
    testOnCheckOut: bool,
    retryConnection: bool)
  {
    /** What `Builder::build` guarantees of a configuration it accepts. */
    predicate Valid() {
      1 <= maxSize && minIdle <= maxSize
    }
  }

  /** `Builder::build`: refuses a zero `max_size`, caps `min_idle`. */
  function Build(requested: Config): (r: Option<Config>)
    ensures r.None? <==> requested.maxSize == 0
    ensures r.Some? ==> r.value.Valid() && r.value.maxSize == requested.maxSize
    ensures r.Some? ==> r.value == requested.(minIdle := r.value.minIdle) && r.value.minIdle <= requested.minIdle
    ensures r.Some? ==> r.value.minIdle == requested.minIdle || r.value.minIdle == requested.maxSize
  {
    if requested.maxSize == 0 then None
    else Some(requested.(minIdle := if requested.minIdle <= requested.maxSize then requested.minIdle
                                    else requested.maxSize))
  }

  datatype Conn = Conn(id: nat, createdAt: Time, lastUsed: Time)

  datatype Expiry = IdleTimeout | MaxLifetime

  /** `Instant::duration_since`, which is zero for an instant in the future. */
  function Since(now: Time, past: Time): Time {
    if past <= now then now - past else 0
  }

  /** Age is checked before idleness, so a connection that is both is counted as too old. */
  function ExpiryOf(conn: Conn, now: Time, cfg: Config): Option<Expiry> {
    if cfg.maxLifetime.Some? && Since(now, conn.createdAt) >= cfg.maxLifetime.value then Some(MaxLifetime)
    else if cfg.idleTimeout.Some? && Since(now, conn.lastUsed) >= cfg.idleTimeout.value then Some(IdleTimeout)
    else None
  }

  predicate Expired(conn: Conn, now: Time, cfg: Config) {
    ExpiryOf(conn, now, cfg).Some?
  }

  /** Saturating subtraction, as the slot counter and the gauges use it. */
  function SatSub(a: nat, b: nat): nat {
    if b <= a then a - b else 0
  }

  ghost predicate SortedByLastUsed(conns: seq<Conn>) {
    forall a, b :: 0 <= a < b < |conns| ==> conns[a].lastUsed <= conns[b].lastUsed
  }
}
