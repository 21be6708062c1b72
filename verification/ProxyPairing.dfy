/** The proxy's exchanges over shared pooled upstreams: who gets which response. Every await of
    `handle_client` is a point where other clients, the origin and the pool may act. */
module ProxyPairing {
  import opened HttpText
  import opened HttpFraming
  import opened HttpStream

  /** The `nth` request of a client. */
  datatype Ask = Ask(client: nat, nth: nat, bytes: seq<Byte>)

  datatype Place = Idle | Leased(client: nat) | Retired

  /** An upstream: `framed` state, and its history. `written` are the requests whose writing has
      begun, `answers` what the origin has sent, in pieces of its choice, `flight` the part of it
      the proxy has not read, `drained` the responses taken out of the buffer. */
  datatype Upstream = Upstream(
    place: Place,
    healthy: bool,
    buf: seq<Byte>,
    flight: seq<Byte>,
    written: seq<Ask>,
    answers: seq<seq<Byte>>,
    drained: seq<seq<Byte>>)

  /** A response handed to a client: the `nth` drained from upstream `up`. */
  datatype Delivery = Delivery(up: nat, nth: nat, bytes: seq<Byte>)

  datatype Phase = Ready | Waiting | Exchanging(up: nat, writing: bool) | Gone

  /** A client: its phase, the requests read from it and the responses obtained for it. */
  datatype Client = Client(phase: Phase, asked: seq<seq<Byte>>, got: seq<Delivery>)

  datatype State = State(clients: seq<Client>, ups: seq<Upstream>)

  datatype Event =
    | Arrive
    | Asks(c: nat, request: seq<Byte>) // `read_message` on the client gave a request
    | Leaves(c: nat) // the client closed, failed, was refused, or could not be written to
    | NoUpstream(c: nat) // `get` failed
    | LeaseIdle(c: nat, u: nat) // `get` gave a parked upstream; the request is being written
    | LeaseNew(c: nat) // `get` dialled one
    | Written(c: nat)
    | Fails(c: nat) // the write or the read failed, or the upstream closed
    | Reads(c: nat, n: nat) // a read gave `n` bytes
    | Origin(u: nat, bytes: seq<Byte>) // the origin sends
    | Retires(u: nat) // the pool discards a parked upstream
    | Cancels(c: nat, lost: nat) // the client's task is dropped; its read in progress had `lost` bytes

  const Init := State([], [])

  function Fresh(): Upstream {
    Upstream(Idle, true, [], [], [], [], [])
  }

  predicate InPhase(s: State, c: nat, phase: Phase) {
    c < |s.clients| && s.clients[c].phase == phase
  }

  predicate InExchange(s: State, c: nat) {
    c < |s.clients| && s.clients[c].phase.Exchanging? && s.clients[c].phase.up < |s.ups|
  }

  predicate Parked(s: State, u: nat) {
    u < |s.ups| && s.ups[u].place.Idle?
  }

  function SetPhase(s: State, c: nat, phase: Phase): State
    requires c < |s.clients|
  {
    s.(clients := s.clients[c := s.clients[c].(phase := phase)])
  }

  function SetUp(s: State, u: nat, up: Upstream): State
    requires u < |s.ups|
  {
    s.(ups := s.ups[u := up])
  }

  /** The pool's `Drop` of a lease: park it, unless `has_broken` says no. */
  function Return(up: Upstream): Upstream {
    up.(place := if up.healthy then Idle else Retired)
  }

  /** The lease begins the writing of the client's latest request. */
  function Begin(s: State, c: nat, u: nat): State
    requires InPhase(s, c, Waiting) && s.clients[c].asked != [] && u < |s.ups|
  {
    var client, up := s.clients[c], s.ups[u];
    var n := |client.asked| - 1;
    SetUp(SetPhase(s, c, Exchanging(u, true)), u,
          up.(place := Leased(c), written := up.written + [Ask(c, n, client.asked[n])]))
  }

  /** The exchange failed: the upstream is flagged and returned, the client told and dismissed. */
  function Abandon(s: State, c: nat): State
    requires InExchange(s, c)
  {
    var u := s.clients[c].phase.up;
    SetUp(SetPhase(s, c, Gone), u, Return(s.ups[u].(healthy := false)))
  }

  /** A whole response is in the buffer: drain it, flag an upstream with bytes left over, return
      it, and give the response to the client. */
  function HandOver(s: State, c: nat, total: nat): State
    requires InExchange(s, c) && total <= |s.ups[s.clients[c].phase.up].buf|
  {
    var client, u := s.clients[c], s.clients[c].phase.up;
    var up := s.ups[u];
    var response, rest := up.buf[..total], up.buf[total..];
    SetUp(s.(clients := s.clients[c := client.(phase := Ready, got := client.got + [Delivery(u, |up.drained|, response)])]),
          u, Return(up.(buf := rest, drained := up.drained + [response], healthy := up.healthy && rest == [])))
  }

  /** One turn of `read_message` on the upstream: decide on what is buffered. */
  function Decide(s: State, c: nat): State
    requires InExchange(s, c)
  {
    match Parse(s.ups[s.clients[c].phase.up].buf, Response)
    case Complete(total) => HandOver(s, c, total)
    case Incomplete => s
    case Objection(_) => Abandon(s, c)
  }

  function Receive(s: State, c: nat, n: nat): State
    requires InExchange(s, c) && 1 <= n <= |s.ups[s.clients[c].phase.up].flight|
  {
    var u := s.clients[c].phase.up;
    var up := s.ups[u];
    SetUp(s, u, up.(buf := up.buf + up.flight[..n], flight := up.flight[n..]))
  }

  /** A read in progress has taken the buffer out; dropped, it takes the buffer and what it had
      read with it. */
  function LoseRead(up: Upstream, lost: nat): Upstream {
    up.(buf := [], flight := if 1 <= lost <= |up.flight| then up.flight[lost..] else up.flight)
  }

  /** One step; an event that is not possible changes nothing. */
  function Step(s: State, e: Event): State {
    match e
    case Arrive => s.(clients := s.clients + [Client(Ready, [], [])])
    case Asks(c, request) =>
      if !InPhase(s, c, Ready) then s
      else s.(clients := s.clients[c := s.clients[c].(phase := Waiting, asked := s.clients[c].asked + [request])])
    case Leaves(c) => if InPhase(s, c, Ready) then SetPhase(s, c, Gone) else s
    case NoUpstream(c) => if InPhase(s, c, Waiting) then SetPhase(s, c, Gone) else s
    case LeaseIdle(c, u) =>
      if !InPhase(s, c, Waiting) || !Parked(s, u) || s.clients[c].asked == [] then s
      else if !s.ups[u].healthy then SetUp(s, u, s.ups[u].(place := Retired)) // `is_valid` refuses it
      else Begin(s, c, u)
    case LeaseNew(c) =>
      if !InPhase(s, c, Waiting) || s.clients[c].asked == [] then s
      else Begin(s.(ups := s.ups + [Fresh()]), c, |s.ups|)
    case Written(c) =>
      if InExchange(s, c) then Decide(SetPhase(s, c, s.clients[c].phase.(writing := false)), c) else s
    case Fails(c) => if InExchange(s, c) then Abandon(s, c) else s
    case Reads(c, n) =>
      if !InExchange(s, c) || s.clients[c].phase.writing || !(1 <= n <= |s.ups[s.clients[c].phase.up].flight|) then s
      else Decide(Receive(s, c, n), c)
    case Origin(u, bytes) =>
      if u < |s.ups| then
        SetUp(s, u, s.ups[u].(flight := s.ups[u].flight + bytes, answers := s.ups[u].answers + [bytes]))
      else s
    case Retires(u) => if Parked(s, u) then SetUp(s, u, s.ups[u].(place := Retired)) else s
    case Cancels(c, lost) =>
      if InExchange(s, c) then
        var u := s.clients[c].phase.up;
        var up := if s.clients[c].phase.writing then s.ups[u] else LoseRead(s.ups[u], lost);
        SetUp(SetPhase(s, c, Gone), u, Return(up)) // the health flag was not touched
      else if c < |s.clients| then SetPhase(s, c, Gone)
      else s
  }

  function Run(s: State, events: seq<Event>): State
    decreases |events|
  {
    if events == [] then s else Run(Step(s, events[0]), events[1..])
  }

  // ---- The discipline ----

  /** The nth response drained is the answer to the nth request written, and both are `d`'s. */
  predicate Matches(s: State, c: nat, i: nat, d: Delivery)
    requires c < |s.clients| && i < |s.clients[c].asked|
  {
    && d.up < |s.ups|
    && var up := s.ups[d.up];
    && d.nth < |up.drained| <= |up.written|
    && up.written[d.nth] == Ask(c, i, s.clients[c].asked[i]) && up.drained[d.nth] == d.bytes
  }

  predicate ClientOk(s: State, c: nat)
    requires c < |s.clients|
  {
    var client := s.clients[c];
    && |client.got| <= |client.asked|
    && (client.phase.Ready? ==> |client.got| == |client.asked|)
    && (client.phase.Waiting? || client.phase.Exchanging? ==> |client.got| + 1 == |client.asked|)
    && (client.phase.Exchanging? ==> client.phase.up < |s.ups| && s.ups[client.phase.up].place == Leased(c))
    && forall i :: 0 <= i < |client.got| ==> Matches(s, c, i, client.got[i])
  }

  /** A parked upstream is healthy, its buffer is empty, and as many responses were drained from
      it as requests were written to it. A leased one is one response behind, for its client. */
  predicate UpOk(s: State, u: nat)
    requires u < |s.ups|
  {
    var up := s.ups[u];
    match up.place
    case Idle => up.healthy && up.buf == [] && |up.drained| == |up.written|
    case Leased(c) =>
      && up.healthy && |up.drained| + 1 == |up.written|
      && c < |s.clients| && s.clients[c].phase.Exchanging? && s.clients[c].phase.up == u
      && s.clients[c].asked != []
      && var n := |s.clients[c].asked| - 1;
      up.written[|up.drained|] == Ask(c, n, s.clients[c].asked[n])
    case Retired => |up.drained| <= |up.written|
  }

  ghost predicate Disciplined(s: State) {
    && (forall c :: 0 <= c < |s.clients| ==> ClientOk(s, c))
    && (forall u :: 0 <= u < |s.ups| ==> UpOk(s, u))
  }

  /** A task dropped between leasing an upstream and draining its response. */
  predicate MidExchange(s: State, e: Event) {
    e.Cancels? && InExchange(s, e.c)
  }

  // ---- Every step keeps it ----

  predicate UpGrows(up: Upstream, up': Upstream) {
    && |up.written| <= |up'.written| && up.written == up'.written[..|up.written|]
    && |up.drained| <= |up'.drained| && up.drained == up'.drained[..|up.drained|]
  }

  /** Histories only grow. */
  ghost predicate Grows(s: State, s': State) {
    && |s.ups| <= |s'.ups| && |s.clients| <= |s'.clients|
    && (forall u :: 0 <= u < |s.ups| ==> UpGrows(s.ups[u], s'.ups[u]))
  }

  lemma MatchesKept(s: State, s': State, c: nat, i: nat, d: Delivery)
    requires c < |s.clients| && i < |s.clients[c].asked| && Matches(s, c, i, d)
    requires Grows(s, s') && d.up < |s'.ups| && |s'.ups[d.up].drained| <= |s'.ups[d.up].written|
    requires i < |s'.clients[c].asked| && s'.clients[c].asked[i] == s.clients[c].asked[i]
    ensures Matches(s', c, i, d)
  {
    assert UpGrows(s.ups[d.up], s'.ups[d.up]);
  }

  /** A client whose requests and responses did not change stays right while its upstream, if it
      has one, stays its own. */
  lemma ClientKept(s: State, s': State, c: nat)
    requires c < |s.clients| && ClientOk(s, c) && Grows(s, s')
    requires forall u :: 0 <= u < |s'.ups| ==> |s'.ups[u].drained| <= |s'.ups[u].written|
    requires s'.clients[c].asked == s.clients[c].asked && s'.clients[c].got == s.clients[c].got
    requires var p, p' := s.clients[c].phase, s'.clients[c].phase;
             || p'.Gone?
             || (p' == p && (p.Exchanging? ==> p.up < |s'.ups| && s'.ups[p.up].place == Leased(c)))
             || (p.Waiting? && p'.Exchanging? && p'.up < |s'.ups| && s'.ups[p'.up].place == Leased(c))
             || (p.Exchanging? && p'.Exchanging? && p'.up < |s'.ups| && s'.ups[p'.up].place == Leased(c))
    ensures ClientOk(s', c)
  {
    forall i | 0 <= i < |s.clients[c].got|
      ensures Matches(s', c, i, s.clients[c].got[i])
    {
      MatchesKept(s, s', c, i, s.clients[c].got[i]);
    }
  }

  lemma DrainedWithin(s: State, u: nat)
    requires u < |s.ups| && UpOk(s, u)
    ensures |s.ups[u].drained| <= |s.ups[u].written|
  {
  }

  /** Only client `c` and upstream `u` changed, and not the client's history. */
  ghost predicate OnlyThese(s: State, s': State, c: nat, u: nat) {
    && c < |s.clients| == |s'.clients| && u < |s.ups| == |s'.ups|
    && s'.clients == s.clients[c := s'.clients[c]] && s'.ups == s.ups[u := s'.ups[u]]
    && UpGrows(s.ups[u], s'.ups[u])
  }

  /** The rest of the system is untouched by a step of `c` on the upstream it has or takes. */
  lemma OthersKept(s: State, s': State, c: nat, u: nat)
    requires Disciplined(s) && OnlyThese(s, s', c, u) && UpOk(s', u)
    requires s.ups[u].place == Leased(c) || s.ups[u].place.Idle?
    requires s.clients[c].phase.Exchanging? ==> s.clients[c].phase.up == u
    ensures forall v :: 0 <= v < |s.ups| ==> UpOk(s', v)
    ensures forall d :: 0 <= d < |s.clients| && d != c ==> ClientOk(s', d)
  {
    forall v | 0 <= v < |s.ups|
      ensures UpOk(s', v)
    {
      if v != u {
        assert UpOk(s, v) && s'.ups[v] == s.ups[v];
        if s.ups[v].place.Leased? {
          assert s.clients[s.ups[v].place.client].phase.up == v;
        }
      }
    }
    forall d | 0 <= d < |s.clients| && d != c
      ensures ClientOk(s', d)
    {
      assert ClientOk(s, d) && s'.clients[d] == s.clients[d];
      forall v | 0 <= v < |s'.ups|
        ensures |s'.ups[v].drained| <= |s'.ups[v].written|
      {
        DrainedWithin(s', v);
      }
      ClientKept(s, s', d);
    }
  }

  lemma GrowsOnly(s: State, s': State, c: nat, u: nat)
    requires OnlyThese(s, s', c, u)
    ensures Grows(s, s')
  {
  }

  lemma BeginKeeps(s: State, c: nat, u: nat)
    requires Disciplined(s) && InPhase(s, c, Waiting) && Parked(s, u)
    ensures s.clients[c].asked != [] && Disciplined(Begin(s, c, u))
  {
    assert ClientOk(s, c) && UpOk(s, u);
    var s' := Begin(s, c, u);
    assert OnlyThese(s, s', c, u);
    assert UpOk(s', u);
    OthersKept(s, s', c, u);
    SelfKept(s, s', c, u);
  }

  /** The stepping client itself, when its history did not change. */
  lemma SelfKept(s: State, s': State, c: nat, u: nat)
    requires c < |s.clients| && ClientOk(s, c) && OnlyThese(s, s', c, u)
    requires forall v :: 0 <= v < |s'.ups| ==> UpOk(s', v)
    requires s'.clients[c].asked == s.clients[c].asked && s'.clients[c].got == s.clients[c].got
    requires var p, p' := s.clients[c].phase, s'.clients[c].phase;
             || p'.Gone?
             || ((p.Waiting? || p.Exchanging?) && p'.Exchanging? && p'.up == u && s'.ups[u].place == Leased(c))
    ensures ClientOk(s', c)
  {
    forall v | 0 <= v < |s'.ups|
      ensures |s'.ups[v].drained| <= |s'.ups[v].written|
    {
      DrainedWithin(s', v);
    }
    ClientKept(s, s', c);
  }

  /** Abandoning, receiving, or noting that the write is done. */
  lemma ExchangeKeeps(s: State, s': State, c: nat)
    requires Disciplined(s) && InExchange(s, c)
    requires OnlyThese(s, s', c, s.clients[c].phase.up) && UpOk(s', s.clients[c].phase.up)
    requires s'.clients[c].asked == s.clients[c].asked && s'.clients[c].got == s.clients[c].got
    requires var u, p' := s.clients[c].phase.up, s'.clients[c].phase;
             p'.Gone? || (p'.Exchanging? && p'.up == u && s'.ups[u].place == Leased(c))
    ensures Disciplined(s')
  {
    assert ClientOk(s, c);
    var u := s.clients[c].phase.up;
    assert UpOk(s, u);
    OthersKept(s, s', c, u);
    SelfKept(s, s', c, u);
  }

  lemma AbandonKeeps(s: State, c: nat)
    requires Disciplined(s) && InExchange(s, c)
    ensures Disciplined(Abandon(s, c))
  {
    assert ClientOk(s, c) && UpOk(s, s.clients[c].phase.up);
    ExchangeKeeps(s, Abandon(s, c), c);
  }

  lemma HandOverUp(s: State, c: nat, total: nat)
    requires Disciplined(s) && InExchange(s, c) && total <= |s.ups[s.clients[c].phase.up].buf|
    ensures var u := s.clients[c].phase.up; UpOk(HandOver(s, c, total), u) && OnlyThese(s, HandOver(s, c, total), c, u)
    ensures s.ups[s.clients[c].phase.up].place == Leased(c)
  {
    assert ClientOk(s, c) && UpOk(s, s.clients[c].phase.up);
  }

  lemma HandOverKeeps(s: State, c: nat, total: nat)
    requires Disciplined(s) && InExchange(s, c) && total <= |s.ups[s.clients[c].phase.up].buf|
    ensures Disciplined(HandOver(s, c, total))
  {
    var u, s' := s.clients[c].phase.up, HandOver(s, c, total);
    HandOverUp(s, c, total);
    OthersKept(s, s', c, u);
    GrowsOnly(s, s', c, u);
    assert ClientOk(s, c) && UpOk(s, u);
    forall i | 0 <= i < |s'.clients[c].got|
      ensures Matches(s', c, i, s'.clients[c].got[i])
    {
      if i < |s.clients[c].got| {
        var d := s.clients[c].got[i];
        DrainedWithin(s', d.up);
        MatchesKept(s, s', c, i, d);
      }
    }
  }

  lemma DecideKeeps(s: State, c: nat)
    requires Disciplined(s) && InExchange(s, c)
    ensures Disciplined(Decide(s, c))
  {
    match Parse(s.ups[s.clients[c].phase.up].buf, Response)
    case Complete(total) => HandOverKeeps(s, c, total);
    case Incomplete =>
    case Objection(_) => AbandonKeeps(s, c);
  }

  lemma ReadsKeeps(s: State, c: nat, n: nat)
    requires Disciplined(s) && InExchange(s, c) && 1 <= n <= |s.ups[s.clients[c].phase.up].flight|
    ensures Disciplined(Decide(Receive(s, c, n), c))
  {
    assert ClientOk(s, c) && UpOk(s, s.clients[c].phase.up);
    ExchangeKeeps(s, Receive(s, c, n), c);
    DecideKeeps(Receive(s, c, n), c);
  }

  lemma WrittenKeeps(s: State, c: nat)
    requires Disciplined(s) && InExchange(s, c)
    ensures Disciplined(Step(s, Written(c)))
  {
    var s' := SetPhase(s, c, s.clients[c].phase.(writing := false));
    assert ClientOk(s, c) && UpOk(s, s.clients[c].phase.up);
    ExchangeKeeps(s, s', c);
    DecideKeeps(s', c);
  }

  /** A new upstream is as good as a parked one. */
  lemma FreshKeeps(s: State)
    requires Disciplined(s)
    ensures Disciplined(s.(ups := s.ups + [Fresh()]))
  {
    var s' := s.(ups := s.ups + [Fresh()]);
    forall u | 0 <= u < |s'.ups|
      ensures UpOk(s', u)
    {
      if u < |s.ups| {
        assert UpOk(s, u);
      }
    }
    assert Grows(s, s');
    forall c | 0 <= c < |s.clients|
      ensures ClientOk(s', c)
    {
      assert ClientOk(s, c);
      WithinAll(s');
      ClientKept(s, s', c);
    }
  }

  lemma WithinAll(s: State)
    requires forall u :: 0 <= u < |s.ups| ==> UpOk(s, u)
    ensures forall u :: 0 <= u < |s.ups| ==> |s.ups[u].drained| <= |s.ups[u].written|
  {
    forall u | 0 <= u < |s.ups|
      ensures |s.ups[u].drained| <= |s.ups[u].written|
    {
      DrainedWithin(s, u);
    }
  }

  /** A step of one client that has no upstream. */
  lemma ClientStepKeeps(s: State, s': State, c: nat)
    requires Disciplined(s) && s'.ups == s.ups && c < |s.clients| == |s'.clients|
    requires s'.clients == s.clients[c := s'.clients[c]]
    requires !s.clients[c].phase.Exchanging? && ClientOk(s', c)
    ensures Disciplined(s')
  {
    forall u | 0 <= u < |s.ups|
      ensures UpOk(s', u)
    {
      assert UpOk(s, u);
    }
    WithinAll(s);
    forall d | 0 <= d < |s.clients|
      ensures ClientOk(s', d)
    {
      if d != c {
        assert ClientOk(s, d);
        ClientKept(s, s', d);
      }
    }
  }

  lemma DismissKeeps(s: State, c: nat)
    requires Disciplined(s) && c < |s.clients| && !s.clients[c].phase.Exchanging?
    ensures Disciplined(SetPhase(s, c, Gone))
  {
    var s' := SetPhase(s, c, Gone);
    assert ClientOk(s, c);
    WithinAll(s);
    ClientKept(s, s', c);
    ClientStepKeeps(s, s', c);
  }

  lemma AsksKeeps(s: State, c: nat, request: seq<Byte>)
    requires Disciplined(s) && InPhase(s, c, Ready)
    ensures Disciplined(Step(s, Asks(c, request)))
  {
    var s' := Step(s, Asks(c, request));
    assert ClientOk(s, c);
    WithinAll(s);
    forall i | 0 <= i < |s.clients[c].got|
      ensures Matches(s', c, i, s.clients[c].got[i])
    {
      MatchesKept(s, s', c, i, s.clients[c].got[i]);
    }
    ClientStepKeeps(s, s', c);
  }

  lemma ArriveKeeps(s: State)
    requires Disciplined(s)
    ensures Disciplined(Step(s, Arrive))
  {
    var s' := Step(s, Arrive);
    forall u | 0 <= u < |s.ups|
      ensures UpOk(s', u)
    {
      assert UpOk(s, u);
    }
    WithinAll(s);
    forall c | 0 <= c < |s'.clients|
      ensures ClientOk(s', c)
    {
      if c < |s.clients| {
        assert ClientOk(s, c);
        ClientKept(s, s', c);
      }
    }
  }

  /** A step of the origin or of the pool on one upstream. */
  lemma UpStepKeeps(s: State, u: nat, up: Upstream)
    requires Disciplined(s) && u < |s.ups| && UpGrows(s.ups[u], up) && UpOk(SetUp(s, u, up), u)
    requires up.place == s.ups[u].place || s.ups[u].place.Idle?
    ensures Disciplined(SetUp(s, u, up))
  {
    var s' := SetUp(s, u, up);
    forall v | 0 <= v < |s.ups|
      ensures UpOk(s', v)
    {
      assert UpOk(s, v);
    }
    WithinAll(s');
    forall c | 0 <= c < |s.clients|
      ensures ClientOk(s', c)
    {
      assert ClientOk(s, c);
      ClientKept(s, s', c);
    }
  }

  /** Every step keeps the discipline, whatever the origin sends, except one: a task dropped in
      the middle of an exchange always breaks it. */
  lemma KeptUnlessCancelled(s: State, e: Event)
    requires Disciplined(s)
    ensures Disciplined(Step(s, e)) <==> !MidExchange(s, e)
  {
    if MidExchange(s, e) {
      CancelBreaks(s, e.c, e.lost);
    } else {
      match e
      case Arrive => ArriveKeeps(s);
      case Asks(c, request) => if InPhase(s, c, Ready) { AsksKeeps(s, c, request); }
      case Leaves(c) => if InPhase(s, c, Ready) { DismissKeeps(s, c); }
      case NoUpstream(c) => if InPhase(s, c, Waiting) { DismissKeeps(s, c); }
      case LeaseIdle(c, u) =>
        if InPhase(s, c, Waiting) && Parked(s, u) {
          assert UpOk(s, u);
          BeginKeeps(s, c, u);
        }
      case LeaseNew(c) =>
        if InPhase(s, c, Waiting) {
          FreshKeeps(s);
          BeginKeeps(s.(ups := s.ups + [Fresh()]), c, |s.ups|);
        }
      case Written(c) => if InExchange(s, c) { WrittenKeeps(s, c); }
      case Fails(c) => if InExchange(s, c) { AbandonKeeps(s, c); }
      case Reads(c, n) =>
        if InExchange(s, c) && 1 <= n <= |s.ups[s.clients[c].phase.up].flight| {
          ReadsKeeps(s, c, n);
        }
      case Origin(u, bytes) =>
        if u < |s.ups| {
          assert UpOk(s, u);
          UpStepKeeps(s, u, s.ups[u].(flight := s.ups[u].flight + bytes, answers := s.ups[u].answers + [bytes]));
        }
      case Retires(u) =>
        if Parked(s, u) {
          assert UpOk(s, u);
          UpStepKeeps(s, u, s.ups[u].(place := Retired));
        }
      case Cancels(c, _) =>
        if c < |s.clients| {
          assert ClientOk(s, c);
          DismissKeeps(s, c);
        }
    }
  }

  lemma CancelBreaks(s: State, c: nat, lost: nat)
    requires Disciplined(s) && InExchange(s, c)
    ensures !Disciplined(Step(s, Cancels(c, lost)))
  {
    var u, s' := s.clients[c].phase.up, Step(s, Cancels(c, lost));
    assert ClientOk(s, c) && UpOk(s, u);
    assert !UpOk(s', u);
  }
}
