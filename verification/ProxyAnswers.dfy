/** With an origin that answers each request once and in order, every client gets the answer to
    its own request, in every run in which no task is dropped in the middle of an exchange. */
module ProxyAnswers {
  import opened PoolTypes
  import opened HttpText
  import opened HttpFraming
  import opened HttpStream
  import opened ProxyPairing

  // ---- Pieces of a message ----

  /** The pieces of a self-framing message: never refused, and taken as a whole exactly when all
      of it is there. */
  lemma PrefixOfMessage(p: seq<Byte>, rest: seq<Byte>, kind: Kind)
    requires SelfFraming(p + rest, kind)
    ensures Parse(p, kind) == if rest == [] then Complete(|p|) else Incomplete
  {
    var m := p + rest;
    assert FramedBefore(m, [], kind) && m + [] == m;
    FindInPrefix(p, rest);
    var pos := Find(p, END_OF_HEAD);
    if pos.Some? {
      assert m[..pos.value + 4] == p[..pos.value + 4];
    }
  }

  // ---- An honest origin ----

  predicate Prefix(a: seq<seq<Byte>>, b: seq<seq<Byte>>) {
    |a| <= |b| && a == b[..|a|]
  }

  /** The answers from the `from`-th on, one after another. */
  function Rest(answers: seq<seq<Byte>>, from: nat): seq<Byte>
    decreases |answers| - from
  {
    if from >= |answers| then [] else answers[from] + Rest(answers, from + 1)
  }

  lemma {:induction false} RestAppend(answers: seq<seq<Byte>>, last: seq<Byte>, from: nat)
    requires from <= |answers|
    ensures Rest(answers + [last], from) == Rest(answers, from) + last
    decreases |answers| - from
  {
    if from < |answers| {
      RestAppend(answers, last, from + 1);
    } else {
      assert Rest(answers + [last], from + 1) == [];
    }
  }

  /** What was drained is what was answered, and what is left of the answers is in the buffer or
      still to be read. */
  ghost predicate Answered(up: Upstream) {
    && Prefix(up.drained, up.answers) && |up.answers| <= |up.written|
    && (forall k :: 0 <= k < |up.answers| ==> SelfFraming(up.answers[k], Response))
    && (!up.place.Retired? ==> up.buf + up.flight == Rest(up.answers, |up.drained|))
  }

  ghost predicate AllAnswered(s: State) {
    forall u :: 0 <= u < |s.ups| ==> Answered(s.ups[u])
  }

  /** The origin sends only answers, each a well-framed response to a request not yet answered. */
  ghost predicate Honest(s: State, e: Event) {
    e.Origin? && e.u < |s.ups| ==> |s.ups[e.u].answers| < |s.ups[e.u].written| && SelfFraming(e.bytes, Response)
  }

  /** A run with an honest origin and no task dropped in the middle of an exchange. */
  ghost predicate Fair(s: State, events: seq<Event>)
    decreases |events|
  {
    events != [] ==> Honest(s, events[0]) && !MidExchange(s, events[0]) && Fair(Step(s, events[0]), events[1..])
  }

  /** A leased upstream has at most the one answer its client waits for. */
  lemma OneAnswer(s: State, c: nat)
    requires Disciplined(s) && AllAnswered(s) && InExchange(s, c)
    ensures var up := s.ups[s.clients[c].phase.up];
            var n := |up.drained|;
            && up.place == Leased(c) && up.healthy && |up.answers| <= n + 1
            && (|up.answers| == n ==> up.buf == [] && up.flight == [])
            && (|up.answers| == n + 1 ==> up.buf + up.flight == up.answers[n] && SelfFraming(up.answers[n], Response))
  {
    assert ClientOk(s, c) && UpOk(s, s.clients[c].phase.up);
    var up := s.ups[s.clients[c].phase.up];
    var n := |up.drained|;
    assert Answered(up);
    if |up.answers| == n + 1 {
      assert Rest(up.answers, n + 1) == [];
    }
  }

  /** A turn of the reader takes the whole answer, once it is there, or waits. */
  lemma DecideIsRight(s: State, c: nat)
    requires Disciplined(s) && AllAnswered(s) && InExchange(s, c)
    ensures var up := s.ups[s.clients[c].phase.up];
            var n := |up.drained|;
            if |up.answers| == n + 1 && up.flight == [] then up.buf == up.answers[n] && Decide(s, c) == HandOver(s, c, |up.buf|)
            else Decide(s, c) == s
  {
    var up := s.ups[s.clients[c].phase.up];
    var n := |up.drained|;
    OneAnswer(s, c);
    if |up.answers| == n + 1 {
      PrefixOfMessage(up.buf, up.flight, Response);
    } else {
      assert Find<Byte>([], END_OF_HEAD) == None;
    }
  }

  /** Drained to the last answer. */
  lemma DrainedAnswered(up: Upstream, up': Upstream)
    requires Answered(up) && !up.place.Retired? && |up.answers| == |up.drained| + 1
    requires up'.drained == up.drained + [up.answers[|up.drained|]] && up'.answers == up.answers
    requires up'.written == up.written && up'.buf == [] && up'.flight == []
    ensures Answered(up')
  {
    var n := |up.drained|;
    assert up'.drained == up.answers[..n + 1];
  }

  /** One upstream changed, and is still answered. */
  lemma OneAnswered(s: State, s': State, u: nat)
    requires AllAnswered(s) && u < |s.ups| == |s'.ups| && s'.ups == s.ups[u := s'.ups[u]] && Answered(s'.ups[u])
    ensures AllAnswered(s')
  {
  }

  lemma DecideAnswered(s: State, c: nat)
    requires Disciplined(s) && AllAnswered(s) && InExchange(s, c)
    ensures AllAnswered(Decide(s, c))
  {
    DecideIsRight(s, c);
    OneAnswer(s, c);
    var u, s' := s.clients[c].phase.up, Decide(s, c);
    var up := s.ups[u];
    if |up.answers| == |up.drained| + 1 && up.flight == [] {
      HandOverUp1(s, c);
      DrainedAnswered(up, s'.ups[u]);
      OneAnswered(s, s', u);
    }
  }

  /** The upstream after its whole buffer was handed over. */
  lemma HandOverUp1(s: State, c: nat)
    requires InExchange(s, c)
    ensures var u := s.clients[c].phase.up;
            var up, s' := s.ups[u], HandOver(s, c, |s.ups[u].buf|);
            && s'.ups == s.ups[u := s'.ups[u]]
            && s'.ups[u].drained == up.drained + [up.buf] && s'.ups[u].buf == [] && s'.ups[u].flight == up.flight
            && s'.ups[u].answers == up.answers && s'.ups[u].written == up.written
  {
    var up := s.ups[s.clients[c].phase.up];
    assert up.buf[..|up.buf|] == up.buf;
  }

  lemma ReadAnswered(up: Upstream, n: nat)
    requires Answered(up) && 1 <= n <= |up.flight|
    ensures Answered(up.(buf := up.buf + up.flight[..n], flight := up.flight[n..]))
  {
    assert up.buf + up.flight[..n] + up.flight[n..] == up.buf + up.flight;
  }

  lemma ReceiveKeeps(s: State, c: nat, n: nat)
    requires Disciplined(s) && InExchange(s, c) && 1 <= n <= |s.ups[s.clients[c].phase.up].flight|
    ensures Disciplined(Receive(s, c, n))
  {
    assert ClientOk(s, c) && UpOk(s, s.clients[c].phase.up);
    ExchangeKeeps(s, Receive(s, c, n), c);
  }

  lemma ReceiveAnswered(s: State, c: nat, n: nat)
    requires AllAnswered(s) && InExchange(s, c) && 1 <= n <= |s.ups[s.clients[c].phase.up].flight|
    ensures AllAnswered(Receive(s, c, n))
  {
    var u := s.clients[c].phase.up;
    ReadAnswered(s.ups[u], n);
    OneAnswered(s, Receive(s, c, n), u);
  }

  /** One more answer is one more answer left to read. */
  lemma AnswerAdds(up: Upstream, bytes: seq<Byte>)
    requires Answered(up) && |up.answers| < |up.written| && SelfFraming(bytes, Response)
    ensures Answered(up.(flight := up.flight + bytes, answers := up.answers + [bytes]))
  {
    RestAppend(up.answers, bytes, |up.drained|);
    assert (up.answers + [bytes])[..|up.drained|] == up.answers[..|up.drained|];
    assert up.buf + (up.flight + bytes) == up.buf + up.flight + bytes;
  }

  lemma OriginAnswered(s: State, u: nat, bytes: seq<Byte>)
    requires AllAnswered(s) && u < |s.ups| && Honest(s, Origin(u, bytes))
    ensures AllAnswered(Step(s, Origin(u, bytes)))
  {
    AnswerAdds(s.ups[u], bytes);
    OneAnswered(s, Step(s, Origin(u, bytes)), u);
  }

  lemma BeginAnswered(s: State, c: nat, u: nat)
    requires AllAnswered(s) && InPhase(s, c, Waiting) && s.clients[c].asked != [] && u < |s.ups|
    requires !s.ups[u].place.Retired?
    ensures AllAnswered(Begin(s, c, u))
  {
    assert Answered(s.ups[u]);
    assert Answered(Begin(s, c, u).ups[u]);
  }

  lemma WrittenAnswered(s: State, c: nat)
    requires Disciplined(s) && AllAnswered(s) && InExchange(s, c)
    ensures AllAnswered(Step(s, Written(c)))
  {
    var s' := SetPhase(s, c, s.clients[c].phase.(writing := false));
    assert ClientOk(s, c) && UpOk(s, s.clients[c].phase.up);
    ExchangeKeeps(s, s', c);
    DecideAnswered(s', c);
  }

  lemma StepAnswered(s: State, e: Event)
    requires Disciplined(s) && AllAnswered(s) && Honest(s, e) && !MidExchange(s, e)
    ensures AllAnswered(Step(s, e))
  {
    match e
    case LeaseIdle(c, u) =>
      if InPhase(s, c, Waiting) && Parked(s, u) {
        assert ClientOk(s, c) && UpOk(s, u);
        BeginAnswered(s, c, u);
      }
    case LeaseNew(c) =>
      if InPhase(s, c, Waiting) && s.clients[c].asked != [] {
        var s1 := s.(ups := s.ups + [Fresh()]);
        assert Answered(Fresh());
        BeginAnswered(s1, c, |s.ups|);
      }
    case Written(c) => if InExchange(s, c) { WrittenAnswered(s, c); }
    case Fails(c) =>
      if InExchange(s, c) {
        var u := s.clients[c].phase.up;
        assert Answered(s.ups[u]);
        assert Answered(Step(s, e).ups[u]);
      }
    case Reads(c, n) =>
      if InExchange(s, c) && 1 <= n <= |s.ups[s.clients[c].phase.up].flight| {
        ReceiveKeeps(s, c, n);
        ReceiveAnswered(s, c, n);
        DecideAnswered(Receive(s, c, n), c);
      }
    case Origin(u, bytes) => if u < |s.ups| { OriginAnswered(s, u, bytes); }
    case Retires(u) =>
      if Parked(s, u) {
        assert Answered(s.ups[u]);
        assert Answered(Step(s, e).ups[u]);
      }
    case _ =>
  }

  lemma {:induction false} FairRun(s: State, events: seq<Event>)
    requires Disciplined(s) && AllAnswered(s) && Fair(s, events)
    ensures Disciplined(Run(s, events)) && AllAnswered(Run(s, events))
    decreases |events|
  {
    if events != [] {
      KeptUnlessCancelled(s, events[0]);
      StepAnswered(s, events[0]);
      FairRun(Step(s, events[0]), events[1..]);
    }
  }

  // ---- The theorems ----

  ghost predicate Uncancelled(s: State, events: seq<Event>)
    decreases |events|
  {
    events != [] ==> !MidExchange(s, events[0]) && Uncancelled(Step(s, events[0]), events[1..])
  }

  lemma {:induction false} UncancelledRun(s: State, events: seq<Event>)
    requires Disciplined(s) && Uncancelled(s, events)
    ensures Disciplined(Run(s, events))
    decreases |events|
  {
    if events != [] {
      KeptUnlessCancelled(s, events[0]);
      UncancelledRun(Step(s, events[0]), events[1..]);
    }
  }

  /** Every response of a client was drained in the place of its own request. */
  ghost predicate OwnPlaces(s: State, c: nat)
    requires c < |s.clients|
  {
    var client := s.clients[c];
    |client.got| <= |client.asked| && forall i :: 0 <= i < |client.got| ==> Matches(s, c, i, client.got[i])
  }

  /** Whatever the origin sends: a parked upstream is healthy, holds no bytes, and had as many
      responses drained as requests written; a client's i-th response is the one drained from its
      upstream in the place of its own i-th request. */
  lemma ParkedUpstreamsAreClean(events: seq<Event>)
    requires Uncancelled(Init, events)
    ensures var s := Run(Init, events);
            && (forall u :: 0 <= u < |s.ups| && s.ups[u].place.Idle? ==>
                  s.ups[u].healthy && s.ups[u].buf == [] && |s.ups[u].drained| == |s.ups[u].written|)
            && (forall c :: 0 <= c < |s.clients| ==> OwnPlaces(s, c))
  {
    UncancelledRun(Init, events);
    var s := Run(Init, events);
    forall u | 0 <= u < |s.ups| && s.ups[u].place.Idle?
      ensures s.ups[u].healthy && s.ups[u].buf == [] && |s.ups[u].drained| == |s.ups[u].written|
    {
      assert UpOk(s, u);
    }
    forall c | 0 <= c < |s.clients|
      ensures OwnPlaces(s, c)
    {
      assert ClientOk(s, c);
    }
  }

  /** The `nth` answer on an upstream is `d`, and the `nth` request written there is the client's
      own. */
  predicate OwnAnswer(s: State, c: nat, i: nat, d: Delivery)
    requires c < |s.clients| && i < |s.clients[c].asked|
  {
    && d.up < |s.ups| && d.nth < |s.ups[d.up].answers| <= |s.ups[d.up].written|
    && s.ups[d.up].written[d.nth] == Ask(c, i, s.clients[c].asked[i])
    && s.ups[d.up].answers[d.nth] == d.bytes
  }

  ghost predicate OwnAnswers(s: State, c: nat)
    requires c < |s.clients|
  {
    var client := s.clients[c];
    |client.got| <= |client.asked| && forall i :: 0 <= i < |client.got| ==> OwnAnswer(s, c, i, client.got[i])
  }

  lemma AnswersFromPlaces(s: State, c: nat)
    requires AllAnswered(s) && c < |s.clients| && ClientOk(s, c)
    ensures OwnAnswers(s, c)
  {
    forall i | 0 <= i < |s.clients[c].got|
      ensures OwnAnswer(s, c, i, s.clients[c].got[i])
    {
      assert Matches(s, c, i, s.clients[c].got[i]);
      assert Answered(s.ups[s.clients[c].got[i].up]);
    }
  }

  /** With an honest origin, every client receives the answer to its own request, and nothing is
      on its way to a parked upstream. */
  lemma EveryClientItsOwnAnswer(events: seq<Event>)
    requires Fair(Init, events)
    ensures var s := Run(Init, events);
            && (forall c :: 0 <= c < |s.clients| ==> OwnAnswers(s, c))
            && (forall u :: 0 <= u < |s.ups| && s.ups[u].place.Idle? ==> s.ups[u].buf == [] && s.ups[u].flight == [])
  {
    FairRun(Init, events);
    var s := Run(Init, events);
    forall c | 0 <= c < |s.clients|
      ensures OwnAnswers(s, c)
    {
      AnswersFromPlaces(s, c);
    }
    forall u | 0 <= u < |s.ups| && s.ups[u].place.Idle?
      ensures s.ups[u].buf == [] && s.ups[u].flight == []
    {
      assert UpOk(s, u) && Answered(s.ups[u]);
    }
  }

  /** An honest answer is never refused, however it is split: a read leaves the exchange open
      until the last byte, and then ends it with that answer and a parked upstream. */
  lemma HonestAnswerIsDelivered(events: seq<Event>, c: nat, n: nat)
    requires Fair(Init, events)
    requires var s := Run(Init, events);
             InExchange(s, c) && !s.clients[c].phase.writing && 1 <= n <= |s.ups[s.clients[c].phase.up].flight|
    ensures var s := Run(Init, events);
            var s', u := Step(s, Reads(c, n)), s.clients[c].phase.up;
            var k := |s.ups[u].drained|;
            && k < |s.ups[u].answers|
            && (n < |s.ups[u].flight| ==> s'.clients == s.clients && s'.ups[u].place == Leased(c))
            && (n == |s.ups[u].flight| ==>
                  && s'.clients[c].phase.Ready? && s'.ups[u].place.Idle?
                  && s'.clients[c].got == s.clients[c].got + [Delivery(u, k, s.ups[u].answers[k])])
  {
    FairRun(Init, events);
    var s := Run(Init, events);
    OneAnswer(s, c);
    ReceiveKeeps(s, c, n);
    ReceiveAnswered(s, c, n);
    var s1 := Receive(s, c, n);
    OneAnswer(s1, c);
    DecideIsRight(s1, c);
  }

  // ---- Why the exception matters ----

  ghost predicate EveryEventHonest(s: State, events: seq<Event>)
    decreases |events|
  {
    events != [] ==> Honest(s, events[0]) && EveryEventHonest(Step(s, events[0]), events[1..])
  }

  /** A run and one step more. */
  lemma {:induction false} OneMore(s: State, events: seq<Event>, e: Event)
    requires EveryEventHonest(s, events) && Honest(Run(s, events), e)
    ensures EveryEventHonest(s, events + [e]) && Run(s, events + [e]) == Step(Run(s, events), e)
    decreases |events|
  {
    if events == [] {
      assert Run(Step(s, e), []) == Step(s, e);
    } else {
      OneMore(Step(s, events[0]), events[1..], e);
      assert (events + [e])[1..] == events[1..] + [e];
    }
  }

  function Dropped(first: seq<Byte>): State {
    State([Client(Gone, [first], [])], [Fresh().(written := [Ask(0, 0, first)])])
  }

  /** The first client asks, begins to write, and is dropped. */
  lemma DropFirst(first: seq<Byte>) returns (events: seq<Event>)
    ensures EveryEventHonest(Init, events) && Run(Init, events) == Dropped(first)
  {
    events := [];
    OneMore(Init, events, Arrive);
    events := events + [Arrive];
    assert Run(Init, events).clients == [Client(Ready, [], [])];
    OneMore(Init, events, Asks(0, first));
    events := events + [Asks(0, first)];
    assert [] + [first] == [first] && [] + [Ask(0, 0, first)] == [Ask(0, 0, first)];
    var s := Run(Init, events);
    assert s.clients == [Client(Waiting, [first], [])] && s.ups == [];
    OneMore(Init, events, LeaseNew(0));
    events := events + [LeaseNew(0)];
    s := Run(Init, events);
    assert s.clients == [Client(Exchanging(0, true), [first], [])];
    assert s.ups == [Fresh().(place := Leased(0), written := [Ask(0, 0, first)])];
    OneMore(Init, events, Cancels(0, 0));
    events := events + [Cancels(0, 0)];
    s := Run(Init, events);
    assert s.clients == Dropped(first).clients && s.ups == Dropped(first).ups;
  }

  function LeasedAgain(first: seq<Byte>, second: seq<Byte>, writing: bool): State {
    State([Client(Gone, [first], []), Client(Exchanging(0, writing), [second], [])],
          [Fresh().(place := Leased(1), written := [Ask(0, 0, first), Ask(1, 0, second)])])
  }

  /** The second client asks and is given the same upstream. */
  lemma LeaseToSecond(first: seq<Byte>, second: seq<Byte>) returns (events: seq<Event>)
    ensures EveryEventHonest(Init, events) && Run(Init, events) == LeasedAgain(first, second, true)
  {
    events := DropFirst(first);
    OneMore(Init, events, Arrive);
    events := events + [Arrive];
    assert Run(Init, events).clients == [Client(Gone, [first], []), Client(Ready, [], [])];
    OneMore(Init, events, Asks(1, second));
    events := events + [Asks(1, second)];
    assert [] + [second] == [second];
    var s := Run(Init, events);
    assert s.clients == [Client(Gone, [first], []), Client(Waiting, [second], [])];
    assert [Ask(0, 0, first)] + [Ask(1, 0, second)] == [Ask(0, 0, first), Ask(1, 0, second)];
    OneMore(Init, events, LeaseIdle(1, 0));
    events := events + [LeaseIdle(1, 0)];
    s := Run(Init, events);
    assert s.clients == LeasedAgain(first, second, true).clients && s.ups == LeasedAgain(first, second, true).ups;
  }

  /** The second client has written its request and reads. */
  lemma SecondReads(first: seq<Byte>, second: seq<Byte>) returns (events: seq<Event>)
    ensures EveryEventHonest(Init, events) && Run(Init, events) == LeasedAgain(first, second, false)
  {
    events := LeaseToSecond(first, second);
    assert Find<Byte>([], END_OF_HEAD) == None;
    OneMore(Init, events, Written(1));
    events := events + [Written(1)];
    var s := Run(Init, events);
    assert s.clients == LeasedAgain(first, second, false).clients;
  }

  /** Part of the answer is buffered, the rest on its way. */
  function Reading(first: seq<Byte>, second: seq<Byte>, got: seq<Byte>, rest: seq<Byte>): State {
    var s := LeasedAgain(first, second, false);
    s.(ups := [s.ups[0].(buf := got, flight := rest, answers := [got + rest])])
  }

  lemma AnswerSent(first: seq<Byte>, second: seq<Byte>, answer: seq<Byte>)
    ensures Step(LeasedAgain(first, second, false), Origin(0, answer)) == Reading(first, second, [], answer)
  {
    assert [] + answer == answer && [] + [answer] == [answer];
  }

  /** One more byte is read, by itself. */
  lemma OneByte(first: seq<Byte>, second: seq<Byte>, got: seq<Byte>, rest: seq<Byte>)
    requires rest != []
    ensures var s := Reading(first, second, got, rest);
            && InExchange(s, 1) && !s.clients[1].phase.writing && s.clients[1].phase.up == 0 && s.ups[0].flight == rest
            && Receive(s, 1, 1) == Reading(first, second, got + [rest[0]], rest[1..])
            && Step(s, Reads(1, 1)) == Decide(Receive(s, 1, 1), 1)
  {
    var s := Reading(first, second, got, rest);
    assert got + rest == got + [rest[0]] + rest[1..];
    assert rest[..1] == [rest[0]];
    assert Receive(s, 1, 1).ups == Reading(first, second, got + [rest[0]], rest[1..]).ups;
  }

  /** The second client was given the first one's answer. */
  predicate Crossed(s: State, first: seq<Byte>, second: seq<Byte>, answer: seq<Byte>) {
    && |s.clients| == 2 && |s.ups| == 1 && s.ups[0].place.Idle?
    && s.ups[0].written == [Ask(0, 0, first), Ask(1, 0, second)] && s.ups[0].answers == [answer]
    && s.clients[1].got == [Delivery(0, 0, answer)]
  }

  lemma WholeCrosses(first: seq<Byte>, second: seq<Byte>, answer: seq<Byte>)
    requires SelfFraming(answer, Response)
    ensures InExchange(Reading(first, second, answer, []), 1)
    ensures Crossed(Decide(Reading(first, second, answer, []), 1), first, second, answer)
  {
    assert answer + [] == answer;
    PrefixOfMessage(answer, [], Response);
    var s := Reading(first, second, answer, []);
    assert Decide(s, 1) == HandOver(s, 1, |answer|);
    assert answer[..|answer|] == answer;
    assert [] + [Delivery(0, 0, answer)] == [Delivery(0, 0, answer)];
  }

  lemma PartWaits(first: seq<Byte>, second: seq<Byte>, got: seq<Byte>, rest: seq<Byte>)
    requires SelfFraming(got + rest, Response) && rest != []
    ensures InExchange(Reading(first, second, got, rest), 1)
    ensures Decide(Reading(first, second, got, rest), 1) == Reading(first, second, got, rest)
  {
    PrefixOfMessage(got, rest, Response);
  }

  /** Byte by byte, the answer to the first request ends the second client's exchange. */
  lemma {:induction false} ReadsOn(first: seq<Byte>, second: seq<Byte>, got: seq<Byte>, rest: seq<Byte>, before: seq<Event>)
    returns (events: seq<Event>)
    requires SelfFraming(got + rest, Response) && rest != []
    requires EveryEventHonest(Init, before) && Run(Init, before) == Reading(first, second, got, rest)
    ensures EveryEventHonest(Init, events) && Crossed(Run(Init, events), first, second, got + rest)
    decreases |rest|
  {
    var got', rest' := got + [rest[0]], rest[1..];
    assert got' + rest' == got + rest;
    OneByte(first, second, got, rest);
    OneMore(Init, before, Reads(1, 1));
    if rest' == [] {
      assert got' + [] == got';
      WholeCrosses(first, second, got');
      events := before + [Reads(1, 1)];
    } else {
      PartWaits(first, second, got', rest');
      events := ReadsOn(first, second, got', rest', before + [Reads(1, 1)]);
    }
  }

  /** Dropped in the middle of an exchange, a client leaves its answer to the next one: a run with
      an honest origin in which the second client is given the answer to the first one's request. */
  lemma DroppedExchangeCrossesAnswers(first: seq<Byte>, second: seq<Byte>, answer: seq<Byte>) returns (events: seq<Event>)
    requires SelfFraming(answer, Response)
    ensures EveryEventHonest(Init, events) && Crossed(Run(Init, events), first, second, answer)
  {
    var before := SecondReads(first, second);
    AnswerSent(first, second, answer);
    OneMore(Init, before, Origin(0, answer));
    AnswerNotEmpty(answer);
    assert [] + answer == answer;
    events := ReadsOn(first, second, [], answer, before + [Origin(0, answer)]);
  }

  lemma AnswerNotEmpty(answer: seq<Byte>)
    requires SelfFraming(answer, Response)
    ensures answer != []
  {
    assert FramedBefore(answer, [], Response) && answer + [] == answer;
  }
}
