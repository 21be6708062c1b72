/** How an exchange ends: a client waits for its upstream only while what is buffered is the beginning
    of a response that may still be taken, and an upstream that fails or cannot be framed is given
    up with its client. */
module ProxyRefusals {
  import opened HttpText
  import opened HttpFraming
  import opened HttpStream
  import opened HttpReplies
  import opened HttpRefusals
  import opened ProxyPairing

  // ---- In every run ----

  /** A client in an exchange has its upstream to itself, a healthy one with nothing buffered until
      the request is written, and reads on only while it must. */
  predicate Waits(s: State, c: nat)
    requires c < |s.clients|
  {
    var phase := s.clients[c].phase;
    phase.Exchanging? ==>
      && phase.up < |s.ups| && s.ups[phase.up].place == Leased(c) && s.ups[phase.up].healthy
      && (if phase.writing then s.ups[phase.up].buf == [] else Parse(s.ups[phase.up].buf, Response).Incomplete?)
  }

  /** A parked upstream looks clean. */
  predicate LooksClean(s: State, u: nat)
    requires u < |s.ups|
  {
    s.ups[u].place.Idle? ==> s.ups[u].healthy && s.ups[u].buf == []
  }

  ghost predicate AllWait(s: State) {
    && (forall c :: 0 <= c < |s.clients| ==> Waits(s, c))
    && (forall u :: 0 <= u < |s.ups| ==> LooksClean(s, u))
  }

  /** A step on one client and its upstream, or on one upstream that is parked, leaves every other
      exchange as it was. */
  lemma OthersWait(s: State, s': State, c: nat, u: nat, d: nat)
    requires AllWait(s) && d < |s.clients| == |s'.clients| && d != c && u < |s.ups| <= |s'.ups|
    requires s'.clients[d] == s.clients[d] && forall v :: 0 <= v < |s.ups| && v != u ==> s'.ups[v] == s.ups[v]
    requires s.ups[u].place == Leased(c) || s.ups[u].place.Idle?
    ensures Waits(s', d)
  {
    assert Waits(s, d);
  }

  lemma DecideWaits(s: State, c: nat)
    requires InExchange(s, c) && s.ups[s.clients[c].phase.up].place == Leased(c) && !s.clients[c].phase.writing
    requires s.ups[s.clients[c].phase.up].healthy
    ensures var s', u := Decide(s, c), s.clients[c].phase.up;
            c < |s'.clients| && Waits(s', c) && u < |s'.ups| && LooksClean(s', u)
  {
  }

  lemma ExchangeWaits(s: State, e: Event, d: nat)
    requires AllWait(s) && (e.Written? || e.Fails? || e.Reads? || e.Cancels?) && InExchange(s, e.c)
    requires d < |s.clients|
    ensures d < |Step(s, e).clients| && Waits(Step(s, e), d)
    ensures s.clients[e.c].phase.up < |Step(s, e).ups| && LooksClean(Step(s, e), s.clients[e.c].phase.up)
  {
    var u := s.clients[e.c].phase.up;
    assert Waits(s, e.c) && Waits(s, d) && LooksClean(s, u);
    if e.Written? {
      DecideWaits(SetPhase(s, e.c, s.clients[e.c].phase.(writing := false)), e.c);
    } else if e.Reads? && !s.clients[e.c].phase.writing && 1 <= e.n <= |s.ups[u].flight| {
      DecideWaits(Receive(s, e.c, e.n), e.c);
    }
    if d != e.c {
      OthersWait(s, Step(s, e), e.c, u, d);
    }
  }

  lemma LeaseWaits(s: State, e: Event, d: nat)
    requires AllWait(s) && (e.LeaseIdle? || e.LeaseNew?) && d < |s.clients|
    ensures d < |Step(s, e).clients| && Waits(Step(s, e), d)
  {
    assert Waits(s, d);
    if e.LeaseIdle? && Parked(s, e.u) {
      assert LooksClean(s, e.u);
      if d != e.c {
        OthersWait(s, Step(s, e), e.c, e.u, d);
      }
    }
  }

  lemma StepWaits(s: State, e: Event, d: nat)
    requires AllWait(s) && d < |Step(s, e).clients|
    ensures Waits(Step(s, e), d)
  {
    if d < |s.clients| {
      assert Waits(s, d);
      if e.LeaseIdle? || e.LeaseNew? {
        LeaseWaits(s, e, d);
      } else if (e.Written? || e.Fails? || e.Reads? || e.Cancels?) && InExchange(s, e.c) {
        ExchangeWaits(s, e, d);
      }
    }
  }

  lemma StepLooksClean(s: State, e: Event, u: nat)
    requires AllWait(s) && u < |Step(s, e).ups|
    ensures LooksClean(Step(s, e), u)
  {
    if u < |s.ups| {
      assert LooksClean(s, u);
      if (e.Written? || e.Fails? || e.Reads? || e.Cancels?) && InExchange(s, e.c) {
        ExchangeWaits(s, e, e.c);
      }
    }
  }

  lemma StepAllWait(s: State, e: Event)
    requires AllWait(s)
    ensures AllWait(Step(s, e))
  {
    forall d | 0 <= d < |Step(s, e).clients|
      ensures Waits(Step(s, e), d)
    {
      StepWaits(s, e, d);
    }
    forall u | 0 <= u < |Step(s, e).ups|
      ensures LooksClean(Step(s, e), u)
    {
      StepLooksClean(s, e, u);
    }
  }

  /** In every run, dropped tasks included: a client that reads from its upstream has it to itself,
      and what is buffered is neither a whole response nor anything to object to. And every parked
      upstream is healthy with an empty buffer, even one that still owes a response to a dropped
      task: nothing the pool can look at tells it from the others. */
  lemma WaitingMeansIncomplete(events: seq<Event>)
    ensures AllWait(Run(Init, events))
  {
    RunAllWait(Init, events);
  }

  lemma {:induction false} RunAllWait(s: State, events: seq<Event>)
    requires AllWait(s)
    ensures AllWait(Run(s, events))
    decreases |events|
  {
    if events != [] {
      StepAllWait(s, events[0]);
      RunAllWait(Step(s, events[0]), events[1..]);
    }
  }

  // ---- How an exchange ends ----

  /** What client `c`'s reader has to decide on after the step: the bytes buffered from upstream `u`. */
  function Buffered(s: State, e: Event): seq<Byte>
    requires (e.Written? || e.Reads?) && InExchange(s, e.c)
  {
    var up := s.ups[s.clients[e.c].phase.up];
    if e.Reads? && e.n <= |up.flight| then up.buf + up.flight[..e.n] else up.buf
  }

  /** The write is done, or a read gave something. */
  predicate Decides(s: State, e: Event) {
    && (e.Written? || e.Reads?) && InExchange(s, e.c)
    && (e.Reads? ==> !s.clients[e.c].phase.writing && 1 <= e.n <= |s.ups[s.clients[e.c].phase.up].flight|)
  }

  /** An exchange that cannot be completed: the write or the read failed, the upstream closed, or
      what it sent cannot be framed. */
  predicate Broken(s: State, e: Event) {
    || (e.Fails? && InExchange(s, e.c))
    || (Decides(s, e) && Parse(Buffered(s, e), Response).Objection?)
  }

  /** Only client `c` and upstream `u` are touched. */
  predicate Elsewhere(s: State, s': State, c: nat, u: nat)
    requires c < |s.clients| && u < |s.ups|
  {
    && |s'.clients| == |s.clients| && |s'.ups| == |s.ups|
    && s'.clients == s.clients[c := s'.clients[c]] && s'.ups == s.ups[u := s'.ups[u]]
  }

  /** The client is dismissed without a response and the upstream discarded, never to be parked. */
  predicate GivenUp(s: State, s': State, c: nat, u: nat)
    requires c < |s.clients| && u < |s.ups|
  {
    && Elsewhere(s, s', c, u) && s'.clients[c] == s.clients[c].(phase := Gone)
    && s'.ups[u].place.Retired? && !s'.ups[u].healthy && s'.ups[u].drained == s.ups[u].drained
  }

  lemma ObjectionEnds(s: State, e: Event)
    requires Decides(s, e) && Parse(Buffered(s, e), Response).Objection?
    ensures GivenUp(s, Step(s, e), e.c, s.clients[e.c].phase.up)
  {
  }

  /** A broken exchange ends at once. */
  lemma BrokenExchangeEnds(s: State, e: Event)
    requires Broken(s, e)
    ensures GivenUp(s, Step(s, e), e.c, s.clients[e.c].phase.up)
  {
    if !e.Fails? {
      ObjectionEnds(s, e);
    }
  }

  /** So does one with a whole response, which the client gets: the upstream is parked if it is
      healthy and the response was all there was, and discarded otherwise. */
  lemma WholeResponseEnds(s: State, e: Event)
    requires Decides(s, e) && Parse(Buffered(s, e), Response).Complete?
    ensures var s', u, buf := Step(s, e), s.clients[e.c].phase.up, Buffered(s, e);
            var total := Parse(buf, Response).total;
            && Elsewhere(s, s', e.c, u) && s'.clients[e.c].phase.Ready?
            && s'.clients[e.c].got == s.clients[e.c].got + [Delivery(u, |s.ups[u].drained|, buf[..total])]
            && s'.ups[u].drained == s.ups[u].drained + [buf[..total]] && s'.ups[u].buf == buf[total..]
            && (s'.ups[u].place.Idle? <==> s.ups[u].healthy && total == |buf|)
            && (s'.ups[u].place.Retired? <==> !s.ups[u].healthy || total < |buf|)
  {
  }

  /** With anything else it goes on. */
  lemma StillWaiting(s: State, e: Event)
    requires Decides(s, e) && Parse(Buffered(s, e), Response).Incomplete?
    ensures var s', u := Step(s, e), s.clients[e.c].phase.up;
            && Elsewhere(s, s', e.c, u) && s'.clients[e.c].got == s.clients[e.c].got
            && s'.clients[e.c].phase == Exchanging(u, false) && s'.ups[u].buf == Buffered(s, e)
            && s'.ups[u].place == s.ups[u].place && s'.ups[u].drained == s.ups[u].drained
  {
  }

  /** In every run, an exchange ends exactly when it is broken, a response is whole, or its task is
      dropped. */
  lemma ExchangeEndsExactly(s: State, e: Event, c: nat)
    requires AllWait(s) && InExchange(s, c)
    ensures c < |Step(s, e).clients|
    ensures !Step(s, e).clients[c].phase.Exchanging? <==>
              && (Broken(s, e) || (Decides(s, e) && Parse(Buffered(s, e), Response).Complete?) || e.Cancels?)
              && e.c == c
  {
    if Broken(s, e) {
      BrokenExchangeEnds(s, e);
    } else if Decides(s, e) && Parse(Buffered(s, e), Response).Complete? {
      WholeResponseEnds(s, e);
    } else if Decides(s, e) {
      StillWaiting(s, e);
    }
  }

  /** What dismisses a client: it leaves or cannot be answered, it gets no upstream, its exchange is
      broken, or its task is dropped. */
  predicate Dismisses(s: State, e: Event, c: nat) {
    || (e == Leaves(c) && InPhase(s, c, Ready))
    || (e == NoUpstream(c) && InPhase(s, c, Waiting))
    || (Broken(s, e) && e.c == c)
    || (e.Cancels? && e.c == c)
  }

  /** A step that is not of an exchange. */
  lemma DismissedOutside(s: State, e: Event, c: nat)
    requires c < |s.clients| && !e.Written? && !e.Reads? && !e.Fails?
    ensures c < |Step(s, e).clients|
    ensures InPhase(Step(s, e), c, Gone) <==> InPhase(s, c, Gone) || Dismisses(s, e, c)
    ensures InPhase(s, c, Gone) ==> Step(s, e).clients[c] == s.clients[c]
  {
  }

  lemma DismissedInside(s: State, e: Event, c: nat)
    requires c < |s.clients| && (e.Written? || e.Reads? || e.Fails?)
    ensures c < |Step(s, e).clients|
    ensures InPhase(Step(s, e), c, Gone) <==> InPhase(s, c, Gone) || Dismisses(s, e, c)
    ensures InPhase(s, c, Gone) ==> Step(s, e).clients[c] == s.clients[c]
  {
    if Broken(s, e) {
      BrokenExchangeEnds(s, e);
    } else if Decides(s, e) && Parse(Buffered(s, e), Response).Complete? {
      WholeResponseEnds(s, e);
    } else if Decides(s, e) {
      StillWaiting(s, e);
    }
  }

  /** These and no other steps dismiss a client, and a client once dismissed asks for nothing and gets
      nothing more. */
  lemma DismissedExactly(s: State, e: Event, c: nat)
    requires c < |s.clients|
    ensures c < |Step(s, e).clients|
    ensures InPhase(Step(s, e), c, Gone) <==> InPhase(s, c, Gone) || Dismisses(s, e, c)
    ensures InPhase(s, c, Gone) ==> Step(s, e).clients[c] == s.clients[c]
  {
    if e.Written? || e.Reads? || e.Fails? {
      DismissedInside(s, e, c);
    } else {
      DismissedOutside(s, e, c);
    }
  }

  /** A discarded upstream stays so, in every run, and its history with it. */
  predicate Discarded(s: State, u: nat) {
    u < |s.ups| && s.ups[u].place.Retired?
  }

  /** The exchange over upstream `u` ends in a way that discards it: it is broken, or bytes are left
      over after the response. */
  predicate Spoils(s: State, e: Event, u: nat) {
    && (e.Written? || e.Reads? || e.Fails?) && InExchange(s, e.c) && s.clients[e.c].phase.up == u
    && (Broken(s, e)
        || (Decides(s, e) && Parse(Buffered(s, e), Response).Complete?
            && Parse(Buffered(s, e), Response).total < |Buffered(s, e)|))
  }

  lemma SpoiledInside(s: State, e: Event, u: nat)
    requires AllWait(s) && u < |s.ups| && (e.Written? || e.Reads? || e.Fails?)
    ensures Discarded(Step(s, e), u) <==> Discarded(s, u) || Spoils(s, e, u)
  {
    if InExchange(s, e.c) {
      assert Waits(s, e.c);
      if Broken(s, e) {
        BrokenExchangeEnds(s, e);
      } else if Decides(s, e) && Parse(Buffered(s, e), Response).Complete? {
        WholeResponseEnds(s, e);
      } else if Decides(s, e) {
        StillWaiting(s, e);
      }
    }
  }

  lemma SpoiledOutside(s: State, e: Event, u: nat)
    requires AllWait(s) && u < |s.ups| && !e.Written? && !e.Reads? && !e.Fails?
    ensures Discarded(Step(s, e), u) <==> Discarded(s, u) || (e == Retires(u) && Parked(s, u))
  {
    assert LooksClean(s, u);
    if e.Cancels? && InExchange(s, e.c) {
      assert Waits(s, e.c);
    }
    if e.LeaseIdle? && e.u < |s.ups| {
      assert LooksClean(s, e.u);
    }
  }

  /** In every run, an upstream is discarded exactly when its exchange is spoiled or the pool retires
      it while it is parked: not when a task is dropped, and not as it is leased. */
  lemma DiscardedExactly(s: State, e: Event, u: nat)
    requires AllWait(s) && u < |s.ups|
    ensures Discarded(Step(s, e), u) <==> Discarded(s, u) || Spoils(s, e, u) || (e == Retires(u) && Parked(s, u))
  {
    if e.Written? || e.Reads? || e.Fails? {
      SpoiledInside(s, e, u);
    } else {
      SpoiledOutside(s, e, u);
    }
  }

  lemma StepDiscarded(s: State, e: Event, u: nat)
    requires AllWait(s) && Discarded(s, u)
    ensures Discarded(Step(s, e), u)
    ensures Step(s, e).ups[u].written == s.ups[u].written && Step(s, e).ups[u].drained == s.ups[u].drained
  {
    if (e.Written? || e.Fails? || e.Reads? || e.Cancels?) && InExchange(s, e.c) {
      assert Waits(s, e.c);
    }
  }

  /** So no request is ever written to it again, and no response taken from it. */
  lemma {:induction false} NeverUsedAgain(s: State, events: seq<Event>, u: nat)
    requires AllWait(s) && Discarded(s, u)
    ensures var s' := Run(s, events);
            Discarded(s', u) && s'.ups[u].written == s.ups[u].written && s'.ups[u].drained == s.ups[u].drained
    decreases |events|
  {
    if events != [] {
      StepAllWait(s, events[0]);
      StepDiscarded(s, events[0], u);
      NeverUsedAgain(Step(s, events[0]), events[1..], u);
    }
  }

  // ---- Responses that cannot be framed ----

  /** What is buffered begins with this head. */
  predicate HeadArrived(s: State, e: Event, head: seq<Byte>) {
    Decides(s, e) && BeginsWith(Buffered(s, e), head)
  }

  /** A response with a transfer-encoding, however it is written and whatever else it says, never
      reaches the client: its upstream is discarded with the exchange. */
  lemma EncodedResponseGivenUp(s: State, e: Event, head: seq<Byte>, value: string)
    requires HeadArrived(s, e, head) && HasField(TextLines(head), "transfer-encoding", value)
    ensures GivenUp(s, Step(s, e), e.c, s.clients[e.c].phase.up)
  {
    EncodingRefused(head, Response, value);
    RefusedInStream(Buffered(s, e), head, Response);
    BrokenExchangeEnds(s, e);
  }

  /** Nor does one that gives no length and does not do without: it could only end with the
      connection. */
  lemma LengthlessResponseGivenUp(s: State, e: Event, head: seq<Byte>, version: string, status: string, reason: string)
    requires HeadArrived(s, e, head) && TextLines(head)[0] == version + " " + status + " " + reason
    requires OneWord(version) && status != "" && Digits(status)
    requires forall lower, value :: FramingName(lower) ==> !HasField(TextLines(head), lower, value)
    requires status[0] != '1' && status != "204" && status != "304"
    ensures GivenUp(s, Step(s, e), e.c, s.clients[e.c].phase.up)
  {
    LengthlessExactly(head, version, status, reason);
    RefusedInStream(Buffered(s, e), head, Response);
    BrokenExchangeEnds(s, e);
  }
}
