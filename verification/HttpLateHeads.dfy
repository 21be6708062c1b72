/** Heads that end beyond the limit: when they are refused, when they are read, and when that
    depends on how the stream is split into reads. The read buffer's capacity decides. */
module HttpLateHeads {
  import opened PoolTypes
  import opened HttpText
  import opened HttpFraming
  import opened HttpStream
  import opened HttpReplies

  /** A capacity that a buffer comes to by growing: none, for one lost with a dropped read, or the
      first one doubled some number of times. */
  predicate Doubled(cap: nat)
    decreases cap
  {
    cap == 0 || cap == FIRST_CAPACITY || (cap > FIRST_CAPACITY && cap % 2 == 0 && Doubled(cap / 2))
  }

  ghost predicate Real(w: Wire) {
    |w.buf| <= w.cap && Doubled(w.cap)
  }

  lemma GrowDoubles(cap: nat)
    requires Doubled(cap)
    ensures Doubled(Grow(cap))
    ensures cap < MAX_HEAD ==> Grow(cap) <= MAX_HEAD
  {
    if 0 < cap {
      assert Grow(cap) == 2 * cap && Grow(cap) / 2 == cap;
      SmallDoubled(cap);
    }
  }

  lemma OnceDoubled(cap: nat)
    requires Doubled(cap) && 0 < cap < 2 * FIRST_CAPACITY
    ensures cap == FIRST_CAPACITY
  {
  }

  lemma TwiceDoubled(cap: nat)
    requires Doubled(cap) && 0 < cap < 4 * FIRST_CAPACITY
    ensures cap == FIRST_CAPACITY || cap == 2 * FIRST_CAPACITY
  {
    if FIRST_CAPACITY < cap {
      OnceDoubled(cap / 2);
    }
  }

  /** The capacities below the limit: 8, 16 and 32 KiB. */
  lemma SmallDoubled(cap: nat)
    requires Doubled(cap) && 0 < cap
    ensures FIRST_CAPACITY <= cap
    ensures cap < MAX_HEAD ==> cap <= MAX_HEAD / 2
  {
    if FIRST_CAPACITY < cap < MAX_HEAD {
      TwiceDoubled(cap / 2);
    }
  }

  /** A read keeps the buffer within its capacity, and grows it only when it is full. */
  lemma ReserveReal(w: Wire)
    requires Real(w)
    ensures Real(w.Reserve()) && (|w.buf| < MAX_HEAD && w.cap <= MAX_HEAD ==> w.Reserve().cap <= MAX_HEAD)
    ensures |w.buf| < w.cap ==> w.Reserve() == w
  {
    GrowDoubles(w.cap);
  }

  lemma ReadReal(w: Wire)
    requires Real(w) && w.input != []
    ensures Real(w.ReadMore()) && w.ReadMore().cap == w.Reserve().cap
  {
    ReserveReal(w);
  }

  // ---- The end of the head in the stream ----

  /** Where the first head of a stream ends, if it has an end. */
  function HeadEnd(stream: seq<Byte>): (r: Option<nat>)
    ensures r.Some? ==> 4 <= r.value <= |stream|
  {
    var pos := Find(stream, END_OF_HEAD);
    if pos.None? then None else Some(pos.value + 4)
  }

  /** Late, and so that the buffer can hold it all. */
  predicate LateWithin(stream: seq<Byte>, cap: nat) {
    HeadEnd(stream).Some? && MAX_HEAD < HeadEnd(stream).value <= cap
  }

  lemma NotYetBuffered(buf: seq<Byte>, rest: seq<Byte>)
    requires HeadEnd(buf + rest).Some? && |buf| < HeadEnd(buf + rest).value
    ensures Find(buf, END_OF_HEAD).None?
  {
    FindInPrefix(buf, rest);
  }

  lemma IsBuffered(buf: seq<Byte>, rest: seq<Byte>)
    requires HeadEnd(buf + rest).Some? && HeadEnd(buf + rest).value <= |buf|
    ensures Find(buf, END_OF_HEAD) == Find(buf + rest, END_OF_HEAD)
  {
    FindInPrefix(buf, rest);
  }

  // ---- Refused ----

  /** A late head that the buffer cannot hold without growing is refused: the buffer stops at the
      limit, or at its capacity beyond it, before the head's end. */
  lemma {:induction false} LateHeadNotFilled(w: Wire)
    requires Real(w) && !HeadFits(w.Stream()) && w.cap < HeadEnd(w.Stream()).value
    ensures FillHead(w).1.None? && FillHead(w).2 == Refused(HeadTooLarge)
    decreases |Flatten(w.input)|
  {
    NotYetBuffered(w.buf, Flatten(w.input));
    if |w.buf| < MAX_HEAD {
      ReserveReal(w);
      ReadReal(w);
      ReadKeepsStream(w);
      LateHeadNotFilled(w.ReadMore());
    }
  }

  lemma LateHeadRefused(w: Wire, kind: Kind)
    requires Real(w) && !HeadFits(w.Stream()) && w.cap < HeadEnd(w.Stream()).value
    ensures NextMessage(w, kind).1 == Refused(HeadTooLarge)
  {
    LateHeadNotFilled(w);
  }

  /** On a connection whose buffer has not grown beyond the limit, a late head is refused however
      it arrives. */
  lemma LateHeadRefusedWhileSmall(w: Wire, kind: Kind)
    requires Real(w) && w.cap <= MAX_HEAD && !HeadFits(w.Stream())
    ensures NextMessage(w, kind).1 == Refused(HeadTooLarge)
  {
    LateHeadRefused(w, kind);
  }

  // ---- Read ----

  /** A head once buffered is past the first limit, whatever else is wrong with the message. */
  lemma BufferedIsNotTooLarge(w: Wire, kind: Kind)
    requires Find(w.buf, END_OF_HEAD).Some?
    ensures NextMessage(w, kind).1 != Refused(HeadTooLarge)
  {
    var head := Find(w.buf, END_OF_HEAD).value + 4;
    NextIsBody(w, kind, head);
    NeverHeadTooLarge(w.buf[..head], kind);
  }

  lemma {:induction false} ScanNeverHeadTooLarge(lines: seq<string>, seen: Option<nat>)
    ensures Scan(lines, seen).1 != Some(HeadTooLarge)
  {
    if lines != [] {
      match ScanLine(lines[0], seen)
      case None => ScanNeverHeadTooLarge(lines[1..], seen);
      case Some(Ok(n)) => ScanNeverHeadTooLarge(lines[1..], Some(n));
      case _ =>
    }
  }

  lemma NeverHeadTooLarge(head: seq<Byte>, kind: Kind)
    ensures BodyLength(head, kind) != Err(HeadTooLarge)
  {
    ScanNeverHeadTooLarge(LinesOf(head)[1..], None);
  }

  /** The rest of a stream in one piece, and in two, the first of them of length `n`. */
  function Whole(rest: Chunk): seq<Chunk> {
    [rest]
  }

  function Split(rest: seq<Byte>, n: nat): seq<Chunk>
    requires 1 <= n < |rest|
  {
    [rest[..n], rest[n..]]
  }

  lemma PiecesFlatten(rest: seq<Byte>, n: nat)
    requires 1 <= n < |rest|
    ensures Flatten(Whole(rest)) == rest && Flatten(Split(rest, n)) == rest
  {
    assert Whole(rest)[1..] == [];
    var split := Split(rest, n);
    assert split[1..] == [rest[n..]] && split[1..][1..] == [];
    assert rest[..n] + rest[n..] == rest;
  }

  /** In one piece: one read buffers the whole head, if the buffer can hold it. */
  lemma WholeIsTaken(buf: seq<Byte>, cap: nat, rest: Chunk, ending: Ending, kind: Kind)
    requires |buf| < MAX_HEAD && LateWithin(buf + rest, cap)
    ensures NextMessage(Wire(buf, cap, Whole(rest), ending), kind).1 != Refused(HeadTooLarge)
  {
    var w := Wire(buf, cap, Whole(rest), ending);
    NotYetBuffered(buf, rest);
    WaitsForMore(w, kind);
    var n := if |rest| <= cap - |buf| then |rest| else cap - |buf|;
    var w' := w.ReadMore();
    assert w'.buf == buf + rest[..n];
    assert buf + rest == w'.buf + rest[n..];
    IsBuffered(w'.buf, rest[n..]);
    BufferedIsNotTooLarge(w', kind);
  }

  /** With a read that stops at the limit: refused. */
  lemma SplitIsRefused(buf: seq<Byte>, cap: nat, rest: seq<Byte>, ending: Ending, kind: Kind)
    requires |buf| < MAX_HEAD && LateWithin(buf + rest, cap)
    ensures 1 <= MAX_HEAD - |buf| < |rest|
    ensures NextMessage(Wire(buf, cap, Split(rest, MAX_HEAD - |buf|), ending), kind).1 == Refused(HeadTooLarge)
  {
    var n := MAX_HEAD - |buf|;
    var w := Wire(buf, cap, Split(rest, n), ending);
    NotYetBuffered(buf, rest);
    WaitsForMore(w, kind);
    var w' := w.ReadMore();
    assert w'.buf == buf + rest[..n];
    assert buf + rest == w'.buf + rest[n..];
    NotYetBuffered(w'.buf, rest[n..]);
    NoHeadYet(w', kind);
  }

  // ---- Exactly when the splitting matters ----

  /** Two ways to split the same bytes whose outcomes differ. */
  ghost predicate Differ(buf: seq<Byte>, cap: nat, ending: Ending, kind: Kind, a: seq<Chunk>, b: seq<Chunk>) {
    && Flatten(a) == Flatten(b)
    && NextMessage(Wire(buf, cap, a, ending), kind).1 != NextMessage(Wire(buf, cap, b, ending), kind).1
  }

  lemma WitnessDiffers(buf: seq<Byte>, cap: nat, rest: seq<Byte>, ending: Ending, kind: Kind)
    requires |buf| < MAX_HEAD && LateWithin(buf + rest, cap)
    ensures 1 <= MAX_HEAD - |buf| < |rest|
    ensures Differ(buf, cap, ending, kind, Whole(rest), Split(rest, MAX_HEAD - |buf|))
    ensures Flatten(Whole(rest)) == rest
  {
    SplitIsRefused(buf, cap, rest, ending, kind);
    WholeIsTaken(buf, cap, rest, ending, kind);
    PiecesFlatten(rest, MAX_HEAD - |buf|);
  }

  /** The outcome, wherever the stream alone decides it. */
  function Settled(buf: seq<Byte>, rest: seq<Byte>, ending: Ending, kind: Kind): Outcome {
    var stream := buf + rest;
    if HeadFits(stream) || HeadEnd(stream).value <= |buf| then
      match Parse(stream, kind)
      case Complete(total) => Message(stream[..total])
      case Incomplete => if ending.PeerClosed? then NoMore else IoError
      case Objection(why) => Refused(why)
    else Refused(HeadTooLarge)
  }

  /** Unless a late head fits into the buffer and is not there yet, the stream decides. */
  lemma OutcomeSettled(w: Wire, kind: Kind)
    requires Real(w) && !(|w.buf| < MAX_HEAD && LateWithin(w.Stream(), w.cap))
    ensures NextMessage(w, kind).1 == Settled(w.buf, Flatten(w.input), w.ending, kind)
  {
    if HeadFits(w.Stream()) {
      OutcomeByStream(w, kind);
    } else if HeadEnd(w.Stream()).value <= |w.buf| {
      BufferedByStream(w, kind);
    } else if w.cap < HeadEnd(w.Stream()).value {
      LateHeadRefused(w, kind);
    } else {
      NotYetBuffered(w.buf, Flatten(w.input));
      NoHeadYet(w, kind);
    }
  }

  lemma BufferedByStream(w: Wire, kind: Kind)
    requires HeadEnd(w.Stream()).Some? && HeadEnd(w.Stream()).value <= |w.buf|
    ensures ByStream(w, Parse(w.Stream(), kind), NextMessage(w, kind).0, NextMessage(w, kind).1)
  {
    var head := HeadEnd(w.Stream()).value;
    IsBuffered(w.buf, Flatten(w.input));
    SamePrefix(w.buf, Flatten(w.input), head);
    NextIsBody(w, kind, head);
    ParseIsWeighed(w.Stream(), kind, head);
    DeliverByStream(w, head, BodyLength(w.buf[..head], kind));
  }

  /** How a stream is split into reads changes the outcome of `read_message` if and only if its
      head ends beyond the limit and within the buffer's capacity, and the buffer does not yet
      hold as much as the limit. */
  lemma SplittingMattersExactly(buf: seq<Byte>, cap: nat, rest: seq<Byte>, ending: Ending, kind: Kind)
    requires Real(Wire(buf, cap, [], ending))
    ensures (exists a: seq<Chunk>, b: seq<Chunk> :: Flatten(a) == rest && Differ(buf, cap, ending, kind, a, b))
            <==> |buf| < MAX_HEAD && LateWithin(buf + rest, cap)
  {
    if |buf| < MAX_HEAD && LateWithin(buf + rest, cap) {
      WitnessDiffers(buf, cap, rest, ending, kind);
    } else {
      forall a: seq<Chunk>, b: seq<Chunk> | Flatten(a) == rest
        ensures !Differ(buf, cap, ending, kind, a, b)
      {
        if Flatten(b) == rest {
          OutcomeSettled(Wire(buf, cap, a, ending), kind);
          OutcomeSettled(Wire(buf, cap, b, ending), kind);
        }
      }
    }
  }

  // ---- How the capacity grows ----

  lemma {:induction false} FillHeadCapacity(w: Wire)
    requires Real(w)
    ensures var r := FillHead(w).0; Real(r) && (w.cap <= MAX_HEAD ==> r.cap <= MAX_HEAD) && w.cap <= r.cap
    decreases |Flatten(w.input)|
  {
    if Find(w.buf, END_OF_HEAD).None? && |w.buf| < MAX_HEAD {
      ReserveReal(w);
      if w.input != [] {
        ReadReal(w);
        FillHeadCapacity(w.ReadMore());
      }
    }
  }

  lemma {:induction false} FillToCapacity(w: Wire, total: nat)
    requires Real(w)
    ensures var r := FillTo(w, total);
            Real(r) && w.cap <= r.cap && (w.cap <= MAX_HEAD && total <= MAX_HEAD ==> r.cap <= MAX_HEAD)
    decreases |Flatten(w.input)|
  {
    if |w.buf| < total {
      ReserveReal(w);
      if w.input != [] {
        ReadReal(w);
        FillToCapacity(w.ReadMore(), total);
      }
    }
  }

  lemma DeliverCapacity(w: Wire, head: nat, body: Result)
    requires Real(w) && 4 <= head <= |w.buf|
    ensures var (w', outcome) := Deliver(w, head, body);
            && Real(w')
            && (outcome.Message? ==> (w'.cap > MAX_HEAD <==> w.cap > MAX_HEAD || |outcome.bytes| > MAX_HEAD))
  {
    if body.Ok? && body.n <= MAX_BODY {
      FillToCapacity(w, head + body.n);
    }
  }

  /** A message leaves a buffer of more than the limit behind if and only if the buffer was larger
      before or the message is longer. */
  lemma CapacityAfterMessage(w: Wire, kind: Kind)
    requires Real(w) && NextMessage(w, kind).1.Message?
    ensures var (w', outcome) := NextMessage(w, kind);
            Real(w') && (w'.cap > MAX_HEAD <==> w.cap > MAX_HEAD || |outcome.bytes| > MAX_HEAD)
  {
    FillHeadCapacity(w);
    var (w1, head, _) := FillHead(w);
    DeliverCapacity(w1, head.value, BodyLength(w1.buf[..head.value], kind));
    if w.cap <= MAX_HEAD {
      assert w1.cap <= MAX_HEAD;
    } else {
      assert w1.cap > MAX_HEAD;
    }
  }

  // ---- Whole conversations on a new connection ----

  /** Every head ends within the limit, or late but before any message longer than it; `roomy`
      says whether there was such a message already. */
  predicate Steady(stream: seq<Byte>, kind: Kind, roomy: bool)
    decreases |stream|
  {
    if !HeadFits(stream) then !roomy
    else
      var parsed := Parse(stream, kind);
      parsed.Complete? ==> Steady(stream[parsed.Taken()..], kind, roomy || parsed.total > MAX_HEAD)
  }

  /** The messages of a stream and how they end, a late head being refused. */
  function ParseLimited(stream: seq<Byte>, kind: Kind): (r: (seq<seq<Byte>>, Parsed))
    decreases |stream|
  {
    if !HeadFits(stream) then ([], Objection(HeadTooLarge))
    else
      var parsed := Parse(stream, kind);
      match parsed
      case Complete(total) =>
        var (rest, end) := ParseLimited(stream[parsed.Taken()..], kind);
        ([stream[..total]] + rest, end)
      case other => ([], other)
  }

  lemma {:induction false} SteadyByStream(w: Wire, kind: Kind, roomy: bool)
    requires Real(w) && (w.cap > MAX_HEAD ==> roomy) && Steady(w.Stream(), kind, roomy)
    ensures var (messages, end) := ParseLimited(w.Stream(), kind);
            && ReadAll(w, kind).0 == messages
            && ReadAll(w, kind).1 == (if end.Objection? then Refused(end.why) else w.End())
    decreases |w.Stream()|
  {
    if !HeadFits(w.Stream()) {
      LateHeadRefusedWhileSmall(w, kind);
    } else {
      OutcomeByStream(w, kind);
      NextMessageKeeps(w, kind);
      var (w', outcome) := NextMessage(w, kind);
      if outcome.Message? {
        CapacityAfterMessage(w, kind);
        SteadyByStream(w', kind, roomy || |outcome.bytes| > MAX_HEAD);
      }
    }
  }

  /** What a new connection yields depends only on the bytes, however they are split, if no head
      beyond the limit comes after a message longer than the limit. */
  lemma NewConversationByStream(input: seq<Chunk>, ending: Ending, kind: Kind)
    requires Steady(Flatten(input), kind, false)
    ensures var (messages, end) := ParseLimited(Flatten(input), kind);
            var w := NewWire(input, ending);
            && ReadAll(w, kind).0 == messages
            && ReadAll(w, kind).1 == (if end.Objection? then Refused(end.why) else w.End())
  {
    assert NewWire(input, ending).Stream() == Flatten(input);
    SteadyByStream(NewWire(input, ending), kind, false);
  }

  // ---- A late head after a long message ----

  /** Reading one message that arrives in a piece of its own takes just that piece. */
  lemma {:induction false} FillToPiece(w: Wire, piece: Chunk, later: seq<Chunk>)
    requires w.input == [piece] + later
    ensures var r := FillTo(w, |w.buf| + |piece|); r.buf == w.buf + piece && r.input == later
    decreases |piece|
  {
    var w' := w.ReadMore();
    assert w.input[0] == piece && w.input[1..] == later;
    if |w'.buf| < |w.buf| + |piece| {
      var n := |w'.buf| - |w.buf|;
      assert piece == piece[..n] + piece[n..];
      FillToPiece(w', piece[n..], later);
      assert w.buf + piece[..n] + piece[n..] == w.buf + piece;
    } else {
      assert FillTo(w', |w.buf| + |piece|) == w';
    }
  }

  /** The part of a message that filling the head leaves to be read. */
  ghost predicate PartRead(w: Wire, message: seq<Byte>, later: seq<Chunk>) {
    || (w.buf == message && w.input == later)
    || (w.input != [] && w.buf + w.input[0] == message && w.input[1..] == later)
  }

  lemma ReadsPart(w: Wire, message: seq<Byte>, later: seq<Chunk>)
    requires PartRead(w, message, later) && |w.buf| < |message|
    ensures w.input != [] && PartRead(w.ReadMore(), message, later)
  {
    var room := w.Reserve().cap - |w.buf|;
    if |w.input[0]| > room {
      assert w.ReadMore().input[1..] == later;
      assert w.input[0] == w.input[0][..room] + w.input[0][room..];
    }
  }

  lemma {:induction false} FillHeadPart(w: Wire, message: seq<Byte>, later: seq<Chunk>, kind: Kind)
    requires PartRead(w, message, later) && SelfFraming(message, kind)
    ensures PartRead(FillHead(w).0, message, later)
    decreases |Flatten(w.input)|
  {
    if Find(w.buf, END_OF_HEAD).None? && |w.buf| < MAX_HEAD && w.input != [] {
      SelfFramingHead(message, kind);
      if w.buf != message {
        ReadsPart(w, message, later);
        FillHeadPart(w.ReadMore(), message, later, kind);
      }
    }
  }

  lemma SelfFramingHead(message: seq<Byte>, kind: Kind)
    requires SelfFraming(message, kind)
    ensures Find(message, END_OF_HEAD).Some? && HeadFits(message) && Parse(message, kind) == Complete(|message|)
  {
    assert FramedBefore(message, [], kind) && message + [] == message;
  }

  lemma FillToPart(w: Wire, message: seq<Byte>, later: seq<Chunk>)
    requires PartRead(w, message, later) && |w.buf| <= |message|
    ensures var r := FillTo(w, |message|); r.buf == message && r.input == later
  {
    if w.buf != message {
      assert w.input == [w.input[0]] + later;
      FillToPiece(w, w.input[0], later);
    }
  }

  lemma DoubledAbove(cap: nat)
    requires Doubled(cap) && cap > MAX_HEAD
    ensures cap >= 2 * MAX_HEAD
  {
    SmallDoubled(cap / 2);
  }

  /** The head and the body of the message, in the buffer's terms. */
  lemma PartHead(w: Wire, message: seq<Byte>, later: seq<Chunk>, kind: Kind, head: nat)
    requires PartRead(w, message, later) && SelfFraming(message, kind)
    requires 4 <= head <= |w.buf| && Find(w.buf, END_OF_HEAD) == Some(head - 4)
    ensures |w.buf| <= |message|
    ensures var body := BodyLength(w.buf[..head], kind);
            body.Ok? && head + body.n == |message| && body.n <= MAX_BODY
  {
    SelfFramingHead(message, kind);
    var rest := if w.buf == message then [] else w.input[0];
    assert w.buf + rest == message;
    FindInPrefix(w.buf, rest);
    SamePrefix(w.buf, rest, head);
    ParseIsWeighed(message, kind, head);
  }

  lemma PieceHead(w: Wire, message: Chunk, later: seq<Chunk>, kind: Kind)
    requires w.buf == [] && w.input == [message] + later && SelfFraming(message, kind)
    ensures var (w1, head, _) := FillHead(w);
            && head.Some? && PartRead(w1, message, later) && w1.ending == w.ending
            && 4 <= head.value <= |w1.buf| && Find(w1.buf, END_OF_HEAD) == Some(head.value - 4)
  {
    assert w.input[0] == message && w.input[1..] == later && [] + message == message;
    FillHeadPart(w, message, later, kind);
    FillHeadKeeps(w);
    assert w.Stream() == message + Flatten(later);
    SelfFramingStream(message, Flatten(later), kind);
    FillHeadByStream(w);
    FillHeadFinds(w);
  }

  lemma SelfFramingStream(message: seq<Byte>, rest: seq<Byte>, kind: Kind)
    requires SelfFraming(message, kind)
    ensures HeadFits(message + rest) && Find(message + rest, END_OF_HEAD).Some?
  {
    assert FramedBefore(message, rest, kind);
  }

  lemma PieceDelivered(w: Wire, message: seq<Byte>, later: seq<Chunk>, head: nat, body: Result)
    requires PartRead(w, message, later) && 4 <= head <= |w.buf| <= |message|
    requires body.Ok? && head + body.n == |message| && body.n <= MAX_BODY
    ensures var (w', outcome) := Deliver(w, head, body);
            outcome == Message(message) && w'.buf == [] && w'.input == later && w'.ending == w.ending
  {
    FillToPart(w, message, later);
    FillToKeeps(w, |message|);
    assert message[..|message|] == message && message[|message|..] == [];
  }

  /** A message in a piece of its own is taken, and nothing else is read. */
  lemma PieceTaken(w: Wire, message: Chunk, later: seq<Chunk>, kind: Kind)
    requires w.buf == [] && w.input == [message] + later && SelfFraming(message, kind)
    ensures NextMessage(w, kind).1 == Message(message)
    ensures NextMessage(w, kind).0 == Wire([], NextMessage(w, kind).0.cap, later, w.ending)
  {
    PieceHead(w, message, later, kind);
    var (w1, head, _) := FillHead(w);
    PartHead(w1, message, later, kind, head.value);
    PieceDelivered(w1, message, later, head.value, BodyLength(w1.buf[..head.value], kind));
  }

  lemma {:induction false} FillHeadFinds(w: Wire)
    ensures var (w1, head, _) := FillHead(w);
            head.Some? ==> 4 <= head.value && Find(w1.buf, END_OF_HEAD) == Some(head.value - 4)
    decreases |Flatten(w.input)|
  {
    if Find(w.buf, END_OF_HEAD).None? && |w.buf| < MAX_HEAD && w.input != [] {
      FillHeadFinds(w.ReadMore());
    }
  }

  /** After a message longer than the limit, on a new connection, a head that ends beyond it but
      within twice the limit is read if it arrives in one piece and refused if a read stops at the
      limit. */
  lemma LateHeadAfterLongMessage(message: Chunk, late: Chunk, kind: Kind, ending: Ending)
    requires SelfFraming(message, kind) && |message| > MAX_HEAD && LateWithin(late, 2 * MAX_HEAD)
    ensures MAX_HEAD < |late|
    ensures var whole := NewWire([message] + Whole(late), ending);
            var split := NewWire([message] + Split(late, MAX_HEAD), ending);
            && whole.Stream() == split.Stream() == message + late
            && NextMessage(whole, kind).1 == NextMessage(split, kind).1 == Message(message)
            && NextMessage(NextMessage(whole, kind).0, kind).1 != Refused(HeadTooLarge)
            && NextMessage(NextMessage(split, kind).0, kind).1 == Refused(HeadTooLarge)
  {
    PiecesFlatten(late, MAX_HEAD);
    SecondMessage(message, Whole(late), kind, ending);
    SecondMessage(message, Split(late, MAX_HEAD), kind, ending);
    assert [] + late == late;
    WholeIsTaken([], NextMessage(NewWire([message] + Whole(late), ending), kind).0.cap, late, ending, kind);
    SplitIsRefused([], NextMessage(NewWire([message] + Split(late, MAX_HEAD), ending), kind).0.cap, late, ending, kind);
  }

  lemma SecondMessage(message: Chunk, later: seq<Chunk>, kind: Kind, ending: Ending)
    requires SelfFraming(message, kind) && |message| > MAX_HEAD
    ensures var w := NewWire([message] + later, ending);
            var (w', outcome) := NextMessage(w, kind);
            && w.Stream() == message + Flatten(later) && outcome == Message(message)
            && w' == Wire([], w'.cap, later, ending) && w'.cap >= 2 * MAX_HEAD
  {
    var w := NewWire([message] + later, ending);
    assert ([message] + later)[1..] == later;
    PieceTaken(w, message, later, kind);
    CapacityAfterMessage(w, kind);
    DoubledAbove(NextMessage(w, kind).0.cap);
  }

  /** There are such messages and such heads. */
  lemma LateHeadWitness(kind: Kind) returns (message: Chunk, late: Chunk)
    ensures SelfFraming(message, kind) && |message| > MAX_HEAD && LateWithin(late, 2 * MAX_HEAD)
  {
    var why: seq<Byte> := seq(70_000, i => 0);
    GatewaySound(why);
    SoundFrames(BadGateway(why), kind);
    message := Print(BadGateway(why));
    var line := seq(66_000, i => 'x');
    var lines := [line];
    assert AllPlain(lines);
    HeadEndsOnce(lines, []);
    HeadBytes(lines);
    var head := Bytes(HeadText(lines));
    assert head + [] == head && lines[1..] == [];
    late := head;
  }
}
