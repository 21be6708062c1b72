/** Reading whole messages from a stream that arrives in arbitrary pieces. */
module HttpStream {
  import opened PoolTypes
  import opened HttpText
  import opened HttpFraming

  /** What one successful read delivers: never nothing. */
  type Chunk = c: seq<Byte> | c != [] witness [0]

  /** How the stream ends after the last chunk: the peer closes, or the read fails. */
  datatype Ending = PeerClosed | Broken

  datatype Outcome = Message(bytes: seq<Byte>) | NoMore | Refused(why: Refusal) | IoError

  function Flatten(chunks: seq<seq<Byte>>): seq<Byte> {
    if chunks == [] then [] else chunks[0] + Flatten(chunks[1..])
  }

  /** The capacity of a new connection's read buffer. */
  const FIRST_CAPACITY: nat := 8 * 1024

  /** The capacity after `reserve` on a full buffer: at least double. */
  function Grow(len: nat): (r: nat)
    ensures r >= len + FIRST_CAPACITY
  {
    if 2 * len >= len + FIRST_CAPACITY then 2 * len else len + FIRST_CAPACITY
  }

  /** A connection seen by the reader: what is buffered, the buffer's capacity, and the pieces in
      which the rest arrives. */
  datatype Wire = Wire(buf: seq<Byte>, cap: nat, input: seq<Chunk>, ending: Ending)
  {
    function Stream(): seq<Byte> {
      buf + Flatten(input)
    }

    /** A full buffer grows before a read. */
    function Reserve(): (r: Wire)
      ensures |r.buf| < r.cap && r == this.(cap := r.cap)
    {
      if |buf| < cap then this else this.(cap := Grow(|buf|))
    }

    /** One read: the next piece, or as much of it as the buffer has room for. */
    function ReadMore(): (r: Wire)
      requires input != []
      ensures |buf| < |r.buf| <= r.cap == Reserve().cap && r.ending == ending
      ensures |r.buf| + |Flatten(r.input)| == |buf| + |Flatten(input)|
    {
      var room := Reserve().cap - |buf|;
      var piece, later := input[0], input[1..];
      if |piece| <= room then Wire(buf + piece, Reserve().cap, later, ending)
      else Wire(buf + piece[..room], Reserve().cap, [piece[room..]] + later, ending)
    }

    function End(): Outcome {
      if ending.PeerClosed? then NoMore else IoError
    }
  }

  /** A connection just opened. */
  function NewWire(input: seq<Chunk>, ending: Ending): Wire {
    Wire([], FIRST_CAPACITY, input, ending)
  }

  /** Read until the buffer holds the end of a head: its length, or why not. */
  function FillHead(w: Wire): (r: (Wire, Option<nat>, Outcome))
    ensures r.1.Some? ==> 4 <= r.1.value <= |r.0.buf|
    ensures r.1.None? ==> !r.2.Message?
    decreases |Flatten(w.input)|
  {
    var pos := Find(w.buf, END_OF_HEAD);
    if pos.Some? then (w, Some(pos.value + 4), NoMore)
    else if |w.buf| >= MAX_HEAD then (w, None, Refused(HeadTooLarge))
    else if w.input == [] then (w.Reserve(), None, w.End())
    else FillHead(w.ReadMore())
  }

  /** Read until the buffer holds `total` bytes, or the stream ends. */
  function FillTo(w: Wire, total: nat): (r: Wire)
    ensures |w.buf| <= |r.buf|
    decreases |Flatten(w.input)|
  {
    if |w.buf| >= total then w else if w.input == [] then w.Reserve() else FillTo(w.ReadMore(), total)
  }

  /** The last part of `read_message`: read the body, drain the message. */
  function Deliver(w: Wire, head: nat, body: Result): (Wire, Outcome)
    requires 4 <= head <= |w.buf|
  {
    match body
    case Err(why) => (w, Refused(why))
    case Ok(n) =>
      if n > MAX_BODY then (w, Refused(BodyTooLarge))
      else
        var total := head + body.Size();
        var w' := FillTo(w, total);
        if |w'.buf| < total then (w', w'.End())
        else (w'.(buf := w'.buf[total..]), Message(w'.buf[..total]))
  }

  /** `read_message`. */
  function NextMessage(w: Wire, kind: Kind): (Wire, Outcome) {
    var (w1, head, end) := FillHead(w);
    if head.None? then (w1, end) else Deliver(w1, head.value, BodyLength(w1.buf[..head.value], kind))
  }

  // ---- Nothing is lost ----

  lemma ReadKeepsStream(w: Wire)
    requires w.input != []
    ensures w.ReadMore().Stream() == w.Stream()
  {
    var room := w.Reserve().cap - |w.buf|;
    var piece := w.input[0];
    if |piece| > room {
      assert piece == piece[..room] + piece[room..];
      assert w.ReadMore().input[1..] == w.input[1..];
    }
  }

  lemma {:induction false} FillHeadKeeps(w: Wire)
    ensures var r := FillHead(w).0; r.ending == w.ending && r.Stream() == w.Stream()
    decreases |Flatten(w.input)|
  {
    if Find(w.buf, END_OF_HEAD).None? && |w.buf| < MAX_HEAD && w.input != [] {
      ReadKeepsStream(w);
      FillHeadKeeps(w.ReadMore());
    }
  }

  lemma {:induction false} FillToKeeps(w: Wire, total: nat)
    ensures var r := FillTo(w, total);
            r.ending == w.ending && r.Stream() == w.Stream() && (|r.buf| < total ==> r.input == [])
    decreases |Flatten(w.input)|
  {
    if |w.buf| < total && w.input != [] {
      ReadKeepsStream(w);
      FillToKeeps(w.ReadMore(), total);
    }
  }

  lemma DeliverKeeps(w: Wire, head: nat, body: Result)
    requires 4 <= head <= |w.buf|
    ensures var (w', outcome) := Deliver(w, head, body);
            && w'.ending == w.ending && (if outcome.Message? then outcome.bytes else []) + w'.Stream() == w.Stream()
            && (outcome.Message? ==> |outcome.bytes| >= 4)
  {
    if body.Ok? && body.n <= MAX_BODY {
      FillToKeeps(w, head + body.n);
      var w', total := FillTo(w, head + body.n), head + body.n;
      if total <= |w'.buf| {
        assert w'.buf == w'.buf[..total] + w'.buf[total..];
        assert w'.buf[..total] + (w'.buf[total..] + Flatten(w'.input)) == w'.buf + Flatten(w'.input);
      }
    }
  }

  /** Whatever the outcome, the message drained and what is left are what there was. */
  lemma NextMessageKeeps(w: Wire, kind: Kind)
    ensures var (w', outcome) := NextMessage(w, kind);
            && w'.ending == w.ending && (if outcome.Message? then outcome.bytes else []) + w'.Stream() == w.Stream()
            && (outcome.Message? ==> |outcome.bytes| >= 4)
  {
    FillHeadKeeps(w);
    var (w1, head, end) := FillHead(w);
    if head.Some? {
      DeliverKeeps(w1, head.value, BodyLength(w1.buf[..head.value], kind));
    }
  }

  /** A connection framed as messages: a stream, a read buffer and a health flag. */
  class Framed {
    var buf: seq<Byte>
    var capacity: nat
    var input: seq<Chunk>
    var ending: Ending
    var healthy: bool

    constructor (input: seq<Chunk>, ending: Ending)
      ensures View() == NewWire(input, ending) && healthy
    {
      this.input, this.ending, buf, capacity, healthy := input, ending, [], FIRST_CAPACITY, true;
    }

    ghost function View(): Wire
      reads this
    {
      Wire(buf, capacity, input, ending)
    }

    /** Append one read to the buffer, growing it first if it is full; false if the stream has
        ended. */
    method ReadMore() returns (more: bool)
      modifies this`buf, this`capacity, this`input
      ensures more == (old(input) != [])
      ensures View() == if more then old(View()).ReadMore() else old(View()).Reserve()
    {
      if |buf| >= capacity {
        capacity := Grow(|buf|);
      }
      more := input != [];
      if more {
        var room := capacity - |buf|;
        var piece := input[0];
        if |piece| <= room {
          buf, input := buf + piece, input[1..];
        } else {
          buf, input := buf + piece[..room], [piece[room..]] + input[1..];
        }
      }
    }

    /** Read until the buffer holds the end of a head, within its limit. */
    method ReadHead() returns (headEnd: Option<nat>, end: Outcome)
      modifies this`buf, this`capacity, this`input
      ensures (View(), headEnd, end) == FillHead(old(View()))
    {
      while true
        invariant FillHead(View()) == FillHead(old(View()))
        decreases |Flatten(input)|
      {
        var pos := Find(buf, END_OF_HEAD);
        if pos.Some? {
          return Some(pos.value + 4), NoMore;
        }
        if |buf| >= MAX_HEAD {
          return None, Refused(HeadTooLarge);
        }
        var more := ReadMore();
        if !more {
          return None, if ending.PeerClosed? then NoMore else IoError;
        }
      }
    }

    /** Read until the buffer holds `total` bytes; false if the stream ends first. */
    method ReadBody(total: nat) returns (whole: bool)
      modifies this`buf, this`capacity, this`input
      ensures View() == FillTo(old(View()), total)
      ensures whole == (|buf| >= total)
    {
      while |buf| < total
        invariant FillTo(View(), total) == FillTo(old(View()), total)
        decreases |Flatten(input)|
      {
        var more := ReadMore();
        if !more {
          return false;
        }
      }
      whole := true;
    }

    /** Read the body of the message whose head ends at `headEnd` and drain the message. */
    method Finish(headEnd: nat, body: Result) returns (r: Outcome)
      requires 4 <= headEnd <= |buf|
      modifies this`buf, this`capacity, this`input
      ensures (View(), r) == Deliver(old(View()), headEnd, body)
    {
      if body.Err? {
        return Refused(body.why);
      }
      if body.n > MAX_BODY {
        return Refused(BodyTooLarge);
      }
      var total := headEnd + body.n;
      var whole := ReadBody(total);
      if !whole {
        return if ending.PeerClosed? then NoMore else IoError;
      }
      r := Message(buf[..total]);
      buf := buf[total..];
    }

    /** Read one whole message and drain it from the buffer; anything after it stays. */
    method ReadMessage(kind: Kind) returns (r: Outcome)
      modifies this`buf, this`capacity, this`input
      ensures (View(), r) == NextMessage(old(View()), kind)
    {
      var headEnd, end := ReadHead();
      if headEnd.None? {
        return end;
      }
      var body := ComputeBodyLength(buf[..headEnd.value], kind);
      r := Finish(headEnd.value, body);
    }
  }

  // ---- The stream alone decides ----

  /** What the beginning of a stream is, however it arrives. */
  datatype Parsed = Complete(total: nat) | Incomplete | Objection(why: Refusal)
  {
    /** How much a complete message takes; never nothing. */
    function Taken(): (r: nat)
      ensures r >= 1
    {
      if Complete? && total >= 1 then total else 1
    }
  }

  /** What a head and the length of its body come to, given how much there is. */
  function Weighed(there: nat, head: nat, body: Result): (r: Parsed)
    ensures r.Complete? ==> head <= r.total <= there
  {
    match body
    case Err(why) => Objection(why)
    case Ok(n) =>
      if n > MAX_BODY then Objection(BodyTooLarge) else if head + n <= there then Complete(head + n) else Incomplete
  }

  function Parse(stream: seq<Byte>, kind: Kind): (r: Parsed)
    ensures r.Complete? ==> 4 <= r.total <= |stream|
  {
    var pos := Find(stream, END_OF_HEAD);
    if pos.None? then if |stream| >= MAX_HEAD then Objection(HeadTooLarge) else Incomplete
    else Weighed(|stream|, pos.value + 4, BodyLength(stream[..pos.value + 4], kind))
  }

  /** The head of the next message, if it has an end, ends within the limit. */
  predicate HeadFits(stream: seq<Byte>) {
    var pos := Find(stream, END_OF_HEAD);
    pos.Some? ==> pos.value + 4 <= MAX_HEAD
  }

  /** A match in the beginning is a match in the whole, and conversely if it lies within. */
  lemma FindInPrefix(a: seq<Byte>, b: seq<Byte>)
    ensures Find(a, END_OF_HEAD).Some? ==> Find(a + b, END_OF_HEAD) == Find(a, END_OF_HEAD)
    ensures Find(a, END_OF_HEAD).None? && Find(a + b, END_OF_HEAD).Some? ==> Find(a + b, END_OF_HEAD).value + 4 > |a|
  {
    FindFirst(a, END_OF_HEAD);
    FindFirst(a + b, END_OF_HEAD);
    if Find(a, END_OF_HEAD).Some? {
      var k := Find(a, END_OF_HEAD).value;
      forall j: nat | j <= k
        ensures MatchesAt(a + b, END_OF_HEAD, j) == MatchesAt(a, END_OF_HEAD, j)
      {
        MatchInPrefix(a, b, j);
      }
      FindIs(a + b, END_OF_HEAD, k);
    } else if Find(a + b, END_OF_HEAD).Some? && Find(a + b, END_OF_HEAD).value + 4 <= |a| {
      MatchInPrefix(a, b, Find(a + b, END_OF_HEAD).value);
    }
  }

  lemma MatchInPrefix(a: seq<Byte>, b: seq<Byte>, k: nat)
    requires k + 4 <= |a|
    ensures MatchesAt(a + b, END_OF_HEAD, k) == MatchesAt(a, END_OF_HEAD, k)
  {
    assert (a + b)[k..k + 4] == a[k..k + 4];
  }

  /** If the head fits, filling finds exactly where it ends in the stream. */
  lemma {:induction false} FillHeadByStream(w: Wire)
    requires HeadFits(w.Stream())
    ensures var (w1, head, end) := FillHead(w);
            var pos := Find(w.Stream(), END_OF_HEAD);
            && (pos.Some? ==> head == Some(pos.value + 4))
            && (pos.None? ==> head.None?)
            && (pos.None? && |w.Stream()| >= MAX_HEAD ==> end == Refused(HeadTooLarge))
            && (pos.None? && |w.Stream()| < MAX_HEAD ==> end == w.End() && w1.buf == w.Stream())
    decreases |Flatten(w.input)|
  {
    FindInPrefix(w.buf, Flatten(w.input));
    if Find(w.buf, END_OF_HEAD).None? && |w.buf| < MAX_HEAD && w.input != [] {
      ReadKeepsStream(w);
      FillHeadByStream(w.ReadMore());
    } else if w.input == [] {
      assert w.Stream() == w.buf;
    }
  }

  /** What the stream alone makes of an outcome and of what is left. */
  ghost predicate ByStream(w: Wire, parsed: Parsed, w': Wire, outcome: Outcome)
    requires parsed.Complete? ==> 1 <= parsed.total <= |w.Stream()|
  {
    match parsed
    case Complete(total) => outcome == Message(w.Stream()[..total]) && w'.Stream() == w.Stream()[parsed.Taken()..]
    case Incomplete => outcome == w.End() && w'.Stream() == w.Stream()
    case Objection(why) => outcome == Refused(why) && w'.Stream() == w.Stream()
  }

  lemma DeliverByStream(w: Wire, head: nat, body: Result)
    requires 4 <= head <= |w.buf|
    ensures var (w', outcome) := Deliver(w, head, body);
            ByStream(w, Weighed(|w.Stream()|, head, body), w', outcome)
  {
    if body.Ok? && body.n <= MAX_BODY {
      FillToKeeps(w, head + body.n);
      BodyByStream(w, head + body.n);
    }
  }

  lemma NoHeadByStream(w: Wire, kind: Kind)
    requires HeadFits(w.Stream()) && Find(w.Stream(), END_OF_HEAD).None?
    ensures ByStream(w, Parse(w.Stream(), kind), NextMessage(w, kind).0, NextMessage(w, kind).1)
  {
    FillHeadByStream(w);
    FillHeadKeeps(w);
  }

  /** However the bytes are split into reads, the outcome is the one the stream has. */
  lemma OutcomeByStream(w: Wire, kind: Kind)
    requires HeadFits(w.Stream())
    ensures ByStream(w, Parse(w.Stream(), kind), NextMessage(w, kind).0, NextMessage(w, kind).1)
  {
    if Find(w.Stream(), END_OF_HEAD).None? {
      NoHeadByStream(w, kind);
    } else {
      var (w1, head, _) := FillHead(w);
      FillHeadByStream(w);
      FillHeadKeeps(w);
      SamePrefix(w1.buf, Flatten(w1.input), head.value);
      DeliverByStream(w1, head.value, BodyLength(w1.buf[..head.value], kind));
    }
  }

  lemma SamePrefix(a: seq<Byte>, b: seq<Byte>, n: nat)
    requires n <= |a|
    ensures (a + b)[..n] == a[..n]
  {
  }

  lemma BodyByStream(w: Wire, total: nat)
    ensures var w' := FillTo(w, total);
            && (total <= |w.Stream()| <==> total <= |w'.buf|)
            && (total <= |w.Stream()| ==> w'.buf[..total] == w.Stream()[..total]
                                          && w'.buf[total..] + Flatten(w'.input) == w.Stream()[total..])
  {
    var w' := FillTo(w, total);
    FillToKeeps(w, total);
    if total <= |w'.buf| {
      assert w'.Stream() == w'.buf + Flatten(w'.input);
    } else {
      assert w'.input == [] && w'.Stream() == w'.buf;
    }
  }

  // ---- Whole conversations ----

  /** All messages until none comes, how it ended, and what is left. */
  function ReadAll(w: Wire, kind: Kind): (r: (seq<seq<Byte>>, Outcome, Wire))
    decreases |w.Stream()|
  {
    var (w', outcome) := NextMessage(w, kind);
    if !outcome.Message? then ([], outcome, w')
    else
      NextMessageKeeps(w, kind);
      var (rest, end, last) := ReadAll(w', kind);
      ([outcome.bytes] + rest, end, last)
  }

  /** However it was split and wherever it ended: the messages drained and what is left, in the
      buffer or still to come, are exactly the bytes of the stream. */
  lemma {:induction false} NothingLost(w: Wire, kind: Kind)
    ensures Flatten(ReadAll(w, kind).0) + ReadAll(w, kind).2.Stream() == w.Stream()
    decreases |w.Stream()|
  {
    var (w', outcome) := NextMessage(w, kind);
    NextMessageKeeps(w, kind);
    if outcome.Message? {
      NothingLost(w', kind);
      FlattenFirst(outcome.bytes, ReadAll(w', kind).0, ReadAll(w', kind).2.Stream());
    }
  }

  lemma FlattenFirst(first: seq<Byte>, rest: seq<seq<Byte>>, more: seq<Byte>)
    ensures Flatten([first] + rest) + more == first + (Flatten(rest) + more)
  {
    assert ([first] + rest)[1..] == rest;
  }

  /** The same of a stream alone. */
  function ParseAll(stream: seq<Byte>, kind: Kind): (r: (seq<seq<Byte>>, Parsed, seq<Byte>))
    decreases |stream|
  {
    match Parse(stream, kind)
    case Complete(total) =>
      var (rest, end, last) := ParseAll(stream[Parse(stream, kind).Taken()..], kind);
      ([stream[..total]] + rest, end, last)
    case other => ([], other, stream)
  }

  predicate HeadsFit(stream: seq<Byte>, kind: Kind)
    decreases |stream|
  {
    HeadFits(stream) && (Parse(stream, kind).Complete? ==> HeadsFit(stream[Parse(stream, kind).Taken()..], kind))
  }

  /** If every head ends within its limit, the messages, the end and the rest depend only on the
      bytes, not on how they were split into reads. */
  lemma {:induction false} ConversationByStream(w: Wire, kind: Kind)
    requires HeadsFit(w.Stream(), kind)
    ensures var (messages, end, last) := ReadAll(w, kind);
            var (messages', end', rest) := ParseAll(w.Stream(), kind);
            && messages == messages' && last.Stream() == rest
            && end == (if end'.Objection? then Refused(end'.why) else w.End())
    decreases |w.Stream()|
  {
    OutcomeByStream(w, kind);
    NextMessageKeeps(w, kind);
    var (w', outcome) := NextMessage(w, kind);
    if outcome.Message? {
      ConversationByStream(w', kind);
    }
  }

  lemma SplittingIrrelevant(w: Wire, v: Wire, kind: Kind)
    requires w.Stream() == v.Stream() && w.ending == v.ending && HeadsFit(w.Stream(), kind)
    ensures ReadAll(w, kind).0 == ReadAll(v, kind).0 && ReadAll(w, kind).1 == ReadAll(v, kind).1
    ensures ReadAll(w, kind).2.Stream() == ReadAll(v, kind).2.Stream()
  {
    ConversationByStream(w, kind);
    ConversationByStream(v, kind);
  }

  /** Bytes that are read as exactly one message, whatever follows them. */
  ghost predicate SelfFraming(m: seq<Byte>, kind: Kind) {
    forall rest: seq<Byte> :: FramedBefore(m, rest, kind)
  }

  predicate FramedBefore(m: seq<Byte>, rest: seq<Byte>, kind: Kind) {
    Parse(m + rest, kind) == Complete(|m|) && HeadFits(m + rest)
  }

  lemma ParseAllStep(first: seq<Byte>, rest: seq<Byte>, kind: Kind)
    requires FramedBefore(first, rest, kind) && HeadsFit(rest, kind)
    ensures HeadsFit(first + rest, kind)
    ensures var (messages, end, last) := ParseAll(rest, kind);
            ParseAll(first + rest, kind) == ([first] + messages, end, last)
  {
    assert (first + rest)[..|first|] == first && (first + rest)[|first|..] == rest;
  }

  /** Such messages, one after another, are read back as they are, with nothing left. */
  lemma {:induction false} MessagesParse(messages: seq<seq<Byte>>, kind: Kind)
    requires forall k :: 0 <= k < |messages| ==> SelfFraming(messages[k], kind)
    ensures HeadsFit(Flatten(messages), kind)
    ensures ParseAll(Flatten(messages), kind) == (messages, Incomplete, [])
  {
    if messages == [] {
      assert Find<Byte>([], END_OF_HEAD) == None;
    } else {
      var first, rest := messages[0], Flatten(messages[1..]);
      MessagesParse(messages[1..], kind);
      assert SelfFraming(first, kind) && FramedBefore(first, rest, kind);
      ParseAllStep(first, rest, kind);
      assert messages == [first] + messages[1..];
    }
  }

  // ---- Reading piece by piece ----

  /** Reading more does not move the end of a head that is already buffered. */
  lemma HeadStays(w: Wire)
    requires w.input != [] && Find(w.buf, END_OF_HEAD).Some?
    ensures var head := Find(w.buf, END_OF_HEAD).value + 4;
            Find(w.ReadMore().buf, END_OF_HEAD) == Some(head - 4) && w.ReadMore().buf[..head] == w.buf[..head]
  {
    var more := w.ReadMore().buf[|w.buf|..];
    assert w.ReadMore().buf == w.buf + more;
    FindInPrefix(w.buf, more);
  }

  lemma WaitsForBody(w: Wire, kind: Kind)
    requires Parse(w.buf, kind).Incomplete? && w.input != [] && Find(w.buf, END_OF_HEAD).Some?
    ensures NextMessage(w, kind) == NextMessage(w.ReadMore(), kind)
  {
    HeadStays(w);
    var head := Find(w.buf, END_OF_HEAD).value + 4;
    assert FillHead(w) == (w, Some(head), NoMore);
    assert FillHead(w.ReadMore()) == (w.ReadMore(), Some(head), NoMore);
    var total := head + BodyLength(w.buf[..head], kind).n;
    assert FillTo(w, total) == FillTo(w.ReadMore(), total);
  }

  lemma WaitsForMore(w: Wire, kind: Kind)
    requires Parse(w.buf, kind).Incomplete? && w.input != []
    ensures NextMessage(w, kind) == NextMessage(w.ReadMore(), kind)
  {
    if Find(w.buf, END_OF_HEAD).Some? {
      WaitsForBody(w, kind);
    } else {
      assert FillHead(w) == FillHead(w.ReadMore());
    }
  }

  /** What the reader does once it has decided. */
  function Decided(w: Wire, parsed: Parsed): (Wire, Outcome)
    requires parsed.Complete? ==> 1 <= parsed.total <= |w.buf|
  {
    match parsed
    case Complete(total) => (w.(buf := w.buf[parsed.Taken()..]), Message(w.buf[..total]))
    case Objection(why) => (w, Refused(why))
    case Incomplete => (w.Reserve(), w.End())
  }

  lemma DeliversNow(w: Wire, head: nat, body: Result)
    requires 4 <= head <= |w.buf| && (Weighed(|w.buf|, head, body).Incomplete? ==> w.input == [])
    ensures Deliver(w, head, body) == Decided(w, Weighed(|w.buf|, head, body))
  {
    if body.Ok? && body.n <= MAX_BODY {
      assert FillTo(w, head + body.n) == if head + body.n <= |w.buf| then w else w.Reserve();
    }
  }

  /** With the head buffered, the body is next. */
  lemma NextIsBody(w: Wire, kind: Kind, head: nat)
    requires 4 <= head <= |w.buf| && Find(w.buf, END_OF_HEAD) == Some(head - 4)
    ensures NextMessage(w, kind) == Deliver(w, head, BodyLength(w.buf[..head], kind))
  {
    assert FillHead(w) == (w, Some(head), NoMore);
  }

  lemma NoHeadYet(w: Wire, kind: Kind)
    requires Find(w.buf, END_OF_HEAD).None? && (|w.buf| >= MAX_HEAD || w.input == [])
    ensures NextMessage(w, kind) == Decided(w, Parse(w.buf, kind))
  {
    assert FillHead(w) == if |w.buf| >= MAX_HEAD then (w, None, Refused(HeadTooLarge)) else (w.Reserve(), None, w.End());
  }

  lemma DecidesOnBody(w: Wire, kind: Kind, head: nat)
    requires 4 <= head <= |w.buf| && Find(w.buf, END_OF_HEAD) == Some(head - 4)
    requires !Parse(w.buf, kind).Incomplete? || w.input == []
    ensures NextMessage(w, kind) == Decided(w, Parse(w.buf, kind))
  {
    var body := BodyLength(w.buf[..head], kind);
    ParseIsWeighed(w.buf, kind, head);
    NextIsBody(w, kind, head);
    DeliversNow(w, head, body);
  }

  lemma ParseIsWeighed(stream: seq<Byte>, kind: Kind, head: nat)
    requires 4 <= head <= |stream| && Find(stream, END_OF_HEAD) == Some(head - 4)
    ensures Parse(stream, kind) == Weighed(|stream|, head, BodyLength(stream[..head], kind))
  {
  }

  lemma DecidesNow(w: Wire, kind: Kind)
    requires !Parse(w.buf, kind).Incomplete? || w.input == []
    ensures NextMessage(w, kind) == Decided(w, Parse(w.buf, kind))
  {
    if Find(w.buf, END_OF_HEAD).None? {
      NoHeadYet(w, kind);
    } else {
      DecidesOnBody(w, kind, Find(w.buf, END_OF_HEAD).value + 4);
    }
  }

  /** `read_message` decides after every read on what is buffered, and only on that. */
  lemma ReadingByTurns(w: Wire, kind: Kind)
    ensures var parsed := Parse(w.buf, kind);
            NextMessage(w, kind) == if parsed.Incomplete? && w.input != [] then NextMessage(w.ReadMore(), kind)
                                    else Decided(w, parsed)
  {
    if Parse(w.buf, kind).Incomplete? && w.input != [] {
      WaitsForMore(w, kind);
    } else {
      DecidesNow(w, kind);
    }
  }
}
