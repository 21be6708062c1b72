/** The replies that the proxy and its bundled origin print, and the proof that the reader reads
    them back. */
module HttpReplies {
  import opened PoolTypes
  import opened HttpText
  import opened HttpFraming
  import opened HttpStream

  /** A head: its lines, each ended by CR LF, and an empty line. */
  function HeadText(lines: seq<string>): string {
    if lines == [] then "\r\n" else lines[0] + "\r\n" + HeadText(lines[1..])
  }

  predicate PlainChar(c: char) {
    c as nat < 0x80 && c != '\r' && c != '\n'
  }

  /** Not empty, ASCII, and on one line. */
  predicate Plain(line: string) {
    line != "" && forall k :: 0 <= k < |line| ==> PlainChar(line[k])
  }

  predicate AllPlain(lines: seq<string>) {
    forall k :: 0 <= k < |lines| ==> Plain(lines[k])
  }

  lemma {:induction false} HeadAscii(lines: seq<string>)
    requires AllPlain(lines)
    ensures Ascii(HeadText(lines)) && |HeadText(lines)| >= 2
  {
    if lines != [] {
      HeadAscii(lines[1..]);
      assert Plain(lines[0]);
    }
  }

  /** A line followed by the end of a head. */
  lemma EndAfterLine(line: seq<Byte>, rest: seq<Byte>)
    requires 13 !in line
    ensures Find(line + END_OF_HEAD + rest, END_OF_HEAD) == Some(|line|)
  {
    var all := line + END_OF_HEAD + rest;
    assert all[|line|..|line| + 4] == END_OF_HEAD;
    NoEndInLine(line, END_OF_HEAD + rest);
    assert all == line + (END_OF_HEAD + rest);
    FindIs(all, END_OF_HEAD, |line|);
  }

  lemma NoEndInLine(line: seq<Byte>, rest: seq<Byte>)
    requires 13 !in line
    ensures forall j :: 0 <= j < |line| ==> !MatchesAt(line + rest, END_OF_HEAD, j)
  {
    forall j | 0 <= j < |line|
      ensures !MatchesAt(line + rest, END_OF_HEAD, j)
    {
      assert (line + rest)[j] == line[j] && line[j] in line;
      if j + 4 <= |line + rest| {
        assert (line + rest)[j..j + 4][0] == line[j];
      }
    }
  }

  /** What a match says about the bytes. */
  lemma MatchBytes(all: seq<Byte>, j: nat)
    ensures MatchesAt(all, END_OF_HEAD, j) ==> j + 4 <= |all| && all[j] == 13 && all[j + 1] == 10 && all[j + 2] == 13
  {
    if j + 4 <= |all| {
      var m := all[j..j + 4];
      assert m[0] == all[j] && m[1] == all[j + 1] && m[2] == all[j + 2];
    }
  }

  /** No head ends at a line break that another line follows. */
  lemma NoEndAtBreak(line: seq<Byte>, after: seq<Byte>)
    requires after != [] && after[0] != 13
    ensures var all, n := line + [13, 10] + after, |line|;
            !MatchesAt(all, END_OF_HEAD, n) && !MatchesAt(all, END_OF_HEAD, n + 1)
  {
    var all, n := line + [13, 10] + after, |line|;
    MatchBytes(all, n);
    MatchBytes(all, n + 1);
  }

  lemma AfterBreak(line: seq<Byte>, after: seq<Byte>)
    ensures (line + [13, 10] + after)[|line| + 2..] == after
    ensures line + [13, 10] + after == line + ([13, 10] + after)
  {
  }

  /** A line followed by another line: the head ends where the rest of it ends. */
  lemma EndFurtherOn(line: seq<Byte>, after: seq<Byte>, p: nat)
    requires 13 !in line && after != [] && after[0] != 13
    requires Find(after, END_OF_HEAD) == Some(p)
    ensures Find(line + [13, 10] + after, END_OF_HEAD) == Some(|line| + 2 + p)
  {
    var all, n := line + [13, 10] + after, |line|;
    AfterBreak(line, after);
    NoEndInLine(line, [13, 10] + after);
    ShiftMatches(all, after, n + 2, p);
    NoEndAtBreak(line, after);
    FirstIs(all, n, p);
  }

  lemma FirstIs(all: seq<Byte>, n: nat, p: nat)
    requires forall j :: 0 <= j < n ==> !MatchesAt(all, END_OF_HEAD, j)
    requires !MatchesAt(all, END_OF_HEAD, n) && !MatchesAt(all, END_OF_HEAD, n + 1)
    requires forall j :: n + 2 <= j < n + 2 + p ==> !MatchesAt(all, END_OF_HEAD, j)
    requires MatchesAt(all, END_OF_HEAD, n + 2 + p)
    ensures Find(all, END_OF_HEAD) == Some(n + 2 + p)
  {
    forall j | 0 <= j < n + 2 + p
      ensures !MatchesAt(all, END_OF_HEAD, j)
    {
      assert j < n || j == n || j == n + 1 || j >= n + 2;
    }
    FindIs(all, END_OF_HEAD, n + 2 + p);
  }

  /** Matches in a tail are matches in the whole, further back. */
  lemma ShiftMatches(all: seq<Byte>, after: seq<Byte>, back: nat, p: nat)
    requires back <= |all| && all[back..] == after && Find(after, END_OF_HEAD) == Some(p)
    ensures MatchesAt(all, END_OF_HEAD, back + p)
    ensures forall j :: back <= j < back + p ==> !MatchesAt(all, END_OF_HEAD, j)
  {
    FindFirst(after, END_OF_HEAD);
    assert all[back + p..back + p + 4] == after[p..p + 4];
    forall j | back <= j < back + p
      ensures !MatchesAt(all, END_OF_HEAD, j)
    {
      assert !MatchesAt(after, END_OF_HEAD, j - back);
      if j + 4 <= |all| {
        assert all[j..j + 4] == after[j - back..j - back + 4];
      }
    }
  }

  /** The bytes of a head, from its first line on. */
  lemma HeadBytes(lines: seq<string>)
    requires AllPlain(lines) && lines != []
    ensures Ascii(lines[0]) && Ascii(HeadText(lines)) && Ascii(HeadText(lines[1..]))
    ensures 13 !in Bytes(lines[0]) && Bytes(lines[0]) != [] && Bytes(lines[0])[0] != 13
    ensures Bytes(HeadText(lines)) == Bytes(lines[0]) + [13, 10] + Bytes(HeadText(lines[1..]))
  {
    HeadAscii(lines);
    HeadAscii(lines[1..]);
    assert Plain(lines[0]);
    forall k | 0 <= k < |lines[0]|
      ensures lines[0][k] as nat != 13
    {
      assert PlainChar(lines[0][k]);
    }
  }

  /** The first empty line of a head is its end, whatever follows. */
  lemma {:induction false} HeadEndsOnce(lines: seq<string>, rest: seq<Byte>)
    requires AllPlain(lines) && lines != []
    ensures Ascii(HeadText(lines)) && |HeadText(lines)| >= 4
    ensures Find(Bytes(HeadText(lines)) + rest, END_OF_HEAD) == Some(|HeadText(lines)| - 4)
  {
    HeadBytes(lines);
    var line, tail := Bytes(lines[0]), Bytes(HeadText(lines[1..]));
    if |lines| == 1 {
      assert tail == [13, 10];
      assert line + [13, 10] + tail + rest == line + END_OF_HEAD + rest;
      EndAfterLine(line, rest);
    } else {
      HeadEndsOnce(lines[1..], rest);
      HeadBytes(lines[1..]);
      EndFurtherOn(line, tail + rest, |tail| - 4);
      assert line + [13, 10] + tail + rest == line + [13, 10] + (tail + rest);
    }
  }

  /** A line ends where its line break begins. */
  lemma LineBreak(line: string, rest: string)
    requires Plain(line)
    ensures Find(line + "\r\n" + rest, "\r\n") == Some(|line|)
  {
    var text := line + "\r\n" + rest;
    forall j | 0 <= j < |line|
      ensures !MatchesAt(text, "\r\n", j)
    {
      assert PlainChar(line[j]);
      assert text[j] == line[j];
    }
    assert text[|line|..|line| + 2] == "\r\n";
    FindIs(text, "\r\n", |line|);
  }

  lemma SplitFirst(line: string, rest: string)
    requires Plain(line)
    ensures SplitLines(line + "\r\n" + rest) == [line] + SplitLines(rest)
  {
    var text := line + "\r\n" + rest;
    LineBreak(line, rest);
    assert text[..|line|] == line && text[|line| + 2..] == rest;
  }

  /** A head splits into its lines and two empty ones. */
  lemma {:induction false} HeadLines(lines: seq<string>)
    requires AllPlain(lines)
    ensures SplitLines(HeadText(lines)) == lines + ["", ""]
  {
    if lines == [] {
      FindIs("\r\n", "\r\n", 0);
      assert SplitLines("") == [""];
    } else {
      assert Plain(lines[0]);
      SplitFirst(lines[0], HeadText(lines[1..]));
      HeadLines(lines[1..]);
      assert lines == [lines[0]] + lines[1..];
    }
  }

  function LowerAll(lines: seq<string>): (r: seq<string>)
    ensures |r| == |lines|
    ensures forall k :: 0 <= k < |r| ==> r[k] == Lower(lines[k])
  {
    seq(|lines|, k requires 0 <= k < |lines| => Lower(lines[k]))
  }

  lemma {:induction false} LowerHead(lines: seq<string>)
    ensures Lower(HeadText(lines)) == HeadText(LowerAll(lines))
  {
    if lines != [] {
      LowerHead(lines[1..]);
      assert LowerAll(lines)[1..] == LowerAll(lines[1..]);
      var text, text' := HeadText(lines), HeadText(LowerAll(lines));
      assert text == lines[0] + "\r\n" + HeadText(lines[1..]);
      assert text' == Lower(lines[0]) + "\r\n" + Lower(HeadText(lines[1..]));
    }
  }

  lemma LowerPlain(lines: seq<string>)
    requires AllPlain(lines)
    ensures AllPlain(LowerAll(lines))
  {
    forall i | 0 <= i < |lines|
      ensures Plain(Lower(lines[i]))
    {
      assert Plain(lines[i]);
      forall k | 0 <= k < |lines[i]|
        ensures PlainChar(Lower(lines[i])[k])
      {
        assert PlainChar(lines[i][k]);
      }
    }
  }

  // ---- Header fields ----

  datatype Field = Field(name: string, value: string)

  predicate Tight(s: string) {
    s != "" && !IsWhite(s[0]) && !IsWhite(s[|s| - 1])
  }

  predicate LowerCase(s: string) {
    forall k :: 0 <= k < |s| ==> LowerChar(s[k]) == s[k]
  }

  /** A field the printers use: lower-case name without a colon, one-line value, no blanks at
      either end. */
  predicate Proper(f: Field) {
    && Plain(f.name) && Plain(f.value) && Tight(f.name) && Tight(f.value) && LowerCase(f.name) && LowerCase(f.value)
    && forall k :: 0 <= k < |f.name| ==> f.name[k] != ':'
  }

  function LineOf(f: Field): string {
    f.name + ": " + f.value
  }

  lemma TrimTight(s: string)
    requires Tight(s)
    ensures Trim(s) == s && Trim(" " + s) == s
  {
    assert (" " + s)[1..] == s;
  }

  /** The first colon of a field's line ends its name. */
  lemma ColonAt(f: Field)
    requires Proper(f)
    ensures Find(LineOf(f), ":") == Some(|f.name|)
    ensures LineOf(f)[..|f.name|] == f.name && LineOf(f)[|f.name| + 1..] == " " + f.value
  {
    var line, n := LineOf(f), |f.name|;
    assert line[n..n + 1] == ":";
    forall j | 0 <= j < n
      ensures !MatchesAt(line, ":", j)
    {
      assert line[j] == f.name[j] && line[j..j + 1][0] == line[j];
    }
    FindIs(line, ":", n);
  }

  lemma FieldRead(f: Field)
    requires Proper(f)
    ensures NameOf(LineOf(f)) == Some(f.name) && LengthOf(LineOf(f)) == ParseUsize(f.value)
    ensures Plain(LineOf(f)) && Lower(LineOf(f)) == LineOf(f)
  {
    ColonAt(f);
    TrimTight(f.name);
    TrimTight(f.value);
    FieldPlain(f);
  }

  lemma FieldPlain(f: Field)
    requires Proper(f)
    ensures Plain(LineOf(f)) && Lower(LineOf(f)) == LineOf(f)
  {
    var line, n := LineOf(f), |f.name|;
    forall k | 0 <= k < |line|
      ensures PlainChar(line[k]) && LowerChar(line[k]) == line[k]
    {
      if k >= n + 2 {
        assert line[k] == f.value[k - n - 2];
      } else if k < n {
        assert line[k] == f.name[k];
      }
    }
  }

  // ---- Whole replies ----

  datatype Reply = Reply(startLine: string, fields: seq<Field>, body: seq<Byte>)

  function FieldLines(fields: seq<Field>): (lines: seq<string>)
    ensures |lines| == |fields| && forall k :: 0 <= k < |fields| ==> lines[k] == LineOf(fields[k])
  {
    seq(|fields|, k requires 0 <= k < |fields| => LineOf(fields[k]))
  }

  function Lines(r: Reply): seq<string> {
    [r.startLine] + FieldLines(r.fields)
  }

  /** A proper field that is not a transfer-encoding and, if it is a content-length, tells the
      truth. */
  predicate FieldTrue(f: Field, bodyLength: nat) {
    Proper(f) && !NamesEncoding(f.name) && (NamesLength(f.name) ==> f.value == Dec(bodyLength))
  }

  predicate NamesEncoding(name: string) {
    name == "transfer-encoding"
  }

  predicate NamesLength(name: string) {
    name == "content-length"
  }

  /** At least one content-length, nothing that contradicts it. */
  ghost predicate FieldsSound(fields: seq<Field>, bodyLength: nat) {
    && (forall k :: 0 <= k < |fields| ==> FieldTrue(fields[k], bodyLength))
    && (exists k :: 0 <= k < |fields| && NamesLength(fields[k].name))
  }

  /** A reply the reader can frame, with sizes within the limits. */
  ghost predicate Sound(r: Reply) {
    && Plain(r.startLine) && FieldsSound(r.fields, |r.body|)
    && |HeadText(Lines(r))| <= MAX_HEAD && |r.body| <= MAX_BODY
  }

  lemma LinesPlain(r: Reply)
    requires Sound(r)
    ensures AllPlain(Lines(r)) && Ascii(HeadText(Lines(r)))
  {
    forall k | 0 <= k < |Lines(r)|
      ensures Plain(Lines(r)[k])
    {
      if k > 0 {
        assert FieldTrue(r.fields[k - 1], |r.body|);
        FieldRead(r.fields[k - 1]);
      }
    }
    HeadAscii(Lines(r));
  }

  function Head(r: Reply): seq<Byte>
    requires Sound(r)
  {
    LinesPlain(r);
    Bytes(HeadText(Lines(r)))
  }

  /** The bytes of a reply. */
  function Print(r: Reply): seq<Byte>
    requires Sound(r)
  {
    Head(r) + r.body
  }

  lemma FieldLineTrue(f: Field, n: nat)
    requires FieldTrue(f, n) && n <= USIZE_MAX
    ensures LineTrue(LineOf(f), n) && Lower(LineOf(f)) == LineOf(f)
    ensures IsContentLength(LineOf(f)) == NamesLength(f.name)
  {
    FieldRead(f);
    ParseDec(n);
  }

  lemma EmptyLineTrue(n: nat)
    ensures LineTrue("", n)
  {
    assert Find("", ":") == None;
  }

  lemma AnnouncesFrom(headers: seq<string>, startLine: string, kind: Kind, n: nat, k: nat)
    requires forall i :: 0 <= i < |headers| ==> LineTrue(headers[i], n)
    requires k < |headers| && IsContentLength(headers[k])
    ensures Announces(headers + ["", ""], startLine, kind, n)
  {
    var all := headers + ["", ""];
    assert all[k] in all;
    forall line | line in all
      ensures LineTrue(line, n)
    {
      var i :| 0 <= i < |all| && all[i] == line;
      if i >= |headers| {
        EmptyLineTrue(n);
      }
    }
  }

  lemma FieldsTrue(fields: seq<Field>, n: nat)
    requires FieldsSound(fields, n) && n <= USIZE_MAX
    ensures forall k :: 0 <= k < |fields| ==> LineTrue(FieldLines(fields)[k], n)
    ensures forall k :: 0 <= k < |fields| ==> Lower(LineOf(fields[k])) == LineOf(fields[k])
  {
    forall k | 0 <= k < |fields|
      ensures LineTrue(FieldLines(fields)[k], n) && Lower(LineOf(fields[k])) == LineOf(fields[k])
    {
      FieldLineTrue(fields[k], n);
    }
  }

  /** The header lines of sound fields announce the body's length. */
  lemma FieldsAnnounce(fields: seq<Field>, startLine: string, kind: Kind, n: nat)
    requires FieldsSound(fields, n) && n <= USIZE_MAX
    ensures Announces(FieldLines(fields) + ["", ""], startLine, kind, n)
  {
    var k :| 0 <= k < |fields| && NamesLength(fields[k].name);
    assert FieldTrue(fields[k], n);
    FieldLineTrue(fields[k], n);
    FieldsTrue(fields, n);
    AnnouncesFrom(FieldLines(fields), startLine, kind, n, k);
  }

  /** What the reader makes of the bytes of a head. */
  lemma HeadRead(lines: seq<string>)
    requires AllPlain(lines) && Ascii(HeadText(lines))
    ensures LinesOf(Bytes(HeadText(lines))) == LowerAll(lines) + ["", ""]
  {
    DecodeBytes(HeadText(lines));
    LowerHead(lines);
    LowerPlain(lines);
    HeadLines(LowerAll(lines));
  }

  /** A head's length is what its lines announce. */
  lemma LengthFromLines(lines: seq<string>, kind: Kind, n: nat)
    requires AllPlain(lines) && lines != [] && Ascii(HeadText(lines))
    requires Announces(LowerAll(lines)[1..] + ["", ""], Lower(lines[0]), kind, n)
    ensures BodyLength(Bytes(HeadText(lines)), kind) == Ok(n)
  {
    HeadRead(lines);
    FirstOff(LowerAll(lines), ["", ""]);
    BodyLengthRule(Bytes(HeadText(lines)), kind, n);
  }

  lemma FirstOff(lines: seq<string>, more: seq<string>)
    requires lines != []
    ensures (lines + more)[0] == lines[0] && (lines + more)[1..] == lines[1..] + more
  {
  }

  /** The lines the reader sees. */
  lemma LowerLines(r: Reply)
    requires forall k :: 0 <= k < |r.fields| ==> Lower(LineOf(r.fields[k])) == LineOf(r.fields[k])
    ensures LowerAll(Lines(r))[1..] == FieldLines(r.fields) && Lines(r) != [] && Lines(r)[0] == r.startLine
  {
    var low := LowerAll(Lines(r));
    forall k | 0 <= k < |r.fields|
      ensures low[1..][k] == FieldLines(r.fields)[k]
    {
      assert Lines(r)[k + 1] == LineOf(r.fields[k]);
    }
  }

  lemma SoundLength(r: Reply, kind: Kind)
    requires Sound(r)
    ensures BodyLength(Head(r), kind) == Ok(|r.body|) && |Head(r)| <= MAX_HEAD
  {
    LinesPlain(r);
    FieldsAnnounce(r.fields, Lower(r.startLine), kind, |r.body|);
    FieldsTrue(r.fields, |r.body|);
    LowerLines(r);
    LengthFromLines(Lines(r), kind, |r.body|);
  }

  /** The first empty line is the end of this head, whatever follows. */
  predicate EndsBefore(head: seq<Byte>, rest: seq<Byte>) {
    |head| >= 4 && Find(head + rest, END_OF_HEAD) == Some(|head| - 4)
  }

  lemma SoundEnds(r: Reply)
    requires Sound(r)
    ensures forall rest: seq<Byte> :: EndsBefore(Head(r), rest)
  {
    LinesPlain(r);
    forall rest: seq<Byte>
      ensures EndsBefore(Head(r), rest)
    {
      HeadEndsOnce(Lines(r), rest);
    }
  }

  lemma FramedAs(head: seq<Byte>, body: seq<Byte>, rest: seq<Byte>, kind: Kind)
    requires |head| <= MAX_HEAD && |body| <= MAX_BODY && BodyLength(head, kind) == Ok(|body|)
    requires EndsBefore(head, body + rest)
    ensures FramedBefore(head + body, rest, kind)
  {
    var stream := head + body + rest;
    assert stream == head + (body + rest) && stream[..|head|] == head;
  }

  lemma SelfFramingFrom(head: seq<Byte>, body: seq<Byte>, kind: Kind)
    requires |head| <= MAX_HEAD && |body| <= MAX_BODY && BodyLength(head, kind) == Ok(|body|)
    requires forall rest: seq<Byte> :: EndsBefore(head, rest)
    ensures SelfFraming(head + body, kind)
  {
    forall rest: seq<Byte>
      ensures FramedBefore(head + body, rest, kind)
    {
      assert EndsBefore(head, body + rest);
      FramedAs(head, body, rest, kind);
    }
  }

  /** A sound reply, whatever follows it, is read as exactly one message. */
  lemma SoundFrames(r: Reply, kind: Kind)
    requires Sound(r)
    ensures SelfFraming(Print(r), kind)
  {
    SoundLength(r, kind);
    SoundEnds(r);
    SelfFramingFrom(Head(r), r.body, kind);
  }

  ghost predicate AllSound(replies: seq<Reply>) {
    forall k :: 0 <= k < |replies| ==> Sound(replies[k])
  }

  function PrintAll(replies: seq<Reply>): seq<seq<Byte>>
    requires AllSound(replies)
  {
    seq(|replies|, k requires 0 <= k < |replies| => Print(replies[k]))
  }

  /** Any sequence of sound replies, split into reads in any way, is read back as exactly those
      replies, with nothing left. */
  lemma RepliesRoundTrip(replies: seq<Reply>, w: Wire, kind: Kind)
    requires AllSound(replies) && w.Stream() == Flatten(PrintAll(replies))
    ensures ReadAll(w, kind).0 == PrintAll(replies) && ReadAll(w, kind).1 == w.End()
    ensures ReadAll(w, kind).2.Stream() == []
  {
    forall k | 0 <= k < |replies|
      ensures SelfFraming(PrintAll(replies)[k], kind)
    {
      SoundFrames(replies[k], kind);
    }
    MessagesParse(PrintAll(replies), kind);
    ConversationByStream(w, kind);
  }

  // ---- The three printers ----

  function ContentLength(body: seq<Byte>): Field {
    Field("content-length", Dec(|body|))
  }

  const CLOSE: Field := Field("connection", "close")

  /** A string literal as bytes. */
  function Literal(s: string): (r: seq<Byte>)
    ensures |r| == |s|
  {
    seq(|s|, k requires 0 <= k < |s| => s[k] as nat % 256)
  }

  /** A refusal that closes the connection: a text, the reason, a line feed. */
  function Refusal(startLine: string, text: string, why: seq<Byte>): Reply {
    var body := Literal(text) + why + Literal("\n");
    Reply(startLine, [ContentLength(body), CLOSE], body)
  }

  /** `bad_gateway`; `why` is the UTF-8 of its argument. */
  function BadGateway(why: seq<Byte>): Reply {
    Refusal("HTTP/1.1 502 Bad Gateway", "502 Bad Gateway: ", why)
  }

  /** `bad_request`. */
  function BadRequest(why: seq<Byte>): Reply {
    Refusal("HTTP/1.1 400 Bad Request", "400 Bad Request: ", why)
  }

  /** The bundled origin's answer to its connection's `served`-th request. */
  function OriginReply(id: nat, served: nat): Reply {
    var body := Literal("served by upstream connection #" + Dec(id) + ", request #" + Dec(served) + "\n");
    Reply("HTTP/1.1 200 OK",
          [TEXT, ContentLength(body), Field("x-upstream-conn", Dec(id)),
           Field("x-upstream-reqs", Dec(served)), KEEP], body)
  }

  lemma Digits20(n: nat)
    requires n <= USIZE_MAX
    ensures |Dec(n)| <= 20
  {
    assert Pow10(5) == 100_000;
    assert Pow10(10) == 10_000_000_000;
    assert Pow10(15) == 1_000_000_000_000_000;
    assert Pow10(20) == 100_000_000_000_000_000_000;
    DecLength(n, 20);
  }

  predicate NameOk(name: string) {
    Plain(name) && Tight(name) && LowerCase(name) && forall k :: 0 <= k < |name| ==> name[k] != ':'
  }

  lemma NumberProper(name: string, n: nat)
    requires NameOk(name)
    ensures Proper(Field(name, Dec(n)))
  {
    assert forall k :: 0 <= k < |Dec(n)| ==> Digit(Dec(n)[k]);
  }

  lemma LengthTrue(body: seq<Byte>)
    requires |body| <= MAX_BODY
    ensures FieldTrue(ContentLength(body), |body|) && NamesLength(ContentLength(body).name)
    ensures |LineOf(ContentLength(body))| <= 100
  {
    NumberProper("content-length", |body|);
    Digits20(|body|);
  }

  lemma CloseTrue(n: nat)
    ensures FieldTrue(CLOSE, n) && |LineOf(CLOSE)| <= 100
  {
  }

  lemma RefusalSound(startLine: string, text: string, why: seq<Byte>)
    requires Plain(startLine) && |startLine| <= 100 && |text| + |why| + 1 <= MAX_BODY
    ensures Sound(Refusal(startLine, text, why))
  {
    var r := Refusal(startLine, text, why);
    LengthTrue(r.body);
    CloseTrue(|r.body|);
    assert NamesLength(r.fields[0].name);
    SmallHead(r);
  }

  lemma GatewaySound(why: seq<Byte>)
    requires |why| + 18 <= MAX_BODY
    ensures Sound(BadGateway(why))
  {
    RefusalSound("HTTP/1.1 502 Bad Gateway", "502 Bad Gateway: ", why);
  }

  lemma RequestSound(why: seq<Byte>)
    requires |why| + 18 <= MAX_BODY
    ensures Sound(BadRequest(why))
  {
    RefusalSound("HTTP/1.1 400 Bad Request", "400 Bad Request: ", why);
  }

  const TEXT: Field := Field("content-type", "text/plain")
  const KEEP: Field := Field("connection", "keep-alive")

  lemma TextTrue(n: nat)
    ensures FieldTrue(TEXT, n) && |LineOf(TEXT)| <= 100
  {
  }

  lemma KeepTrue(n: nat)
    ensures FieldTrue(KEEP, n) && |LineOf(KEEP)| <= 100
  {
  }

  lemma ConnTrue(id: nat, n: nat)
    requires id <= USIZE_MAX
    ensures var f := Field("x-upstream-conn", Dec(id)); FieldTrue(f, n) && |LineOf(f)| <= 100
  {
    NumberProper("x-upstream-conn", id);
    Digits20(id);
  }

  lemma ReqsTrue(served: nat, n: nat)
    requires served <= USIZE_MAX
    ensures var f := Field("x-upstream-reqs", Dec(served)); FieldTrue(f, n) && |LineOf(f)| <= 100
  {
    NumberProper("x-upstream-reqs", served);
    Digits20(served);
  }

  lemma OriginSound(id: nat, served: nat)
    requires id <= USIZE_MAX && served <= USIZE_MAX
    ensures Sound(OriginReply(id, served))
  {
    var r := OriginReply(id, served);
    var n := |r.body|;
    Digits20(id);
    Digits20(served);
    LengthTrue(r.body);
    TextTrue(n);
    KeepTrue(n);
    ConnTrue(id, n);
    ReqsTrue(served, n);
    assert NamesLength(r.fields[1].name);
    SmallHead(r);
  }

  /** A few short lines are a short head. */
  lemma SmallHead(r: Reply)
    requires |r.startLine| <= 100 && |r.fields| <= 5
    requires forall k :: 0 <= k < |r.fields| ==> |LineOf(r.fields[k])| <= 100
    ensures |HeadText(Lines(r))| <= MAX_HEAD
  {
    HeadBound(Lines(r));
  }

  lemma {:induction false} HeadBound(lines: seq<string>)
    requires forall k :: 0 <= k < |lines| ==> |lines[k]| <= 100
    ensures |HeadText(lines)| <= 2 + 102 * |lines|
  {
    if lines != [] {
      HeadBound(lines[1..]);
    }
  }

  // ---- What the proxy and its origin send ----

  datatype Sent = Refused502(why: seq<Byte>) | Refused400(why: seq<Byte>) | Answered(id: nat, served: nat)

  function ReplyOf(sent: Sent): Reply {
    match sent
    case Refused502(why) => BadGateway(why)
    case Refused400(why) => BadRequest(why)
    case Answered(id, served) => OriginReply(id, served)
  }

  /** The body is within its limit; the counters are 64 bits wide. */
  predicate Sendable(sent: Sent) {
    if sent.Answered? then sent.id <= USIZE_MAX && sent.served <= USIZE_MAX
    else |ReplyOf(sent).body| <= MAX_BODY
  }

  lemma SendableSound(sent: Sent)
    requires Sendable(sent)
    ensures Sound(ReplyOf(sent))
  {
    match sent
    case Refused502(why) => GatewaySound(why);
    case Refused400(why) => RequestSound(why);
    case Answered(id, served) => OriginSound(id, served);
  }

  /** Any concatenation of the proxy's and the origin's own replies, read in any pieces, comes
      back as exactly those replies, and nothing is left. */
  lemma OwnRepliesRoundTrip(sent: seq<Sent>, replies: seq<Reply>, w: Wire, kind: Kind)
    requires |replies| == |sent| && forall k :: 0 <= k < |sent| ==> Sendable(sent[k]) && replies[k] == ReplyOf(sent[k])
    ensures AllSound(replies)
    ensures w.Stream() == Flatten(PrintAll(replies)) ==>
              && ReadAll(w, kind).0 == PrintAll(replies) && ReadAll(w, kind).1 == w.End()
              && ReadAll(w, kind).2.Stream() == []
  {
    forall k | 0 <= k < |replies|
      ensures Sound(replies[k])
    {
      SendableSound(sent[k]);
    }
    if w.Stream() == Flatten(PrintAll(replies)) {
      RepliesRoundTrip(replies, w, kind);
    }
  }

  /** The bundled origin is one that a pooled upstream may be shared over: each of its answers is
      one message, whatever follows it. */
  lemma OriginReplyFrames(id: nat, served: nat, kind: Kind)
    requires id <= USIZE_MAX && served <= USIZE_MAX
    ensures Sound(OriginReply(id, served)) && SelfFraming(Print(OriginReply(id, served)), kind)
  {
    OriginSound(id, served);
    SoundFrames(OriginReply(id, served), kind);
  }

  // ---- A status does not overrule a length ----

  /** A response with any status and a content-length. */
  function WithLength(startLine: string, body: seq<Byte>): Reply {
    Reply(startLine, [ContentLength(body)], body)
  }

  lemma WithLengthSound(startLine: string, body: seq<Byte>)
    requires Plain(startLine) && |startLine| <= 100 && |body| <= MAX_BODY
    ensures Sound(WithLength(startLine, body))
  {
    var r := WithLength(startLine, body);
    LengthTrue(body);
    assert NamesLength(r.fields[0].name);
    SmallHead(r);
  }

  /** Whatever its status, it is read with that length. */
  lemma StatusDoesNotOverrule(startLine: string, body: seq<Byte>)
    requires Plain(startLine) && |startLine| <= 100 && |body| <= MAX_BODY
    ensures Sound(WithLength(startLine, body))
    ensures BodyLength(Head(WithLength(startLine, body)), Response) == Ok(|body|)
  {
    WithLengthSound(startLine, body);
    SoundLength(WithLength(startLine, body), Response);
  }

  const NOT_MODIFIED: string := "HTTP/1.1 304 Not Modified"
  const NO_CONTENT: string := "HTTP/1.1 204 No Content"

  /** Also where the status says that there is no body. */
  lemma BodylessReadWithLength(startLine: string, body: seq<Byte>)
    requires startLine == NOT_MODIFIED || startLine == NO_CONTENT
    requires |body| <= MAX_BODY
    ensures Bodyless(Lower(startLine)) && Sound(WithLength(startLine, body))
    ensures BodyLength(Head(WithLength(startLine, body)), Response) == Ok(|body|)
  {
    if startLine == NOT_MODIFIED {
      StatusOf304();
    } else {
      StatusOf204();
    }
    StatusDoesNotOverrule(startLine, body);
  }

  lemma StatusOf304()
    ensures Bodyless(Lower(NOT_MODIFIED)) && Plain(NOT_MODIFIED)
  {
    Line304();
    StatusWord(NOT_MODIFIED, "304", "not modified");
  }

  lemma Line304()
    ensures Plain(NOT_MODIFIED)
    ensures Lower(NOT_MODIFIED) == "http/1.1" + " " + ("304" + " " + "not modified")
  {
  }

  lemma StatusOf204()
    ensures Bodyless(Lower(NO_CONTENT)) && Plain(NO_CONTENT)
  {
    Line204();
    StatusWord(NO_CONTENT, "204", "no content");
  }

  lemma Line204()
    ensures Plain(NO_CONTENT)
    ensures Lower(NO_CONTENT) == "http/1.1" + " " + ("204" + " " + "no content")
  {
  }

  lemma StatusWord(line: string, status: string, rest: string)
    requires Lower(line) == "http/1.1" + " " + (status + " " + rest)
    requires status == "304" || status == "204"
    ensures Bodyless(Lower(line))
  {
    SecondWord("http/1.1", status, rest);
  }

  // ---- What the replies say ----

  /** The status that a reader finds in the start line. */
  function StatusSent(sent: Sent): string {
    match sent
    case Refused502(_) => "502"
    case Refused400(_) => "400"
    case Answered(_, _) => "200"
  }

  lemma StatusTold(sent: Sent)
    ensures Word(ReplyOf(sent).startLine, 1) == StatusSent(sent)
  {
    match sent
    case Refused502(why) => Told502(why);
    case Refused400(why) => Told400(why);
    case Answered(id, served) => Told200(id, served);
  }

  lemma Told502(why: seq<Byte>)
    ensures Word(BadGateway(why).startLine, 1) == "502"
  {
    Line502();
    SecondWord("HTTP/1.1", "502", "Bad Gateway");
  }

  lemma Line502()
    ensures "HTTP/1.1 502 Bad Gateway" == "HTTP/1.1" + " " + ("502" + " " + "Bad Gateway")
  {
  }

  lemma Told400(why: seq<Byte>)
    ensures Word(BadRequest(why).startLine, 1) == "400"
  {
    Line400();
    SecondWord("HTTP/1.1", "400", "Bad Request");
  }

  lemma Line400()
    ensures "HTTP/1.1 400 Bad Request" == "HTTP/1.1" + " " + ("400" + " " + "Bad Request")
  {
  }

  lemma Told200(id: nat, served: nat)
    ensures Word(OriginReply(id, served).startLine, 1) == "200"
  {
    Line200();
    SecondWord("HTTP/1.1", "200", "OK");
  }

  lemma Line200()
    ensures "HTTP/1.1 200 OK" == "HTTP/1.1" + " " + ("200" + " " + "OK")
  {
  }

  predicate OneWord(s: string) {
    s != "" && forall k :: 0 <= k < |s| ==> !IsWhite(s[k])
  }

  lemma SecondWord(first: string, second: string, rest: string)
    requires OneWord(first) && OneWord(second)
    ensures Word(first + " " + (second + " " + rest), 1) == second
  {
    var more := second + " " + rest;
    var line := first + " " + more;
    FirstWord(first, more);
    assert line[|first|..] == " " + more;
    assert (" " + more)[1..] == more;
    FirstWord(second, rest);
    assert more[..|second|] == second;
    assert TrimStart(" " + more) == TrimStart(more) == more;
  }

  lemma FirstWord(word: string, rest: string)
    requires OneWord(word)
    ensures TrimStart(word + " " + rest) == word + " " + rest && FirstWhite(word + " " + rest) == |word|
  {
    assert word + " " + rest == word + (" " + rest);
    FirstWhiteIs(word, " " + rest);
  }

  lemma {:induction false} FirstWhiteIs(word: string, rest: string)
    requires (forall k :: 0 <= k < |word| ==> !IsWhite(word[k])) && rest != "" && IsWhite(rest[0])
    ensures FirstWhite(word + rest) == |word|
  {
    if word == "" {
      assert word + rest == rest;
    } else {
      FirstWhiteIs(word[1..], rest);
      assert (word + rest)[1..] == word[1..] + rest;
    }
  }

  /** What follows the colon of a line, trimmed. */
  function ValueOf(line: string): string {
    Trim(line[if Find(line, ":").Some? then Find(line, ":").value + 1 else 0..])
  }

  /** The reader finds a field of this name with this value among the header lines. */
  ghost predicate HasValue(head: seq<Byte>, name: string, value: string) {
    exists line :: line in LinesOf(head)[1..] && NameOf(line) == Some(name) && ValueOf(line) == value
  }

  lemma FieldTold(r: Reply, k: nat)
    requires Sound(r) && k < |r.fields|
    ensures HasValue(Head(r), r.fields[k].name, r.fields[k].value)
  {
    var f := r.fields[k];
    LinesPlain(r);
    HeadRead(Lines(r));
    FieldsTrue(r.fields, |r.body|);
    LowerLines(r);
    FirstOff(LowerAll(Lines(r)), ["", ""]);
    assert FieldTrue(f, |r.body|);
    FieldRead(f);
    ColonAt(f);
    TrimTight(f.value);
    assert (FieldLines(r.fields) + ["", ""])[k] == LineOf(f);
  }

  /** The origin's reply tells its client which connection served it and how many requests that
      connection has served. */
  lemma OriginTells(id: nat, served: nat)
    requires id <= USIZE_MAX && served <= USIZE_MAX
    ensures Sound(OriginReply(id, served))
    ensures HasValue(Head(OriginReply(id, served)), "x-upstream-conn", Dec(id))
    ensures HasValue(Head(OriginReply(id, served)), "x-upstream-reqs", Dec(served))
    ensures HasValue(Head(OriginReply(id, served)), "connection", "keep-alive")
  {
    OriginSound(id, served);
    FieldTold(OriginReply(id, served), 2);
    FieldTold(OriginReply(id, served), 3);
    FieldTold(OriginReply(id, served), 4);
  }

  /** A refusal gives its reason, and says that the connection will be closed. */
  lemma RefusalTells(sent: Sent)
    requires !sent.Answered? && Sendable(sent)
    ensures Sound(ReplyOf(sent)) && HasValue(Head(ReplyOf(sent)), "connection", "close")
    ensures exists at: nat :: MatchesAt(ReplyOf(sent).body, sent.why, at)
  {
    var r := ReplyOf(sent);
    SendableSound(sent);
    FieldTold(r, 1);
    var at := |r.body| - |sent.why| - 1;
    assert MatchesAt(r.body, sent.why, at);
  }
}
