/** Framing HTTP messages: how long a message is, and reading one from a stream that arrives in
    arbitrary pieces. */
module HttpFraming {
  import opened PoolTypes
  import opened HttpText

  const MAX_HEAD: nat := 64 * 1024
  const MAX_BODY: nat := 16 * 1024 * 1024

  const END_OF_HEAD: seq<Byte> := [13, 10, 13, 10]

  datatype Kind = Request | Response

  datatype Refusal = TransferEncoding | MalformedLength | ConflictingLengths | NoLength | HeadTooLarge | BodyTooLarge

  datatype Result = Ok(n: nat) | Err(why: Refusal)
  {
    /** The length, or 0. */
    function Size(): nat {
      if Ok? then n else 0
    }
  }

  // ---- body_length ----

  /** The header name of a line, trimmed; none if the line has no colon. */
  function NameOf(line: string): Option<string> {
    var k := Find(line, ":");
    if k.None? then None else Some(Trim(line[..k.value]))
  }

  /** The number after the colon. */
  function LengthOf(line: string): Option<nat> {
    var found := Find(line, ":");
    if found.None? then None else ParseUsize(Trim(line[Place(found) + 1..]))
  }

  predicate IsTransferEncoding(line: string) {
    NameOf(line) == Some("transfer-encoding")
  }

  predicate IsContentLength(line: string) {
    NameOf(line) == Some("content-length")
  }

  /** One header line, after `seen` was read from the earlier ones. */
  function ScanLine(line: string, seen: Option<nat>): (r: Option<Result>)
    ensures r.Some? && r.value.Err? ==> IsTransferEncoding(line) || IsContentLength(line)
  {
    if IsTransferEncoding(line) then Some(Err(TransferEncoding))
    else if IsContentLength(line) then
      if LengthOf(line).None? then Some(Err(MalformedLength))
      else if seen.Some? && seen.value != LengthOf(line).value then Some(Err(ConflictingLengths))
      else Some(Ok(LengthOf(line).value))
    else None
  }

  /** The length announced by the header lines, if any, or the first objection. */
  function Scan(lines: seq<string>, seen: Option<nat>): (Option<nat>, Option<Refusal>) {
    if lines == [] then (seen, None)
    else
      match ScanLine(lines[0], seen)
      case None => Scan(lines[1..], seen)
      case Some(Err(why)) => (seen, Some(why))
      case Some(Ok(n)) => Scan(lines[1..], Some(n))
  }

  /** A response that never carries a body: 1xx, 204 or 304. */
  predicate Bodyless(startLine: string) {
    var status := Word(startLine, 1);
    (status != "" && status[0] == '1') || status == "204" || status == "304"
  }

  function Conclude(length: Option<nat>, startLine: string, kind: Kind): Result {
    if length.Some? then Ok(length.value)
    else if kind.Request? || Bodyless(startLine) then Ok(0)
    else Err(NoLength)
  }

  /** The lines the reader sees in a head. */
  function LinesOf(head: seq<Byte>): (r: seq<string>)
    ensures |r| >= 1
  {
    SplitLines(Lower(Decode(head)))
  }

  function BodyLength(head: seq<Byte>, kind: Kind): Result {
    var lines := LinesOf(head);
    var (length, objection) := Scan(lines[1..], None);
    if objection.Some? then Err(objection.value) else Conclude(length, lines[0], kind)
  }

  /** The loop over the header lines computes the function. */
  method ComputeBodyLength(head: seq<Byte>, kind: Kind) returns (r: Result)
    ensures r == BodyLength(head, kind)
  {
    var lines := LinesOf(head);
    var length: Option<nat> := None;
    var i := 1;
    while i < |lines|
      invariant 1 <= i <= |lines|
      invariant Scan(lines[i..], length) == Scan(lines[1..], None)
    {
      assert lines[i..][1..] == lines[i + 1..];
      var line := lines[i];
      if IsTransferEncoding(line) {
        return Err(TransferEncoding);
      } else if IsContentLength(line) {
        var n := LengthOf(line);
        if n.None? {
          return Err(MalformedLength);
        }
        if length.Some? && length.value != n.value {
          return Err(ConflictingLengths);
        }
        length := n;
      }
      i := i + 1;
    }
    r := Conclude(length, lines[0], kind);
  }

  /** Not a transfer-encoding, and if a content-length, then `n`. */
  predicate LineTrue(line: string, n: nat) {
    !IsTransferEncoding(line) && (IsContentLength(line) ==> LengthOf(line) == Some(n))
  }

  /** No transfer-encoding, and every content-length is `n`. */
  ghost predicate Agree(headers: seq<string>, n: nat) {
    forall line :: line in headers ==> LineTrue(line, n)
  }

  ghost predicate Silent(headers: seq<string>) {
    forall line :: line in headers ==> !IsContentLength(line)
  }

  lemma AgreeFirst(lines: seq<string>, n: nat)
    requires lines != []
    ensures Agree(lines, n) <==> LineTrue(lines[0], n) && Agree(lines[1..], n)
    ensures Silent(lines) <==> !IsContentLength(lines[0]) && Silent(lines[1..])
  {
    forall line
      ensures line in lines <==> line == lines[0] || line in lines[1..]
    {
      assert lines == [lines[0]] + lines[1..];
    }
  }

  /** The rule: no transfer-encoding, and either all content-lengths, of which there is one at
      least, agree on `n`, or there is none and none is needed. */
  ghost predicate Announces(headers: seq<string>, startLine: string, kind: Kind, n: nat) {
    Agree(headers, n) && (Silent(headers) ==> n == 0 && (kind.Request? || Bodyless(startLine)))
  }

  /** A scan that began with `seen` and ended with `length` found what the lines agree on. */
  ghost predicate Found(lines: seq<string>, seen: Option<nat>, length: Option<nat>) {
    match length
    case Some(n) => Agree(lines, n) && (if seen.Some? then length == seen else !Silent(lines))
    case None => seen.None? && Silent(lines) && Agree(lines, 0)
  }

  lemma FoundFirst(lines: seq<string>, seen: Option<nat>, next: Option<nat>, length: Option<nat>)
    requires lines != [] && Found(lines[1..], next, length)
    requires ScanLine(lines[0], seen) == if IsContentLength(lines[0]) && next.Some? then Some(Ok(next.value)) else None
    requires ScanLine(lines[0], seen).None? ==> next == seen
    ensures Found(lines, seen, length)
  {
    AgreeFirst(lines, if length.Some? then length.value else 0);
  }

  lemma {:induction false} ScanSound(lines: seq<string>, seen: Option<nat>)
    requires Scan(lines, seen).1.None?
    ensures Found(lines, seen, Scan(lines, seen).0)
  {
    if lines != [] {
      var scanned := ScanLine(lines[0], seen);
      var next := if scanned.Some? then Some(scanned.value.n) else seen;
      ScanSound(lines[1..], next);
      FoundFirst(lines, seen, next, Scan(lines, seen).0);
    }
  }

  /** Lines that agree are scanned without objection. */
  lemma {:induction false} ScanComplete(lines: seq<string>, seen: Option<nat>, n: nat)
    requires Agree(lines, n) && (seen.Some? ==> seen.value == n)
    ensures Scan(lines, seen) == (if seen.None? && Silent(lines) then None else Some(n), None)
  {
    if lines != [] {
      AgreeFirst(lines, n);
      if IsContentLength(lines[0]) {
        ScanComplete(lines[1..], Some(n), n);
      } else {
        ScanComplete(lines[1..], seen, n);
      }
    }
  }

  /** `body_length` answers `n` exactly when the header lines announce it. */
  lemma BodyLengthRule(head: seq<Byte>, kind: Kind, n: nat)
    ensures var lines := LinesOf(head);
            BodyLength(head, kind) == Ok(n) <==> Announces(lines[1..], lines[0], kind, n)
  {
    var lines := LinesOf(head);
    if BodyLength(head, kind) == Ok(n) {
      ScanSound(lines[1..], None);
    }
    if Announces(lines[1..], lines[0], kind, n) {
      ScanComplete(lines[1..], None, n);
    }
  }

  lemma RuleIgnoresOrder(headers: seq<string>, headers': seq<string>, startLine: string, kind: Kind, n: nat)
    requires multiset(headers) == multiset(headers')
    ensures Announces(headers, startLine, kind, n) <==> Announces(headers', startLine, kind, n)
  {
    forall line
      ensures line in headers <==> line in headers'
    {
      assert line in headers <==> line in multiset(headers);
      assert line in headers' <==> line in multiset(headers');
    }
  }

  /** Two heads with the same start line and the same header lines, in whatever order, have the
      same body length, or neither has one. */
  lemma HeaderOrderIrrelevant(head: seq<Byte>, head': seq<Byte>, kind: Kind, n: nat)
    requires LinesOf(head)[0] == LinesOf(head')[0]
    requires multiset(LinesOf(head)[1..]) == multiset(LinesOf(head')[1..])
    ensures BodyLength(head, kind) == Ok(n) <==> BodyLength(head', kind) == Ok(n)
  {
    BodyLengthRule(head, kind, n);
    BodyLengthRule(head', kind, n);
    RuleIgnoresOrder(LinesOf(head)[1..], LinesOf(head')[1..], LinesOf(head)[0], kind, n);
  }
}
