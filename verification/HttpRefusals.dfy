/** Which heads are refused, told on the text of the head as it is sent, whatever its bytes: field names
    in any letter case with blanks around them, and the numerals that a content-length may hold. */
module HttpRefusals {
  import opened PoolTypes
  import opened HttpText
  import opened HttpFraming
  import opened HttpStream
  import opened HttpReplies

  // ---- Fields as they are sent ----

  /** The blanks of ASCII, and white space beyond. */
  predicate Blank(c: char) {
    c == ' ' || '\t' <= c <= '\r' || (c as nat >= 0x80 && IsWhite(c))
  }

  predicate Blanks(s: string) {
    forall k :: 0 <= k < |s| ==> Blank(s[k])
  }

  predicate SameLetter(c: char, lower: char) {
    c == lower || ('A' <= c <= 'Z' && c as nat + 32 == lower as nat)
  }

  /** `name` in any letter case. */
  predicate SameName(name: string, lower: string) {
    |name| == |lower| && forall k :: 0 <= k < |name| ==> SameLetter(name[k], lower[k])
  }

  /** The line is a field of the given name, which is in lower case. */
  ghost predicate IsField(line: string, lower: string, value: string) {
    exists before: string, name: string, after: string ::
      FieldParts(line, before, name, after, value) && SameName(name, lower)
  }

  predicate FieldParts(line: string, before: string, name: string, after: string, value: string) {
    Blanks(before) && Blanks(after) && line == before + name + after + ":" + value
  }

  /** The field names that decide on framing. */
  predicate FramingName(lower: string) {
    lower == "transfer-encoding" || lower == "content-length"
  }

  // ---- Trimming ----

  lemma {:induction false} TrimStartBlanks(before: string, s: string)
    requires Blanks(before)
    ensures TrimStart(before + s) == TrimStart(s)
  {
    if before == "" {
      assert before + s == s;
    } else {
      TrimStartBlanks(before[1..], s);
      assert (before + s)[1..] == before[1..] + s;
    }
  }

  lemma {:induction false} TrimEndBlanks(s: string, after: string)
    requires Blanks(after)
    ensures TrimEnd(s + after) == TrimEnd(s)
  {
    if after == "" {
      assert s + after == s;
    } else {
      var n := |after| - 1;
      TrimEndBlanks(s, after[..n]);
      assert (s + after)[..|s + after| - 1] == s + after[..n];
    }
  }

  /** Blanks around something that has none at its ends are what trimming removes. */
  lemma TrimAround(before: string, s: string, after: string)
    requires Blanks(before) && Blanks(after) && Tight(s)
    ensures Trim(before + s + after) == s
  {
    assert before + s + after == before + (s + after);
    TrimStartBlanks(before, s + after);
    assert TrimStart(s + after) == s + after;
    TrimEndBlanks(s, after);
  }

  lemma {:induction false} TrimStartSplit(s: string) returns (before: string)
    ensures Blanks(before) && s == before + TrimStart(s)
  {
    before := "";
    if s != "" && IsWhite(s[0]) {
      before := TrimStartSplit(s[1..]);
      before := [s[0]] + before;
    }
  }

  lemma {:induction false} TrimEndSplit(s: string) returns (after: string)
    ensures Blanks(after) && s == TrimEnd(s) + after
  {
    after := "";
    if s != "" && IsWhite(s[|s| - 1]) {
      after := TrimEndSplit(s[..|s| - 1]);
      after := after + [s[|s| - 1]];
    }
  }

  lemma TrimSplit(s: string) returns (before: string, after: string)
    ensures Blanks(before) && Blanks(after) && s == before + Trim(s) + after
  {
    before := TrimStartSplit(s);
    var t := TrimStart(s);
    assert forall k :: 0 <= k < |t| ==> t[k] == s[|before| + k];
    after := TrimEndSplit(t);
  }

  // ---- Reading a field ----

  lemma LowerName(name: string, lower: string)
    requires SameName(name, lower) && LowerCase(lower)
    ensures Lower(name) == lower
  {
    forall k | 0 <= k < |name|
      ensures Lower(name)[k] == lower[k]
    {
      assert SameLetter(name[k], lower[k]);
    }
  }

  lemma LowerBlanks(s: string)
    requires Blanks(s)
    ensures Lower(s) == s
  {
  }

  lemma LowerParts(before: string, name: string, after: string, value: string)
    requires Blanks(before) && Blanks(after)
    ensures Lower(before + name + after + ":" + value) == before + Lower(name) + after + ":" + Lower(value)
  {
    LowerBlanks(before);
    LowerBlanks(after);
  }

  /** The first colon ends the name. */
  lemma NameEnds(before: string, lower: string, after: string, value: string)
    requires Blanks(before) && Blanks(after) && forall k :: 0 <= k < |lower| ==> lower[k] != ':'
    ensures var line, n := before + lower + after + ":" + value, |before + lower + after|;
            Find(line, ":") == Some(n) && line[..n] == before + lower + after && line[n + 1..] == value
  {
    var line, n := before + lower + after + ":" + value, |before + lower + after|;
    assert line[n..n + 1] == ":";
    forall j | 0 <= j < n
      ensures !MatchesAt(line, ":", j)
    {
      assert line[j] == (before + lower + after)[j] && line[j..j + 1][0] == line[j];
    }
    FindIs(line, ":", n);
  }

  lemma FramingNames(lower: string)
    requires FramingName(lower)
    ensures Tight(lower) && LowerCase(lower) && forall k :: 0 <= k < |lower| ==> lower[k] != ':'
  {
  }

  /** What the reader makes of a framing field, however it is written. */
  lemma FieldSeen(line: string, lower: string, value: string)
    requires IsField(line, lower, value) && FramingName(lower)
    ensures NameOf(Lower(line)) == Some(lower) && LengthOf(Lower(line)) == ParseUsize(Trim(Lower(value)))
  {
    var before, name, after :| FieldParts(line, before, name, after, value) && SameName(name, lower);
    FramingNames(lower);
    LowerName(name, lower);
    LowerParts(before, name, after, value);
    NameEnds(before, lower, after, Lower(value));
    TrimAround(before, lower, after);
  }

  // ---- Numerals ----

  predicate Zeros(s: string) {
    forall k :: 0 <= k < |s| ==> s[k] == '0'
  }

  predicate NumeralParts(text: string, before: string, sign: string, zeros: string, after: string, n: nat) {
    Blanks(before) && Blanks(after) && (sign == "" || sign == "+") && Zeros(zeros)
    && text == before + (sign + zeros + Dec(n)) + after
  }

  /** The text, but for blanks around it, is the number as it is printed, after a plus sign and zeros
      if there are any. */
  ghost predicate Denotes(text: string, n: nat) {
    n <= USIZE_MAX
    && exists before: string, sign: string, zeros: string, after: string ::
         NumeralParts(text, before, sign, zeros, after, n)
  }

  lemma {:induction false} DigitsSplit(t: string) returns (zeros: string)
    requires t != "" && Digits(t)
    ensures Zeros(zeros) && t == zeros + Dec(Value(t))
  {
    var n := |t| - 1;
    assert Digit(t[n]);
    if n == 0 {
      zeros := "";
      assert Value(t[..0]) == 0;
    } else {
      zeros := DigitsSplit(t[..n]);
      var before := Value(t[..n]);
      assert t == zeros + Dec(before) + [t[n]];
      if before == 0 {
        zeros := zeros + "0";
      } else {
        assert Dec(Value(t)) == Dec(before) + [t[n]];
      }
    }
  }

  lemma {:induction false} ZerosValue(zeros: string, t: string)
    requires Zeros(zeros) && Digits(t)
    ensures Digits(zeros + t) && Value(zeros + t) == Value(t)
  {
    if t != "" {
      var n := |t| - 1;
      assert Digit(t[n]);
      ZerosValue(zeros, t[..n]);
      assert (zeros + t)[..|zeros + t| - 1] == zeros + t[..n];
    } else if zeros != "" {
      var n := |zeros| - 1;
      ZerosValue(zeros[..n], "");
      assert (zeros + t)[..n] == zeros[..n] + "";
    }
  }

  /** What parses is such a number. */
  lemma ParsedNumeral(t: string, n: nat) returns (sign: string, zeros: string)
    requires ParseUsize(t) == Some(n)
    ensures (sign == "" || sign == "+") && Zeros(zeros) && t == sign + zeros + Dec(n) && n <= USIZE_MAX
  {
    if t[0] == '+' {
      sign := "+";
      zeros := DigitsSplit(t[1..]);
    } else {
      sign := "";
      zeros := DigitsSplit(t);
    }
  }

  /** And such a number parses. */
  lemma NumeralParsed(sign: string, zeros: string, n: nat)
    requires (sign == "" || sign == "+") && Zeros(zeros) && n <= USIZE_MAX
    ensures ParseUsize(sign + zeros + Dec(n)) == Some(n) && Tight(sign + zeros + Dec(n))
  {
    var t := zeros + Dec(n);
    ZerosValue(zeros, Dec(n));
    DecValue(n);
    Regroup(sign, zeros, Dec(n));
    SignedParsed(sign, t, n);
  }

  lemma Regroup(a: string, b: string, c: string)
    ensures a + b + c == a + (b + c)
  {
  }

  lemma SignedParsed(sign: string, t: string, n: nat)
    requires (sign == "" || sign == "+") && t != "" && Digits(t) && Value(t) == n && n <= USIZE_MAX
    ensures ParseUsize(sign + t) == Some(n) && Tight(sign + t)
  {
    SignedTight(sign, t);
    assert Digit(t[0]);
    if sign == "+" {
      assert (sign + t)[1..] == t;
    } else {
      assert sign + t == t;
    }
  }

  lemma DigitNotWhite(c: char)
    requires Digit(c) || c == '+'
    ensures !IsWhite(c)
  {
  }

  lemma SignedTight(sign: string, t: string)
    requires (sign == "" || sign == "+") && t != "" && Digits(t)
    ensures Tight(sign + t)
  {
    var s := sign + t;
    assert Digit(t[0]) && Digit(t[|t| - 1]);
    assert s[|s| - 1] == t[|t| - 1];
    assert s[0] == t[0] || s[0] == '+';
    DigitNotWhite(s[0]);
    DigitNotWhite(s[|s| - 1]);
  }

  /** A numeral in blanks is read as its number. */
  lemma DenotedParsed(text: string, n: nat)
    requires Denotes(text, n)
    ensures ParseUsize(Trim(Lower(text))) == Some(n)
  {
    var before, sign, zeros, after :| NumeralParts(text, before, sign, zeros, after, n);
    var numeral := sign + zeros + Dec(n);
    NumeralParsed(sign, zeros, n);
    NoLetters(text, before, numeral, after);
    TrimAround(before, numeral, after);
  }

  predicate DigitsOrPlus(s: string) {
    forall k :: 0 <= k < |s| ==> Digit(s[k]) || s[k] == '+'
  }

  lemma NoLetters(text: string, before: string, numeral: string, after: string)
    requires Blanks(before) && Blanks(after) && DigitsOrPlus(numeral) && text == before + numeral + after
    ensures Lower(text) == text
  {
  }

  lemma NumeralChars(sign: string, zeros: string, n: nat)
    requires (sign == "" || sign == "+") && Zeros(zeros)
    ensures DigitsOrPlus(sign + zeros + Dec(n))
  {
    assert Digits(Dec(n));
  }

  /** What is read as a number is a numeral in blanks. */
  lemma ParsedDenotes(text: string, n: nat)
    requires ParseUsize(Trim(Lower(text))) == Some(n)
    ensures Denotes(text, n)
  {
    var before, after := TrimSplit(Lower(text));
    var sign, zeros := ParsedNumeral(Trim(Lower(text)), n);
    NumeralChars(sign, zeros, n);
    LowerOfNoLetters(text, before, sign + zeros + Dec(n), after);
    assert NumeralParts(text, before, sign, zeros, after, n);
  }

  /** Lower case that has no letters was not made from capitals. */
  lemma LowerOfNoLetters(text: string, before: string, numeral: string, after: string)
    requires Blanks(before) && Blanks(after) && DigitsOrPlus(numeral) && Lower(text) == before + numeral + after
    ensures text == before + numeral + after
  {
    var low := before + numeral + after;
    forall k | 0 <= k < |text|
      ensures text[k] == low[k]
    {
      assert low[k] == LowerChar(text[k]);
      if |before| <= k < |before| + |numeral| {
        assert low[k] == numeral[k - |before|];
      } else if k < |before| {
        assert low[k] == before[k];
      } else {
        assert low[k] == after[k - |before| - |numeral|];
      }
    }
  }

  // ---- One line ----

  /** Capitals apart, a lower-case line has its blanks and its name where the line has them. */
  lemma UnlowerParts(text: string, before: string, lower: string, after: string) returns (name: string)
    requires Blanks(before) && Blanks(after) && LowerCase(lower) && Lower(text) == before + lower + after
    ensures text == before + name + after && SameName(name, lower)
  {
    var b, n := |before|, |lower|;
    var low := before + lower + after;
    name := text[b..b + n];
    forall k | 0 <= k < |text|
      ensures LowerChar(text[k]) == low[k]
    {
      assert Lower(text)[k] == LowerChar(text[k]);
    }
    forall k | 0 <= k < b
      ensures text[k] == before[k]
    {
      assert low[k] == before[k] && Blank(before[k]);
    }
    forall k | 0 <= k < |after|
      ensures text[b + n..][k] == after[k]
    {
      assert low[b + n + k] == after[k] && Blank(after[k]);
    }
    forall k | 0 <= k < n
      ensures SameLetter(name[k], lower[k])
    {
      assert low[b + k] == lower[k];
    }
    assert text[..b] == before && text[b + n..] == after;
  }

  /** A line parted at its first colon. */
  lemma PartedAtColon(line: string) returns (k: nat)
    requires Find(Lower(line), ":").Some?
    ensures k < |line| && Find(Lower(line), ":") == Some(k)
    ensures line == line[..k] + ":" + line[k + 1..] && Lower(line)[..k] == Lower(line[..k])
  {
    var low := Lower(line);
    FindFirst(low, ":");
    k := Find(low, ":").value;
    assert low[k..k + 1][0] == ':';
    assert line[k] == ':';
  }

  /** Whatever the reader takes for a framing field is one. */
  lemma SeenField(line: string, lower: string) returns (value: string)
    requires FramingName(lower) && NameOf(Lower(line)) == Some(lower)
    ensures IsField(line, lower, value)
  {
    var k := PartedAtColon(line);
    value := line[k + 1..];
    var before, after := TrimSplit(Lower(line[..k]));
    FramingNames(lower);
    var name := UnlowerParts(line[..k], before, lower, after);
    assert FieldParts(line, before, name, after, value);
  }

  /** A line as sent is in order: no transfer-encoding, and a content-length only if it denotes `n`. */
  ghost predicate InOrder(line: string, n: nat) {
    && (forall value :: !IsField(line, "transfer-encoding", value))
    && (forall value :: IsField(line, "content-length", value) ==> Denotes(value, n))
  }

  ghost predicate Lengthless(line: string) {
    forall value :: !IsField(line, "content-length", value)
  }

  lemma LengthDenoted(line: string, value: string, n: nat)
    requires IsField(line, "content-length", value)
    ensures LengthOf(Lower(line)) == Some(n) <==> Denotes(value, n)
  {
    FieldSeen(line, "content-length", value);
    if Denotes(value, n) {
      DenotedParsed(value, n);
    } else if LengthOf(Lower(line)) == Some(n) {
      ParsedDenotes(value, n);
    }
  }

  /** The reader finds a line in order exactly if it is. */
  lemma LineInOrder(line: string, n: nat)
    ensures LineTrue(Lower(line), n) <==> InOrder(line, n)
    ensures IsContentLength(Lower(line)) <==> !Lengthless(line)
  {
    if IsTransferEncoding(Lower(line)) {
      var _ := SeenField(line, "transfer-encoding");
    }
    if IsContentLength(Lower(line)) {
      var value := SeenField(line, "content-length");
      LengthDenoted(line, value, n);
    }
    forall lower, value | FramingName(lower) && IsField(line, lower, value)
      ensures NameOf(Lower(line)) == Some(lower)
      ensures lower == "content-length" ==> (LengthOf(Lower(line)) == Some(n) <==> Denotes(value, n))
    {
      FieldSeen(line, lower, value);
      if lower == "content-length" {
        LengthDenoted(line, value, n);
      }
    }
  }

  // ---- Whole heads ----

  /** A field of this name among the header lines, the start line not counted. */
  ghost predicate HasField(lines: seq<string>, lower: string, value: string) {
    exists k :: 1 <= k < |lines| && IsField(lines[k], lower, value)
  }

  /** The head tells the length `n`: it has no transfer-encoding, every content-length denotes `n`,
      and if it has none, none is needed and `n` is 0. */
  ghost predicate Tells(lines: seq<string>, kind: Kind, n: nat)
    requires lines != []
  {
    && (forall k :: 1 <= k < |lines| ==> InOrder(lines[k], n))
    && ((forall k :: 1 <= k < |lines| ==> Lengthless(lines[k])) ==>
          n == 0 && (kind.Request? || Bodyless(Lower(lines[0]))))
  }

  /** The lines of a head as it is sent; two empty ones end it. */
  function TextLines(head: seq<Byte>): (lines: seq<string>)
    ensures lines != []
  {
    SplitLines(Decode(head))
  }

  lemma LowerMatches(text: string, k: nat)
    ensures MatchesAt(Lower(text), "\r\n", k) <==> MatchesAt(text, "\r\n", k)
  {
    if k + 2 <= |text| {
      assert text[k..k + 2] == [text[k]] + [text[k + 1]];
      assert Lower(text)[k..k + 2] == [LowerChar(text[k])] + [LowerChar(text[k + 1])];
    }
  }

  lemma {:induction false} LowerFinds(text: string, from: nat)
    ensures FindFrom(Lower(text), "\r\n", from) == FindFrom(text, "\r\n", from)
    decreases |text| + 1 - from
  {
    LowerMatches(text, from);
    if from + 2 <= |text| && !MatchesAt(text, "\r\n", from) {
      LowerFinds(text, from + 1);
    }
  }

  /** Lower case does not move the line breaks. */
  lemma {:induction false} LowerSplits(text: string)
    ensures SplitLines(Lower(text)) == LowerAll(SplitLines(text))
    decreases |text|
  {
    LowerFinds(text, 0);
    var found := Find(text, "\r\n");
    if found.Some? {
      var k := found.value;
      assert Lower(text)[..k] == Lower(text[..k]) && Lower(text)[k + 2..] == Lower(text[k + 2..]);
      LowerSplits(text[k + 2..]);
      LowerFirst(text[..k], SplitLines(text[k + 2..]));
    }
  }

  lemma LowerFirst(line: string, rest: seq<string>)
    ensures LowerAll([line] + rest) == [Lower(line)] + LowerAll(rest)
  {
  }

  /** The header lines as the reader sees them. */
  function Seen(lines: seq<string>): (r: seq<string>)
    requires lines != []
    ensures |r| == |lines| - 1
    ensures forall k :: 1 <= k < |lines| ==> r[k - 1] == Lower(lines[k])
  {
    LowerAll(lines)[1..]
  }

  lemma HeadSeen(head: seq<Byte>)
    ensures LinesOf(head)[1..] == Seen(TextLines(head)) && LinesOf(head)[0] == Lower(TextLines(head)[0])
  {
    LowerSplits(Decode(head));
  }

  /** A line the reader sees is one of those sent. */
  lemma SeenFrom(lines: seq<string>, line: string) returns (k: nat)
    requires lines != [] && line in Seen(lines)
    ensures 1 <= k < |lines| && line == Lower(lines[k])
  {
    var j :| 0 <= j < |Seen(lines)| && Seen(lines)[j] == line;
    k := j + 1;
  }

  lemma SeenAgree(lines: seq<string>, n: nat)
    requires lines != []
    ensures Agree(Seen(lines), n) <==> forall k :: 1 <= k < |lines| ==> InOrder(lines[k], n)
  {
    if Agree(Seen(lines), n) {
      forall k | 1 <= k < |lines|
        ensures InOrder(lines[k], n)
      {
        assert Seen(lines)[k - 1] in Seen(lines);
        LineInOrder(lines[k], n);
      }
    }
    if forall k :: 1 <= k < |lines| ==> InOrder(lines[k], n) {
      forall line | line in Seen(lines)
        ensures LineTrue(line, n)
      {
        var k := SeenFrom(lines, line);
        LineInOrder(lines[k], n);
      }
    }
  }

  lemma SeenSilent(lines: seq<string>)
    requires lines != []
    ensures Silent(Seen(lines)) <==> forall k :: 1 <= k < |lines| ==> Lengthless(lines[k])
  {
    if Silent(Seen(lines)) {
      forall k | 1 <= k < |lines|
        ensures Lengthless(lines[k])
      {
        assert Seen(lines)[k - 1] in Seen(lines);
        LineInOrder(lines[k], 0);
      }
    }
    if forall k :: 1 <= k < |lines| ==> Lengthless(lines[k]) {
      forall line | line in Seen(lines)
        ensures !IsContentLength(line)
      {
        var k := SeenFrom(lines, line);
        LineInOrder(lines[k], 0);
      }
    }
  }

  /** A head is read with length `n` exactly if its text tells it. */
  lemma FramingExactly(head: seq<Byte>, kind: Kind, n: nat)
    ensures BodyLength(head, kind) == Ok(n) <==> Tells(TextLines(head), kind, n)
  {
    HeadSeen(head);
    BodyLengthRule(head, kind, n);
    SeenAgree(TextLines(head), n);
    SeenSilent(TextLines(head));
  }

  /** So a transfer-encoding, however it is written and whatever else there is, refuses a head. */
  lemma EncodingRefused(head: seq<Byte>, kind: Kind, value: string)
    requires HasField(TextLines(head), "transfer-encoding", value)
    ensures BodyLength(head, kind).Err?
  {
    FramingExactly(head, kind, BodyLength(head, kind).Size());
  }

  /** So do a content-length that denotes no number and two that denote different ones. */
  lemma BadLengthRefused(head: seq<Byte>, kind: Kind, value: string, value': string)
    requires HasField(TextLines(head), "content-length", value) && HasField(TextLines(head), "content-length", value')
    requires forall n :: !(Denotes(value, n) && Denotes(value', n))
    ensures BodyLength(head, kind).Err?
  {
    FramingExactly(head, kind, BodyLength(head, kind).Size());
  }

  /** What denotes a number is not blank, and holds digits, plus signs and blanks alone: no minus sign
      and no letter. */
  lemma NumeralHolds(value: string, n: nat, k: nat)
    requires Denotes(value, n)
    ensures !Blanks(value)
    ensures k < |value| ==> Blank(value[k]) || Digit(value[k]) || value[k] == '+'
  {
    var before, sign, zeros, after :| NumeralParts(value, before, sign, zeros, after, n);
    var numeral := sign + zeros + Dec(n);
    assert Digit(numeral[|numeral| - 1]);
    assert value[|before| + |numeral| - 1] == numeral[|numeral| - 1];
    if k < |value| {
      InParts(before, numeral, after, k);
    }
  }

  lemma InParts(before: string, numeral: string, after: string, k: nat)
    requires Blanks(before) && Blanks(after) && DigitsOrPlus(numeral) && k < |before + numeral + after|
    ensures var c := (before + numeral + after)[k]; Blank(c) || Digit(c) || c == '+'
  {
    if |before| <= k < |before| + |numeral| {
      assert (before + numeral + after)[k] == numeral[k - |before|];
    } else if k >= |before| + |numeral| {
      assert (before + numeral + after)[k] == after[k - |before| - |numeral|];
    }
  }

  // ---- Which objection is made ----

  /** Lines that agree are passed over, and the length they give is remembered. */
  lemma {:induction false} ScanOver(first: seq<string>, rest: seq<string>, seen: Option<nat>, n: nat)
    requires Agree(first, n) && (seen.Some? ==> seen.value == n)
    ensures Scan(first + rest, seen) == Scan(rest, if seen.None? && Silent(first) then None else Some(n))
  {
    if first == [] {
      assert first + rest == rest;
    } else {
      AgreeFirst(first, n);
      assert (first + rest)[1..] == first[1..] + rest;
      if IsContentLength(first[0]) {
        ScanOver(first[1..], rest, Some(n), n);
      } else {
        ScanOver(first[1..], rest, seen, n);
      }
    }
  }

  /** Header line `k` is the first at fault: those before it are in order, for the length `n`. */
  ghost predicate FirstFault(lines: seq<string>, k: nat, n: nat) {
    1 <= k < |lines| && forall j :: 1 <= j < k ==> InOrder(lines[j], n)
  }

  /** The lines seen before line `k`. */
  lemma SeenParts(lines: seq<string>, k: nat)
    requires 1 <= k < |lines|
    ensures Seen(lines) == Seen(lines[..k]) + Seen(lines)[k - 1..]
    ensures Seen(lines)[k - 1..][0] == Lower(lines[k])
  {
  }

  /** What is remembered when line `k` is reached. */
  ghost function Remembered(lines: seq<string>, k: nat, n: nat): Option<nat>
    requires k <= |lines|
  {
    if forall j :: 1 <= j < k ==> Lengthless(lines[j]) then None else Some(n)
  }

  lemma ScanStops(rest: seq<string>, seen: Option<nat>, why: Refusal)
    requires rest != [] && ScanLine(rest[0], seen) == Some(Err(why))
    ensures Scan(rest, seen) == (seen, Some(why))
  {
  }

  lemma ScanFrom(head: seq<Byte>, kind: Kind, k: nat, n: nat, why: Refusal)
    requires var lines := TextLines(head);
             FirstFault(lines, k, n) && ScanLine(Lower(lines[k]), Remembered(lines, k, n)) == Some(Err(why))
    ensures BodyLength(head, kind) == Err(why)
  {
    var lines := TextLines(head);
    var first, rest := lines[..k], Seen(lines)[k - 1..];
    HeadSeen(head);
    SeenParts(lines, k);
    SeenAgree(first, n);
    SeenSilent(first);
    ScanStops(rest, Remembered(lines, k, n), why);
    ScanOver(Seen(first), rest, None, n);
  }

  /** The objection is to the first line at fault, and it names the fault: a transfer-encoding, ... */
  lemma EncodingNamed(head: seq<Byte>, kind: Kind, k: nat, n: nat, value: string)
    requires FirstFault(TextLines(head), k, n) && IsField(TextLines(head)[k], "transfer-encoding", value)
    ensures BodyLength(head, kind) == Err(TransferEncoding)
  {
    FieldSeen(TextLines(head)[k], "transfer-encoding", value);
    ScanFrom(head, kind, k, n, TransferEncoding);
  }

  /** ... a content-length that denotes no number, ... */
  lemma MalformedNamed(head: seq<Byte>, kind: Kind, k: nat, n: nat, value: string)
    requires FirstFault(TextLines(head), k, n) && IsField(TextLines(head)[k], "content-length", value)
    requires forall m :: !Denotes(value, m)
    ensures BodyLength(head, kind) == Err(MalformedLength)
  {
    var line := TextLines(head)[k];
    FieldSeen(line, "content-length", value);
    var found := LengthOf(Lower(line));
    if found.Some? {
      LengthDenoted(line, value, found.value);
    }
    ScanFrom(head, kind, k, n, MalformedLength);
  }

  /** ... or one that contradicts an earlier one. */
  lemma ConflictNamed(head: seq<Byte>, kind: Kind, j: nat, k: nat, n: nat, m: nat, value: string)
    requires FirstFault(TextLines(head), k, n) && IsField(TextLines(head)[k], "content-length", value)
    requires 1 <= j < k && !Lengthless(TextLines(head)[j]) && Denotes(value, m) && m != n
    ensures BodyLength(head, kind) == Err(ConflictingLengths)
  {
    FieldSeen(TextLines(head)[k], "content-length", value);
    LengthDenoted(TextLines(head)[k], value, m);
    ScanFrom(head, kind, k, n, ConflictingLengths);
  }

  // ---- Statuses ----

  lemma LowerDigits(s: string)
    requires Digits(s)
    ensures Lower(s) == s
  {
    forall k | 0 <= k < |s|
      ensures Lower(s)[k] == s[k]
    {
      assert Digit(s[k]);
    }
  }

  lemma LowerOneWord(s: string)
    requires OneWord(s)
    ensures OneWord(Lower(s))
  {
  }

  lemma LowerStart(version: string, status: string, reason: string)
    requires Digits(status)
    ensures Lower(version + " " + status + " " + reason) == Lower(version) + " " + (status + " " + Lower(reason))
  {
    LowerDigits(status);
  }

  /** Of the statuses, 1xx, 204 and 304 alone are taken to have no body. */
  lemma BodylessExactly(version: string, status: string, reason: string)
    requires OneWord(version) && status != "" && Digits(status)
    ensures Bodyless(Lower(version + " " + status + " " + reason))
            <==> status[0] == '1' || status == "204" || status == "304"
  {
    LowerStart(version, status, reason);
    LowerOneWord(version);
    assert forall k :: 0 <= k < |status| ==> Digit(status[k]);
    SecondWord(Lower(version), status, Lower(reason));
  }

  /** A response without either field is read as having no body exactly with such a status; with any
      other it is refused. A request is always read as having none. */
  lemma LengthlessExactly(head: seq<Byte>, version: string, status: string, reason: string)
    requires TextLines(head)[0] == version + " " + status + " " + reason
    requires OneWord(version) && status != "" && Digits(status)
    requires forall lower, value :: FramingName(lower) ==> !HasField(TextLines(head), lower, value)
    ensures BodyLength(head, Request) == Ok(0)
    ensures BodyLength(head, Response)
            == if status[0] == '1' || status == "204" || status == "304" then Ok(0) else Err(NoLength)
  {
    var lines := TextLines(head);
    BodylessExactly(version, status, reason);
    forall k, lower, value | 1 <= k < |lines| && FramingName(lower)
      ensures !IsField(lines[k], lower, value)
    {
      assert !HasField(lines, lower, value);
    }
    SeenAgree(lines, 0);
    SeenSilent(lines);
    ScanComplete(Seen(lines), None, 0);
    HeadSeen(head);
  }

  // ---- In the stream ----

  /** The stream begins with this head. */
  predicate BeginsWith(stream: seq<Byte>, head: seq<Byte>) {
    |head| >= 4 && Find(stream, END_OF_HEAD) == Some(|head| - 4) && stream[..|head|] == head
  }

  /** A head that is refused is objected to as soon as it is there, whatever follows it. */
  lemma RefusedInStream(stream: seq<Byte>, head: seq<Byte>, kind: Kind)
    requires BeginsWith(stream, head) && BodyLength(head, kind).Err?
    ensures Parse(stream, kind).Objection?
  {
  }

  /** So is one that tells of more than the limit. */
  lemma OversizeInStream(stream: seq<Byte>, head: seq<Byte>, kind: Kind, n: nat)
    requires BeginsWith(stream, head) && Tells(TextLines(head), kind, n) && n > MAX_BODY
    ensures Parse(stream, kind) == Objection(BodyTooLarge)
  {
    FramingExactly(head, kind, n);
  }

  /** The text of a printed head: its lines, and the two empty ones at its end. */
  lemma PrintedLines(lines: seq<string>, rest: seq<Byte>)
    requires AllPlain(lines) && lines != []
    ensures Ascii(HeadText(lines)) && TextLines(Bytes(HeadText(lines))) == lines + ["", ""]
    ensures BeginsWith(Bytes(HeadText(lines)) + rest, Bytes(HeadText(lines)))
  {
    HeadAscii(lines);
    var head := Bytes(HeadText(lines));
    DecodeBytes(HeadText(lines));
    HeadLines(lines);
    HeadEndsOnce(lines, rest);
    assert (head + rest)[..|head|] == head;
  }
}
