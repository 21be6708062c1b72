/** The text operations behind reading an HTTP head: lossy UTF-8, ASCII lower case, splitting,
    trimming and parsing a number, as the standard library defines them. */
module HttpText {
  import opened PoolTypes

  type Byte = b: nat | b < 256

  const REPLACEMENT: char := 0xFFFD as char

  predicate Continues(b: nat) {
    0x80 <= b < 0xC0
  }

  function Peek(bytes: seq<Byte>, i: nat): nat {
    if i < |bytes| then bytes[i] else 0
  }

  /** One character and the number of bytes it takes; an ill-formed sequence gives one
      replacement character for its longest well-formed beginning. */
  function DecodeOne(bytes: seq<Byte>): (r: (char, nat))
    ensures 1 <= r.1 && (bytes != [] ==> r.1 <= |bytes|)
    ensures bytes != [] && bytes[0] < 0x80 ==> r == (bytes[0] as char, 1)
  {
    var b0, b1, b2, b3 := Peek(bytes, 0), Peek(bytes, 1), Peek(bytes, 2), Peek(bytes, 3);
    if b0 < 0x80 then (b0 as char, 1)
    else if 0xC2 <= b0 < 0xE0 && Continues(b1) then (((b0 - 0xC0) * 0x40 + (b1 - 0x80)) as char, 2)
    else if (b0 == 0xE0 && 0xA0 <= b1 < 0xC0) || (0xE1 <= b0 <= 0xEC && Continues(b1))
            || (b0 == 0xED && 0x80 <= b1 < 0xA0) || (0xEE <= b0 <= 0xEF && Continues(b1)) then
      if Continues(b2) then (((b0 - 0xE0) * 0x1000 + (b1 - 0x80) * 0x40 + (b2 - 0x80)) as char, 3)
      else (REPLACEMENT, 2)
    else if (b0 == 0xF0 && 0x90 <= b1 < 0xC0) || (0xF1 <= b0 <= 0xF3 && Continues(b1))
            || (b0 == 0xF4 && 0x80 <= b1 < 0x90) then
      if !Continues(b2) then (REPLACEMENT, 2)
      else if !Continues(b3) then (REPLACEMENT, 3)
      else (((b0 - 0xF0) * 0x40000 + (b1 - 0x80) * 0x1000 + (b2 - 0x80) * 0x40 + (b3 - 0x80)) as char, 4)
    else (REPLACEMENT, 1)
  }

  /** `String::from_utf8_lossy`. */
  function Decode(bytes: seq<Byte>): string {
    if bytes == [] then ""
    else var (c, n) := DecodeOne(bytes); [c] + Decode(bytes[n..])
  }

  predicate Ascii(s: string) {
    forall k :: 0 <= k < |s| ==> s[k] as nat < 0x80
  }

  /** The bytes of an ASCII string. */
  function Bytes(s: string): (r: seq<Byte>)
    requires Ascii(s)
    ensures |r| == |s|
    ensures forall k :: 0 <= k < |r| ==> r[k] == s[k] as nat
  {
    seq(|s|, k requires 0 <= k < |s| => s[k] as nat)
  }

  lemma {:induction false} DecodeBytes(s: string)
    requires Ascii(s)
    ensures Decode(Bytes(s)) == s
  {
    if s != "" {
      DecodeBytes(s[1..]);
      assert Bytes(s)[1..] == Bytes(s[1..]);
      assert s == [s[0]] + s[1..];
    }
  }

  function LowerChar(c: char): char {
    if 'A' <= c <= 'Z' then (c as nat + 32) as char else c
  }

  /** `to_ascii_lowercase`. */
  function Lower(s: string): (r: string)
    ensures |r| == |s|
    ensures forall k :: 0 <= k < |s| ==> r[k] == LowerChar(s[k])
  {
    seq(|s|, k requires 0 <= k < |s| => LowerChar(s[k]))
  }

  // ---- Searching and splitting ----

  predicate MatchesAt<T(==)>(hay: seq<T>, needle: seq<T>, k: nat) {
    k + |needle| <= |hay| && hay[k..k + |needle|] == needle
  }

  /** The first occurrence at or after `from`. */
  function FindFrom<T(==)>(hay: seq<T>, needle: seq<T>, from: nat): (r: Option<nat>)
    ensures r.Some? ==> r.value + |needle| <= |hay|
    decreases |hay| + 1 - from
  {
    if from + |needle| > |hay| then None
    else if MatchesAt(hay, needle, from) then Some(from)
    else FindFrom(hay, needle, from + 1)
  }

  /** The first occurrence of `needle`; an empty one is never found. */
  function Find<T(==)>(hay: seq<T>, needle: seq<T>): (r: Option<nat>)
    ensures r.Some? ==> r.value + |needle| <= |hay|
  {
    if needle == [] then None else FindFrom(hay, needle, 0)
  }

  lemma {:induction false} FindFromFirst<T>(hay: seq<T>, needle: seq<T>, from: nat)
    ensures var r := FindFrom(hay, needle, from);
            && (r.Some? ==> from <= r.value && MatchesAt(hay, needle, r.value))
            && forall k :: from <= k && (r.Some? ==> k < r.value) ==> !MatchesAt(hay, needle, k)
    decreases |hay| + 1 - from
  {
    if from + |needle| <= |hay| && !MatchesAt(hay, needle, from) {
      FindFromFirst(hay, needle, from + 1);
    }
  }

  /** What is found is a match and the first one; if nothing is found, there is none. */
  lemma FindFirst<T>(hay: seq<T>, needle: seq<T>)
    requires needle != []
    ensures var r := Find(hay, needle);
            && (r.Some? ==> MatchesAt(hay, needle, r.value))
            && forall k: nat :: (r.Some? ==> k < r.value) ==> !MatchesAt(hay, needle, k)
  {
    FindFromFirst(hay, needle, 0);
  }

  /** Whatever matches first is what is found. */
  lemma FindIs<T>(hay: seq<T>, needle: seq<T>, k: nat)
    requires needle != [] && MatchesAt(hay, needle, k)
    requires forall j :: 0 <= j < k ==> !MatchesAt(hay, needle, j)
    ensures Find(hay, needle) == Some(k)
  {
    FindFirst(hay, needle);
    var r := Find(hay, needle);
    assert r.Some?;
  }

  /** Where something was found; 0 if it was not. */
  function Place(found: Option<nat>): nat {
    if found.Some? then found.value else 0
  }

  /** `split("\r\n")`. */
  function SplitLines(s: string): (r: seq<string>)
    ensures |r| >= 1
    decreases |s|
  {
    var found := Find(s, "\r\n");
    var k := Place(found);
    if found.None? then [s] else [s[..k]] + SplitLines(s[k + 2..])
  }

  predicate IsWhite(c: char) {
    var n := c as nat;
    || 9 <= n <= 13 || n == 0x20 || n == 0x85 || n == 0xA0 || n == 0x1680 || 0x2000 <= n <= 0x200A
    || n == 0x2028 || n == 0x2029 || n == 0x202F || n == 0x205F || n == 0x3000
  }

  function TrimStart(s: string): (r: string)
    ensures r == "" || !IsWhite(r[0])
  {
    if s != "" && IsWhite(s[0]) then TrimStart(s[1..]) else s
  }

  function TrimEnd(s: string): string {
    if s != "" && IsWhite(s[|s| - 1]) then TrimEnd(s[..|s| - 1]) else s
  }

  /** `trim`. */
  function Trim(s: string): string {
    TrimEnd(TrimStart(s))
  }

  function FirstWhite(s: string): (k: nat)
    ensures k <= |s| && (s != "" && !IsWhite(s[0]) ==> k >= 1)
  {
    if s == "" || IsWhite(s[0]) then 0 else 1 + FirstWhite(s[1..])
  }

  /** `split_whitespace().nth(n)`, empty if there are not so many words. */
  function Word(s: string, n: nat): string
    decreases n
  {
    var t := TrimStart(s);
    if t == "" then ""
    else
      var k := FirstWhite(t);
      if n == 0 then t[..k] else Word(t[k..], n - 1)
  }

  // ---- Decimal numbers ----

  const USIZE_MAX: nat := 0xFFFF_FFFF_FFFF_FFFF

  predicate Digit(c: char) {
    '0' <= c <= '9'
  }

  predicate Digits(s: string) {
    forall k :: 0 <= k < |s| ==> Digit(s[k])
  }

  function Value(s: string): nat
    requires Digits(s)
  {
    if s == "" then 0 else 10 * Value(s[..|s| - 1]) + (s[|s| - 1] as nat - '0' as nat)
  }

  /** `parse::<usize>` on a 64-bit target: an optional plus sign, then digits, within range. */
  function ParseUsize(s: string): Option<nat> {
    var t := if s != "" && s[0] == '+' then s[1..] else s;
    if t != "" && Digits(t) && Value(t) <= USIZE_MAX then Some(Value(t)) else None
  }

  /** A number as `format!` prints it. */
  function Dec(n: nat): (r: string)
    ensures r != "" && Digits(r)
  {
    if n < 10 then [('0' as nat + n) as char] else Dec(n / 10) + [('0' as nat + n % 10) as char]
  }

  lemma {:induction false} DecValue(n: nat)
    ensures Value(Dec(n)) == n
  {
    if n >= 10 {
      DecValue(n / 10);
      assert Dec(n)[..|Dec(n)| - 1] == Dec(n / 10);
    }
  }

  lemma ParseDec(n: nat)
    requires n <= USIZE_MAX
    ensures ParseUsize(Dec(n)) == Some(n)
  {
    DecValue(n);
    assert Digit(Dec(n)[0]);
  }

  /** A leading plus sign is accepted. */
  lemma ParsePlus(n: nat)
    requires n <= USIZE_MAX
    ensures ParseUsize("+" + Dec(n)) == Some(n)
  {
    DecValue(n);
    assert ("+" + Dec(n))[1..] == Dec(n);
  }

  function Pow10(k: nat): (r: nat)
    ensures r >= 1
  {
    if k == 0 then 1 else 10 * Pow10(k - 1)
  }

  lemma {:induction false} DecLength(n: nat, k: nat)
    requires 1 <= k && n < Pow10(k)
    ensures |Dec(n)| <= k
  {
    if n >= 10 {
      DecLength(n / 10, k - 1);
    }
  }
}
