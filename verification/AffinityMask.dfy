/** The `smp_affinity` mask of one cpu: comma-separated 32-bit hex words, most significant
    first, and a reader for that format that the writer is checked against. */
module AffinityMask {
  import opened PoolTypes

  const WORD: nat := 0x1_0000_0000

  function Pow2(n: nat): (r: nat)
    ensures r >= 1
  {
    if n == 0 then 1 else 2 * Pow2(n - 1)
  }

  lemma {:induction false} Pow2Sum(a: nat, b: nat)
    ensures Pow2(a + b) == Pow2(a) * Pow2(b)
  {
    if a > 0 {
      Pow2Sum(a - 1, b);
    }
  }

  lemma {:induction false} Pow2Below(a: nat, b: nat)
    requires a < b
    ensures Pow2(a) < Pow2(b)
    decreases b
  {
    if a < b - 1 {
      Pow2Below(a, b - 1);
    }
  }

  lemma Pow2Word()
    ensures Pow2(32) == WORD
  {
    assert Pow2(8) == 256;
    Pow2Sum(8, 8);
    Pow2Sum(16, 16);
  }

  // ---- Hexadecimal ----

  function HexChar(d: nat): char
    requires d < 16
  {
    "0123456789abcdef"[d]
  }

  function HexValue(c: char): Option<nat> {
    if '0' <= c <= '9' then Some(c as nat - '0' as nat)
    else if 'a' <= c <= 'f' then Some(10 + (c as nat - 'a' as nat))
    else None
  }

  /** `n` in lower-case hex, padded with zeros to `width` digits. */
  function Hex(n: nat, width: nat): (s: string)
    ensures |s| == width
  {
    if width == 0 then "" else Hex(n / 16, width - 1) + [HexChar(n % 16)]
  }

  /** The number that a string of hex digits spells. */
  function ReadHex(s: string): Option<nat> {
    if s == "" then Some(0)
    else
      var high, low := ReadHex(s[..|s| - 1]), HexValue(s[|s| - 1]);
      if high.Some? && low.Some? then Some(16 * high.value + low.value) else None
  }

  function Pow16(n: nat): nat {
    if n == 0 then 1 else 16 * Pow16(n - 1)
  }

  lemma HexCharRead(d: nat)
    requires d < 16
    ensures HexValue(HexChar(d)) == Some(d)
  {
  }

  lemma {:induction false} HexRoundTrip(n: nat, width: nat)
    requires n < Pow16(width)
    ensures ReadHex(Hex(n, width)) == Some(n)
  {
    if width > 0 {
      HexRoundTrip(n / 16, width - 1);
      HexCharRead(n % 16);
      assert Hex(n, width)[..width - 1] == Hex(n / 16, width - 1);
    }
  }

  /** A whole word fits in eight digits. */
  lemma WordRoundTrip(n: nat)
    requires n < WORD
    ensures ReadHex(Hex(n, 8)) == Some(n)
  {
    assert Pow16(4) == 0x1_0000;
    assert Pow16(8) == WORD;
    HexRoundTrip(n, 8);
  }

  // ---- Masks ----

  /** Eight hex digits per word, words separated by commas, most significant first: the number
      they spell in base 2^32. */
  function ReadMask(s: string): Option<nat> {
    if |s| < 8 then None
    else if |s| == 8 then ReadHex(s)
    else if |s| < 17 || s[|s| - 9] != ',' then None
    else
      var high, low := ReadMask(s[..|s| - 9]), ReadHex(s[|s| - 8..]);
      if high.Some? && low.Some? then Some(WORD * high.value + low.value) else None
  }

  lemma ReadMaskAppend(s: string, n: nat)
    requires ReadMask(s).Some? && n < WORD
    ensures ReadMask(s + "," + Hex(n, 8)) == Some(WORD * ReadMask(s).value + n)
  {
    var word := Hex(n, 8);
    var t := s + "," + word;
    WordRoundTrip(n);
    assert |t| == |s| + 9 && |s| >= 8 && t[|t| - 9] == ',';
    assert t[..|t| - 9] == s && t[|t| - 8..] == word;
  }

  /** `top` followed by `k` zero words. */
  function Shifted(top: nat, k: nat): nat {
    if k == 0 then top else WORD * Shifted(top, k - 1)
  }

  lemma {:induction false} ShiftedPow2(r: nat, k: nat)
    ensures Shifted(Pow2(r), k) == Pow2(32 * k + r)
  {
    if k > 0 {
      ShiftedPow2(r, k - 1);
      Pow2Sum(32, 32 * (k - 1) + r);
      Pow2Word();
    }
  }

  /** `out` is the `top` word and `k` zero words after it. */
  ghost predicate Words(out: string, top: nat, k: nat) {
    |out| == 9 * k + 8 && out[..8] == Hex(top, 8) && ReadMask(out) == Some(Shifted(top, k))
  }

  lemma FirstWord(top: nat)
    requires top < WORD
    ensures Words(Hex(top, 8), top, 0)
  {
    WordRoundTrip(top);
    assert Hex(top, 8)[..8] == Hex(top, 8);
  }

  lemma ZeroWord(out: string, top: nat, k: nat)
    requires Words(out, top, k)
    ensures Words(out + "," + Hex(0, 8), top, k + 1)
  {
    ReadMaskAppend(out, 0);
    assert (out + "," + Hex(0, 8))[..8] == out[..8];
  }

  /** The mask that names exactly `cpu`: read back, it is the number with only that bit set; its
      leading word is not zero; nine characters per word, less the missing comma. */
  method Mask(cpu: nat) returns (out: string)
    ensures ReadMask(out) == Some(Pow2(cpu))
    ensures |out| == 9 * (cpu / 32 + 1) - 1
    ensures ReadHex(out[..8]).Some? && ReadHex(out[..8]).value != 0
  {
    var last := cpu / 32;
    var words := last + 1;
    var top := Pow2(cpu % 32);
    BitInWord(cpu);
    out := "";
    var w := words;
    while w > 0
      invariant 0 <= w <= words
      invariant w == words ==> out == ""
      invariant w < words ==> Words(out, top, last - w)
    {
      w := w - 1;
      var bits := if w == last then top else 0;
      if out != "" {
        ZeroWord(out, top, last - w - 1);
        out := out + "," + Hex(bits, 8);
      } else {
        FirstWord(top);
        out := Hex(bits, 8);
      }
    }
    ShiftedPow2(cpu % 32, last);
    WordRoundTrip(top);
  }

  lemma BitInWord(cpu: nat)
    ensures Pow2(cpu % 32) < WORD && 32 * (cpu / 32) + cpu % 32 == cpu
  {
    Pow2Below(cpu % 32, 32);
    Pow2Word();
  }

  /** Two cpus never share a mask. */
  lemma MasksDiffer(a: nat, b: nat, mask: string)
    requires ReadMask(mask) == Some(Pow2(a)) && ReadMask(mask) == Some(Pow2(b))
    ensures a == b
  {
    if a < b {
      Pow2Below(a, b);
    } else if b < a {
      Pow2Below(b, a);
    }
  }
}
