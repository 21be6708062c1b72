/** Lossy UTF-8: it reads back every text, and a byte sequence that is not UTF-8 never swallows the
    ASCII around it, so that lines, names and numbers stay where they are. */
module HttpUtf8 {
  import opened HttpText

  /** The UTF-8 of one character. */
  function EncodeChar(c: char): (r: seq<Byte>)
    ensures 1 <= |r| <= 4
  {
    var n := c as nat;
    if n < 0x80 then [n]
    else if n < 0x800 then [0xC0 + n / 0x40, 0x80 + n % 0x40]
    else if n < 0x10000 then [0xE0 + n / 0x1000, 0x80 + n / 0x40 % 0x40, 0x80 + n % 0x40]
    else [0xF0 + n / 0x40000, 0x80 + n / 0x1000 % 0x40, 0x80 + n / 0x40 % 0x40, 0x80 + n % 0x40]
  }

  function Encode(s: string): seq<Byte> {
    if s == "" then [] else EncodeChar(s[0]) + Encode(s[1..])
  }

  /** A number from its digits to the base 64. */
  lemma Base64(n: nat)
    ensures n == n / 0x40 * 0x40 + n % 0x40
    ensures n / 0x40 == n / 0x1000 * 0x40 + n / 0x40 % 0x40
    ensures n / 0x1000 == n / 0x40000 * 0x40 + n / 0x1000 % 0x40
  {
    assert n / 0x40 / 0x40 == n / 0x1000;
    assert n / 0x1000 / 0x40 == n / 0x40000;
  }

  lemma DecodeTwo(c: char, bytes: seq<Byte>)
    requires 0x80 <= c as nat < 0x800 && |bytes| >= 2 && bytes[..2] == EncodeChar(c)
    ensures DecodeOne(bytes) == (c, 2)
  {
    assert bytes[0] == bytes[..2][0] && bytes[1] == bytes[..2][1];
  }

  lemma DecodeThree(c: char, bytes: seq<Byte>)
    requires 0x800 <= c as nat < 0x10000 && |bytes| >= 3 && bytes[..3] == EncodeChar(c)
    ensures DecodeOne(bytes) == (c, 3)
  {
    Base64(c as nat);
    assert bytes[0] == bytes[..3][0] && bytes[1] == bytes[..3][1] && bytes[2] == bytes[..3][2];
  }

  lemma DecodeFour(c: char, bytes: seq<Byte>)
    requires 0x10000 <= c as nat && |bytes| >= 4 && bytes[..4] == EncodeChar(c)
    ensures DecodeOne(bytes) == (c, 4)
  {
    Base64(c as nat);
    assert bytes[0] == bytes[..4][0] && bytes[1] == bytes[..4][1];
    assert bytes[2] == bytes[..4][2] && bytes[3] == bytes[..4][3];
  }

  lemma DecodeEncoded(c: char, rest: seq<Byte>)
    ensures DecodeOne(EncodeChar(c) + rest) == (c, |EncodeChar(c)|)
  {
    var bytes, n := EncodeChar(c) + rest, |EncodeChar(c)|;
    assert bytes[..n] == EncodeChar(c);
    if n == 2 {
      DecodeTwo(c, bytes);
    } else if n == 3 {
      DecodeThree(c, bytes);
    } else if n == 4 {
      DecodeFour(c, bytes);
    }
  }

  /** Every text is read back from its UTF-8. */
  lemma {:induction false} DecodeEncode(s: string)
    ensures Decode(Encode(s)) == s
  {
    if s != "" {
      DecodeEncoded(s[0], Encode(s[1..]));
      assert Encode(s)[|EncodeChar(s[0])|..] == Encode(s[1..]);
      DecodeEncode(s[1..]);
    }
  }

  /** What follows an ASCII byte does not matter to the sequences before it. */
  lemma DecodeOneStops(before: seq<Byte>, b: Byte, after: seq<Byte>)
    requires before != [] && b < 0x80
    ensures DecodeOne(before + [b] + after) == DecodeOne(before)
  {
    var all := before + [b] + after;
    assert forall i :: 0 <= i < |before| ==> all[i] == before[i];
    assert all[|before|] == b;
  }

  /** An ASCII byte is read as itself, whatever stands around it, and parts the text there. */
  lemma {:induction false} DecodeAcrossAscii(before: seq<Byte>, b: Byte, after: seq<Byte>)
    requires b < 0x80
    ensures Decode(before + [b] + after) == Decode(before) + [b as char] + Decode(after)
    decreases |before|
  {
    var all := before + [b] + after;
    if before == [] {
      assert all[1..] == after;
    } else {
      var (c, n) := DecodeOne(before);
      DecodeOneStops(before, b, after);
      assert all[n..] == before[n..] + [b] + after;
      DecodeAcrossAscii(before[n..], b, after);
    }
  }

  /** The first bytes alone decide, where a sequence ends early. */
  lemma StopsAt(bytes: seq<Byte>, c: char, k: nat)
    requires 1 <= k < |EncodeChar(c)| && k <= |bytes| && !Continues(Peek(bytes, k))
    requires bytes[0] == EncodeChar(c)[0]
    requires k >= 2 ==> bytes[1] == EncodeChar(c)[1]
    requires k >= 3 ==> bytes[2] == EncodeChar(c)[2]
    ensures DecodeOne(bytes) == (REPLACEMENT, k)
  {
    assert Peek(bytes, 0) == EncodeChar(c)[0];
    if k >= 2 {
      assert Peek(bytes, 1) == EncodeChar(c)[1] && Continues(Peek(bytes, 1));
    }
    if k >= 3 {
      assert Peek(bytes, 2) == EncodeChar(c)[2] && Continues(Peek(bytes, 2));
    }
  }

  /** A character cut short by anything but a continuation byte is read as one replacement character,
      which stands for all that there is of it. */
  lemma CutShort(c: char, k: nat, rest: seq<Byte>)
    requires 1 <= k < |EncodeChar(c)| && !Continues(Peek(rest, 0))
    ensures Decode(EncodeChar(c)[..k] + rest) == [REPLACEMENT] + Decode(rest)
  {
    var first := EncodeChar(c)[..k];
    var bytes := first + rest;
    assert bytes[0] == first[0] && (k >= 2 ==> bytes[1] == first[1]) && (k >= 3 ==> bytes[2] == first[2]);
    assert Peek(bytes, k) == Peek(rest, 0);
    StopsAt(bytes, c, k);
    assert bytes[k..] == rest;
  }

  /** A continuation byte on its own is read as one replacement character. */
  lemma StrayByte(b: Byte, rest: seq<Byte>)
    requires Continues(b)
    ensures Decode([b] + rest) == [REPLACEMENT] + Decode(rest)
  {
    assert ([b] + rest)[1..] == rest;
  }
}
