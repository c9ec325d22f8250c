/** The browser's `btoa`: the base 64 encoding of section 4 of RFC 4648
    (alphabet of Table 1, `=` padding of section 3.2) applied to a string
    whose characters are all at most U+00FF, each taken as one byte. */
module Base64 {
  import opened Wrappers
  import Text
  import Lists

  type Byte = b: int | 0 <= b < 256
  type Sextet = v: int | 0 <= v < 64

  /** Table 1 of RFC 4648: the character that encodes a 6-bit value. */
  function Char(v: Sextet): char
  {
    if v < 26 then ('A' as int + v) as char
    else if v < 52 then ('a' as int + (v - 26)) as char
    else if v < 62 then ('0' as int + (v - 52)) as char
    else if v == 62 then '+'
    else '/'
  }

  /** The 64 characters of Table 1. */
  predicate InAlphabet(c: char)
  {
    ('A' <= c <= 'Z') || ('a' <= c <= 'z') || ('0' <= c <= '9') || c == '+' || c == '/'
  }

  /** The 6-bit value a character of Table 1 encodes. */
  function Value(c: char): Sextet
    requires InAlphabet(c)
  {
    if 'A' <= c <= 'Z' then c as int - 'A' as int
    else if 'a' <= c <= 'z' then c as int - 'a' as int + 26
    else if '0' <= c <= '9' then c as int - '0' as int + 52
    else if c == '+' then 62
    else 63
  }

  /** Every 6-bit value has its own character of the alphabet, and that
      character is never the pad character. */
  lemma CharValue(v: Sextet)
    ensures InAlphabet(Char(v)) && Value(Char(v)) == v && Char(v) != '='
  {
  }

  /** The four characters for the bytes `b0 b1 b2` (section 4: three 8-bit
      groups read as four 6-bit groups). */
  function Quantum(b0: Byte, b1: Byte, b2: Byte): string
  {
    [Char(b0 / 4), Char((b0 % 4) * 16 + b1 / 16), Char((b1 % 16) * 4 + b2 / 64), Char(b2 % 64)]
  }

  /** Padded encoding of section 4: a final one-byte group gives two
      characters and `==`, a final two-byte group three characters and `=`. */
  function Encode(b: seq<Byte>): (r: string)
    ensures |r| == 4 * ((|b| + 2) / 3)
  {
    if |b| == 0 then []
    else if |b| == 1 then [Char(b[0] / 4), Char((b[0] % 4) * 16), '=', '=']
    else if |b| == 2 then Quantum(b[0], b[1], 0)[..3] + ['=']
    else Quantum(b[0], b[1], b[2]) + Encode(b[3..])
  }

  /** The same encoding without the pad characters. */
  function EncodeUnpadded(b: seq<Byte>): (r: string)
  {
    if |b| == 0 then []
    else if |b| == 1 then [Char(b[0] / 4), Char((b[0] % 4) * 16)]
    else if |b| == 2 then Quantum(b[0], b[1], 0)[..3]
    else Quantum(b[0], b[1], b[2]) + EncodeUnpadded(b[3..])
  }

  predicate AllInAlphabet(s: string)
  {
    forall k :: 0 <= k < |s| ==> InAlphabet(s[k])
  }

  /** The characters of an alphabet-only string, one 6-bit value each,
      read back three bytes per four characters; a final group of two or three
      characters gives one or two bytes. */
  function DecodeUnpadded(s: string): seq<Byte>
    requires AllInAlphabet(s) && |s| % 4 != 1
  {
    if |s| == 0 then []
    else if |s| == 2 then [Value(s[0]) * 4 + Value(s[1]) / 16]
    else if |s| == 3 then
      [Value(s[0]) * 4 + Value(s[1]) / 16, (Value(s[1]) % 16) * 16 + Value(s[2]) / 4]
    else
      AlphabetTail(s);
      [Value(s[0]) * 4 + Value(s[1]) / 16,
       (Value(s[1]) % 16) * 16 + Value(s[2]) / 4,
       (Value(s[2]) % 4) * 64 + Value(s[3])]
      + DecodeUnpadded(s[4..])
  }

  /** What follows a full quantum is again decodable. */
  lemma AlphabetTail(s: string)
    requires AllInAlphabet(s) && |s| >= 4 && |s| % 4 != 1
    ensures AllInAlphabet(s[4..]) && |s[4..]| % 4 != 1
  {
    forall k | 0 <= k < |s[4..]| ensures InAlphabet(s[4..][k]) {
      assert s[4..][k] == s[k + 4];
    }
  }

  /** The six-bit groups of three bytes put back together give the bytes. */
  lemma QuantumArithmetic(b0: Byte, b1: Byte, b2: Byte)
    ensures (b0 / 4) * 4 + ((b0 % 4) * 16 + b1 / 16) / 16 == b0
    ensures (((b0 % 4) * 16 + b1 / 16) % 16) * 16 + ((b1 % 16) * 4 + b2 / 64) / 4 == b1
    ensures (((b1 % 16) * 4 + b2 / 64) % 4) * 64 + b2 % 64 == b2
  {
    assert ((b0 % 4) * 16 + b1 / 16) / 16 == b0 % 4;
    assert ((b0 % 4) * 16 + b1 / 16) % 16 == b1 / 16;
    assert ((b1 % 16) * 4 + b2 / 64) / 4 == b1 % 16;
    assert ((b1 % 16) * 4 + b2 / 64) % 4 == b2 / 64;
  }

  /** No character of a quantum, and none of a shortened final one, is `=`. */
  lemma QuantumInAlphabet(b0: Byte, b1: Byte, b2: Byte)
    ensures AllInAlphabet(Quantum(b0, b1, b2))
    ensures forall k :: 0 <= k < 4 ==> Quantum(b0, b1, b2)[k] != '='
  {
    CharValue(b0 / 4);
    CharValue((b0 % 4) * 16 + b1 / 16);
    CharValue((b1 % 16) * 4 + b2 / 64);
    CharValue(b2 % 64);
  }

  /** A full quantum decodes to its three bytes. */
  lemma QuantumFull(b0: Byte, b1: Byte, b2: Byte)
    ensures AllInAlphabet(Quantum(b0, b1, b2))
    ensures DecodeUnpadded(Quantum(b0, b1, b2)) == [b0, b1, b2]
  {
    var q := Quantum(b0, b1, b2);
    QuantumInAlphabet(b0, b1, b2);
    QuantumArithmetic(b0, b1, b2);
    CharValue(b0 / 4);
    CharValue((b0 % 4) * 16 + b1 / 16);
    CharValue((b1 % 16) * 4 + b2 / 64);
    CharValue(b2 % 64);
    assert q[4..] == [];
  }

  /** A final group of three characters decodes to its two bytes. */
  lemma TailPair(b0: Byte, b1: Byte)
    ensures var q := Quantum(b0, b1, 0)[..3];
            AllInAlphabet(q) && |q| == 3 && DecodeUnpadded(q) == [b0, b1]
  {
    QuantumInAlphabet(b0, b1, 0);
    QuantumArithmetic(b0, b1, 0);
    CharValue(b0 / 4);
    CharValue((b0 % 4) * 16 + b1 / 16);
    CharValue((b1 % 16) * 4);
  }

  /** A final group of two characters decodes to its one byte. */
  lemma TailSingle(b0: Byte)
    ensures var q := EncodeUnpadded([b0]);
            AllInAlphabet(q) && |q| == 2 && DecodeUnpadded(q) == [b0]
  {
    var v0, v1 := b0 / 4, (b0 % 4) * 16;
    CharValue(v0);
    CharValue(v1);
    var q := [Char(v0), Char(v1)];
    assert EncodeUnpadded([b0]) == q;
    assert v0 * 4 + v1 / 16 == b0;
    assert DecodeUnpadded(q) == [Value(q[0]) * 4 + Value(q[1]) / 16];
  }

  /** Removing every `=` from the padded encoding gives the unpadded one. */
  lemma {:induction false} StripPadding(b: seq<Byte>)
    ensures Text.RemoveAll(Encode(b), '=') == EncodeUnpadded(b)
  {
    if |b| == 0 {
    } else if |b| == 1 {
      assert b == [b[0]];
      StripSingle(b[0]);
    } else if |b| == 2 {
      assert b == [b[0], b[1]];
      StripPair(b[0], b[1]);
    } else {
      var q := Quantum(b[0], b[1], b[2]);
      QuantumInAlphabet(b[0], b[1], b[2]);
      assert '=' !in q;
      assert Encode(b) == q + Encode(b[3..]);
      assert EncodeUnpadded(b) == q + EncodeUnpadded(b[3..]);
      Text.RemoveAllAppend(q, Encode(b[3..]), '=');
      Text.RemoveAllAbsent(q, '=');
      StripPadding(b[3..]);
    }
  }

  /** A final group of one or two bytes: its pad characters go, its other
      characters stay. */
  lemma StripSingle(b0: Byte)
    ensures Text.RemoveAll(Encode([b0]), '=') == EncodeUnpadded([b0])
  {
    var c0, c1 := Char(b0 / 4), Char((b0 % 4) * 16);
    CharValue(b0 / 4);
    CharValue((b0 % 4) * 16);
    StripPieces(Encode([b0]), [c0, c1], ['=', '=']);
  }

  lemma StripPair(b0: Byte, b1: Byte)
    ensures Text.RemoveAll(Encode([b0, b1]), '=') == EncodeUnpadded([b0, b1])
  {
    var q := Quantum(b0, b1, 0);
    QuantumInAlphabet(b0, b1, 0);
    assert '=' !in q[..3];
    StripPieces(Encode([b0, b1]), q[..3], ['=']);
  }

  /** Dropping `=` from text without it followed by pad characters only. */
  lemma StripPieces(s: string, u: string, pad: string)
    requires s == u + pad && '=' !in u
    requires forall k :: 0 <= k < |pad| ==> pad[k] == '='
    ensures Text.RemoveAll(s, '=') == u
  {
    Text.RemoveAllAppend(u, pad, '=');
    Text.RemoveAllAbsent(u, '=');
    Text.RemoveAllOnly(pad, '=');
    assert Text.RemoveAll(s, '=') == u + [];
  }

  lemma AllInAlphabetConcat(a: string, b: string)
    requires AllInAlphabet(a) && AllInAlphabet(b)
    ensures AllInAlphabet(a + b)
  {
    forall k | 0 <= k < |a + b| ensures InAlphabet((a + b)[k]) {
      if k < |a| { assert (a + b)[k] == a[k]; } else { assert (a + b)[k] == b[k - |a|]; }
    }
  }

  /** Decoding splits at a full quantum. */
  lemma DecodeConcat(q: string, rest: string)
    requires |q| == 4 && AllInAlphabet(q) && AllInAlphabet(rest) && |rest| % 4 != 1
    ensures AllInAlphabet(q + rest) && |q + rest| % 4 != 1
    ensures DecodeUnpadded(q + rest) == DecodeUnpadded(q) + DecodeUnpadded(rest)
  {
    AllInAlphabetConcat(q, rest);
    var s := q + rest;
    assert s[4..] == rest;
    assert q[4..] == [];
    assert s[..4] == q;
  }

  /** The unpadded encoding uses the alphabet only, never has a length of the
      form 4k + 1, and decodes back to the bytes it came from. */
  lemma {:induction false} RoundTrip(b: seq<Byte>)
    ensures AllInAlphabet(EncodeUnpadded(b)) && |EncodeUnpadded(b)| % 4 != 1
    ensures DecodeUnpadded(EncodeUnpadded(b)) == b
  {
    if |b| == 0 {
    } else if |b| == 1 {
      assert b == [b[0]];
      TailSingle(b[0]);
    } else if |b| == 2 {
      assert b == [b[0], b[1]];
      TailPair(b[0], b[1]);
    } else {
      var q := Quantum(b[0], b[1], b[2]);
      QuantumFull(b[0], b[1], b[2]);
      var rest := EncodeUnpadded(b[3..]);
      assert EncodeUnpadded(b) == q + rest;
      RoundTrip(b[3..]);
      assert b[..3] == [b[0], b[1], b[2]];
      RoundTripStep(b, q, rest);
    }
  }

  /** One full quantum in front of a decodable rest. */
  lemma RoundTripStep(b: seq<Byte>, q: string, rest: string)
    requires |b| >= 3 && |q| == 4 && AllInAlphabet(q) && DecodeUnpadded(q) == b[..3]
    requires AllInAlphabet(rest) && |rest| % 4 != 1 && DecodeUnpadded(rest) == b[3..]
    ensures AllInAlphabet(q + rest) && |q + rest| % 4 != 1
    ensures DecodeUnpadded(q + rest) == b
  {
    DecodeConcat(q, rest);
    assert b == b[..3] + b[3..];
  }

  /** Every character is at most U+00FF, so `btoa` accepts the string. */
  predicate IsLatin1(s: string)
  {
    forall k :: 0 <= k < |s| ==> s[k] as int < 256
  }

  /** The bytes `btoa` encodes: one per character. */
  function Latin1Bytes(s: string): (b: seq<Byte>)
    requires IsLatin1(s)
    ensures |b| == |s| && forall k :: 0 <= k < |s| ==> b[k] == s[k] as int
  {
    seq(|s|, k requires 0 <= k < |s| => s[k] as int)
  }

  /** `btoa(s)`: the padded encoding, or `None` where `btoa` throws an
      InvalidCharacterError (a character above U+00FF). */
  function Btoa(s: string): (r: Option<string>)
    ensures r.Some? <==> IsLatin1(s)
  {
    if IsLatin1(s) then Some(Encode(Latin1Bytes(s))) else None
  }

  /** Two strings `btoa` accepts have the same encoding with its padding
      removed only if they are the same string. */
  lemma UnpaddedInjective(s: string, t: string)
    requires IsLatin1(s) && IsLatin1(t)
    requires Text.RemoveAll(Btoa(s).value, '=') == Text.RemoveAll(Btoa(t).value, '=')
    ensures s == t
  {
    StripPadding(Latin1Bytes(s));
    StripPadding(Latin1Bytes(t));
    RoundTrip(Latin1Bytes(s));
    RoundTrip(Latin1Bytes(t));
    var bs, bt := Latin1Bytes(s), Latin1Bytes(t);
    assert bs == bt;
    assert |s| == |t|;
    forall k | 0 <= k < |s| ensures s[k] == t[k] {
      assert s[k] as int == bs[k] == bt[k] == t[k] as int;
    }
  }
}
