/**
 * Unpadded standard base64 encoding (RFC 4648 section 4 alphabet, no `=`
 * padding), as used for the salt and key of an encoded Argon2id hash:
 * the encoder, the decoder, and the round trip between them.
 */
module Base64 {
  import opened Wrappers
  import opened Text

  /** The 64 characters of the standard alphabet. */
  predicate IsBase64Char(c: char) {
    ('A' <= c <= 'Z') || ('a' <= c <= 'z') || ('0' <= c <= '9') || c == '+' || c == '/'
  }

  /** The character for a six-bit value. */
  function Digit(v: nat): (c: char)
    requires v < 64
    ensures IsBase64Char(c)
  {
    if v < 26 then ('A' as int + v) as char
    else if v < 52 then ('a' as int + (v - 26)) as char
    else if v < 62 then ('0' as int + (v - 52)) as char
    else if v == 62 then '+'
    else '/'
  }

  /** Characters produced for `n` input bytes without padding. */
  function EncodedLen(n: nat): nat {
    (8 * n + 5) / 6
  }

  /** Byte `j` of `b`, or 0 past its end. */
  function ByteAt(b: seq<byte>, j: nat): byte {
    if j < |b| then b[j] else 0
  }

  /**
   * The `i`-th six-bit group of `b`: every three bytes (missing ones read
   * as 0) give four groups, most significant bits first.
   */
  function Sextet(b: seq<byte>, i: nat): (v: nat)
    requires i < EncodedLen(|b|)
    ensures v < 64
  {
    var j := 3 * (i / 4);
    var b0, b1, b2 := ByteAt(b, j), ByteAt(b, j + 1), ByteAt(b, j + 2);
    match i % 4
    case 0 => b0 / 4
    case 1 => (b0 % 4) * 16 + b1 / 16
    case 2 => (b1 % 16) * 4 + b2 / 64
    case _ => b2 % 64
  }

  /** `base64.RawStdEncoding.EncodeToString`: one character per six-bit group. */
  function Encode(b: seq<byte>): (s: string)
    ensures |s| == EncodedLen(|b|)
    ensures forall i :: 0 <= i < |s| ==> IsBase64Char(s[i])
  {
    seq(EncodedLen(|b|), i requires 0 <= i < EncodedLen(|b|) => Digit(Sextet(b, i)))
  }

  /** Encoded text never contains the `$` field separator. */
  lemma EncodeHasNoDollar(b: seq<byte>)
    ensures '$' !in Encode(b)
  {
  }

  // ----------------------------------------------------------------- decoding

  /** The six-bit value of an alphabet character. */
  function Value(c: char): (v: nat)
    requires IsBase64Char(c)
    ensures v < 64 && Digit(v) == c
  {
    if 'A' <= c <= 'Z' then c as int - 'A' as int
    else if 'a' <= c <= 'z' then c as int - 'a' as int + 26
    else if '0' <= c <= '9' then c as int - '0' as int + 52
    else if c == '+' then 62
    else 63
  }

  predicate AllBase64(s: string) {
    forall i :: 0 <= i < |s| ==> IsBase64Char(s[i])
  }

  /**
   * `base64.RawStdEncoding.DecodeString`: four characters give three bytes;
   * a final group of two or three characters gives one or two bytes, and
   * its unused low bits are ignored; a final single character, or any
   * character outside the alphabet, is an error.
   */
  function Decode(s: string): (r: Option<seq<byte>>)
    ensures r.Some? <==> AllBase64(s) && |s| % 4 != 1
    ensures r.Some? ==> |r.value| == |s| * 6 / 8
    decreases |s|
  {
    if |s| == 0 then Some([])
    else if |s| == 1 || !IsBase64Char(s[0]) || !IsBase64Char(s[1]) then None
    else
      var v0, v1 := Value(s[0]), Value(s[1]);
      var b0: byte := v0 * 4 + v1 / 16;
      if |s| == 2 then Some([b0])
      else if !IsBase64Char(s[2]) then None
      else
        var v2 := Value(s[2]);
        var b1: byte := (v1 % 16) * 16 + v2 / 4;
        if |s| == 3 then Some([b0, b1])
        else if !IsBase64Char(s[3]) then None
        else
          var b2: byte := (v2 % 4) * 64 + Value(s[3]);
          match Decode(s[4..])
          case None => None
          case Some(rest) => Some([b0, b1, b2] + rest)
  }

  /** The first four six-bit groups, written out per byte (a missing byte reads as 0). */
  lemma FirstSextets(b: seq<byte>)
    requires |b| > 0
    ensures Sextet(b, 0) == b[0] / 4
    ensures Sextet(b, 1) == (b[0] % 4) * 16 + (if |b| > 1 then b[1] / 16 else 0)
    ensures |b| > 1 ==> Sextet(b, 2) == (b[1] % 16) * 4 + (if |b| > 2 then b[2] / 64 else 0)
    ensures |b| > 2 ==> Sextet(b, 3) == b[2] % 64
  {
  }

  /** Three bytes more make four characters more. */
  lemma EncodedLenStep(n: nat)
    ensures EncodedLen(n + 3) == EncodedLen(n) + 4
  {
  }

  /** Past the first three bytes, the groups are those of the rest. */
  lemma ShiftedSextet(b: seq<byte>, i: nat)
    requires |b| >= 3 && i < EncodedLen(|b| - 3)
    ensures i + 4 < EncodedLen(|b|)
    ensures Sextet(b, i + 4) == Sextet(b[3..], i)
  {
    EncodedLenStep(|b| - 3);
    var j := 3 * (i / 4);
    assert (i + 4) / 4 == i / 4 + 1 && (i + 4) % 4 == i % 4;
    assert 3 * ((i + 4) / 4) == j + 3;
    ByteAtShift(b, j);
    ByteAtShift(b, j + 1);
    ByteAtShift(b, j + 2);
  }

  /** Dropping three bytes shifts every position by three. */
  lemma ByteAtShift(b: seq<byte>, j: nat)
    requires |b| >= 3
    ensures ByteAt(b, j + 3) == ByteAt(b[3..], j)
  {
  }

  /** Encoding three or more bytes: one group of four characters, then the rest. */
  lemma EncodeStep(b: seq<byte>)
    requires |b| >= 3
    ensures Encode(b)[4..] == Encode(b[3..])
  {
    var e, e' := Encode(b), Encode(b[3..]);
    EncodedLenStep(|b| - 3);
    forall i | 0 <= i < |e'|
      ensures e[4..][i] == e'[i]
    {
      ShiftedSextet(b, i);
    }
  }

  /** Decoding a group gives back the bytes its groups were cut from. */
  lemma GroupDecodes(b0: nat, b1: nat, b2: nat)
    requires b0 < 256 && b1 < 256 && b2 < 256
    ensures (b0 / 4) * 4 + ((b0 % 4) * 16 + b1 / 16) / 16 == b0
    ensures (((b0 % 4) * 16 + b1 / 16) % 16) * 16 + ((b1 % 16) * 4 + b2 / 64) / 4 == b1
    ensures (((b1 % 16) * 4 + b2 / 64) % 4) * 64 + b2 % 64 == b2
  {
  }

  /** Reading a character back gives its six-bit value. */
  lemma ValueDigit(v: nat)
    requires v < 64
    ensures Value(Digit(v)) == v
  {
  }

  /** The characters of the first group of an encoding read back as its six-bit groups. */
  lemma FirstValues(b: seq<byte>, s: string)
    requires |b| > 0 && s == Encode(b)
    ensures Value(s[0]) == b[0] / 4
    ensures Value(s[1]) == (b[0] % 4) * 16 + ByteAt(b, 1) / 16
    ensures |b| > 1 ==> Value(s[2]) == (b[1] % 16) * 4 + ByteAt(b, 2) / 64
    ensures |b| > 2 ==> Value(s[3]) == b[2] % 64
  {
    FirstSextets(b);
    ValueDigit(Sextet(b, 0));
    ValueDigit(Sextet(b, 1));
    if |b| > 1 {
      ValueDigit(Sextet(b, 2));
    }
    if |b| > 2 {
      ValueDigit(Sextet(b, 3));
    }
  }

  /** Decoding a leading group of four characters that stand for `b0`, `b1`, `b2`. */
  lemma DecodeFour(s: string, b0: byte, b1: byte, b2: byte, rest: seq<byte>)
    requires |s| >= 4 && IsBase64Char(s[0]) && IsBase64Char(s[1])
    requires IsBase64Char(s[2]) && IsBase64Char(s[3])
    requires Value(s[0]) * 4 + Value(s[1]) / 16 == b0
    requires (Value(s[1]) % 16) * 16 + Value(s[2]) / 4 == b1
    requires (Value(s[2]) % 4) * 64 + Value(s[3]) == b2
    requires Decode(s[4..]) == Some(rest)
    ensures Decode(s) == Some([b0, b1, b2] + rest)
  {
  }

  /** A sequence of three or more is its first three elements and the rest. */
  lemma FirstThree(b: seq<byte>)
    requires |b| >= 3
    ensures [b[0], b[1], b[2]] + b[3..] == b
  {
  }

  /** The step of the round trip for three or more bytes. */
  lemma DecodeEncodeStep(b: seq<byte>)
    requires |b| >= 3
    requires Decode(Encode(b[3..])) == Some(b[3..])
    ensures Decode(Encode(b)) == Some(b)
  {
    var s := Encode(b);
    FirstValues(b, s);
    GroupDecodes(b[0], b[1], b[2]);
    EncodeStep(b);
    DecodeFour(s, b[0], b[1], b[2], b[3..]);
    FirstThree(b);
  }

  /** The round trip for one or two bytes. */
  lemma DecodeEncodeShort(b: seq<byte>)
    requires 0 < |b| < 3
    ensures Decode(Encode(b)) == Some(b)
  {
    var s := Encode(b);
    FirstValues(b, s);
    GroupDecodes(b[0], ByteAt(b, 1), 0);
    if |b| == 2 {
      assert b == [b[0], b[1]];
    } else {
      assert b == [b[0]];
    }
  }

  /** Round trip: decoding an encoding gives back the bytes. */
  lemma {:induction false} DecodeEncode(b: seq<byte>)
    ensures Decode(Encode(b)) == Some(b)
    decreases |b|
  {
    if |b| >= 3 {
      DecodeEncode(b[3..]);
      DecodeEncodeStep(b);
    } else if |b| > 0 {
      DecodeEncodeShort(b);
    }
  }
}
