/**
 * Convert.ToBase64String, the last step of the password hash: every three
 * bytes become four characters of the standard alphabet (A-Z, a-z, 0-9, '+',
 * '/'), and a final group of one or two bytes is padded with '='.
 * The decoder is the encoder's inverse, which makes the encoding injective.
 */
module Base64 {
  type byte = x: int | 0 <= x < 256

  /** The character for a six-bit value. */
  function Enc(v: int): (c: char)
    requires 0 <= v < 64
    ensures c != '='
  {
    if v < 26 then 'A' + v as char
    else if v < 52 then 'a' + (v - 26) as char
    else if v < 62 then '0' + (v - 52) as char
    else if v == 62 then '+'
    else '/'
  }

  /** The six-bit value of an alphabet character; 0 for any other character. */
  function Dec(c: char): (v: int)
    ensures 0 <= v < 64
  {
    if 'A' <= c <= 'Z' then c as int - 'A' as int
    else if 'a' <= c <= 'z' then c as int - 'a' as int + 26
    else if '0' <= c <= '9' then c as int - '0' as int + 52
    else if c == '+' then 62
    else if c == '/' then 63
    else 0
  }

  lemma DecEnc(v: int)
    requires 0 <= v < 64
    ensures Dec(Enc(v)) == v
  {
  }

  /** How many '=' end the encoding of `n` bytes. */
  function Padding(n: nat): (p: nat)
    ensures p < 3 && (n + p) % 3 == 0
  {
    (3 - n % 3) % 3
  }

  /** Exactly the last `p` characters of `r` are '='. */
  predicate PaddedBy(r: string, p: nat) {
    forall i | 0 <= i < |r| :: (r[i] == '=' <==> |r| - p <= i)
  }

  /** The four characters for one group of three bytes. */
  function EncodeGroup(b0: byte, b1: byte, b2: byte): (r: string)
    ensures |r| == 4 && forall i | 0 <= i < 4 :: r[i] != '='
  {
    [Enc(b0 / 4), Enc((b0 % 4) * 16 + b1 / 16), Enc((b1 % 16) * 4 + b2 / 64), Enc(b2 % 64)]
  }

  /** The padded last group for one or two remaining bytes. */
  function EncodeTail(b: seq<byte>): (r: string)
    requires 1 <= |b| <= 2
    ensures |r| == 4 && PaddedBy(r, Padding(|b|))
  {
    if |b| == 1 then [Enc(b[0] / 4), Enc((b[0] % 4) * 16), '=', '=']
    else [Enc(b[0] / 4), Enc((b[0] % 4) * 16 + b[1] / 16), Enc((b[1] % 16) * 4), '=']
  }

  /**
   * Convert.ToBase64String: four characters per started group of three bytes,
   * of which exactly the last Padding(|b|) are '='.
   */
  function Encode(b: seq<byte>): (r: string)
    ensures |r| == 4 * ((|b| + 2) / 3)
    ensures PaddedBy(r, Padding(|b|))
    decreases |b|
  {
    if |b| == 0 then ""
    else if |b| < 3 then EncodeTail(b)
    else
      var g := EncodeGroup(b[0], b[1], b[2]);
      var rest := Encode(b[3..]);
      assert (|b| + 2) / 3 == (|b| - 3 + 2) / 3 + 1;
      assert Padding(|b|) == Padding(|b| - 3);
      PrependGroup(g, rest, Padding(|b|));
      g + rest
  }

  /** A group without padding in front of a padded encoding keeps its padding. */
  lemma PrependGroup(g: string, rest: string, p: nat)
    requires |g| == 4 && forall i | 0 <= i < 4 :: g[i] != '='
    requires PaddedBy(rest, p) && p <= |rest|
    ensures PaddedBy(g + rest, p)
  {
    assert forall i | 4 <= i < |g + rest| :: (g + rest)[i] == rest[i - 4];
  }

  /** The bytes of one group of four characters, of which the last one or two may be '='. */
  function DecodeGroup(c0: char, c1: char, c2: char, c3: char): (r: seq<byte>)
    ensures 1 <= |r| <= 3
  {
    var b0 := Dec(c0) * 4 + Dec(c1) / 16;
    var b1 := (Dec(c1) % 16) * 16 + Dec(c2) / 4;
    var b2 := (Dec(c2) % 4) * 64 + Dec(c3);
    if c2 == '=' then [b0] else if c3 == '=' then [b0, b1] else [b0, b1, b2]
  }

  /** Convert.FromBase64String on well-formed input: group by group. */
  function Decode(s: string): (r: seq<byte>)
    decreases |s|
  {
    if |s| < 4 then []
    else DecodeGroup(s[0], s[1], s[2], s[3]) + Decode(s[4..])
  }

  /** Regrouping three bytes into four six-bit values and back gives the same bytes. */
  lemma Regroup(b0: byte, b1: byte, b2: byte)
    ensures var v1 := (b0 % 4) * 16 + b1 / 16; var v2 := (b1 % 16) * 4 + b2 / 64;
      && (b0 / 4) * 4 + v1 / 16 == b0
      && (v1 % 16) * 16 + v2 / 4 == b1
      && (v2 % 4) * 64 + b2 % 64 == b2
  {
    var v1 := (b0 % 4) * 16 + b1 / 16;
    var v2 := (b1 % 16) * 4 + b2 / 64;
    assert v1 / 16 == b0 % 4 && v1 % 16 == b1 / 16;
    assert v2 / 4 == b1 % 16 && v2 % 4 == b2 / 64;
  }

  lemma GroupRoundTrip(b0: byte, b1: byte, b2: byte)
    ensures var g := EncodeGroup(b0, b1, b2); DecodeGroup(g[0], g[1], g[2], g[3]) == [b0, b1, b2]
  {
    var v0, v1, v2, v3 := b0 / 4, (b0 % 4) * 16 + b1 / 16, (b1 % 16) * 4 + b2 / 64, b2 % 64;
    DecEnc(v0);
    DecEnc(v1);
    DecEnc(v2);
    DecEnc(v3);
    Regroup(b0, b1, b2);
    var g := EncodeGroup(b0, b1, b2);
    assert g == [Enc(v0), Enc(v1), Enc(v2), Enc(v3)];
    assert Dec(g[0]) == v0 && Dec(g[1]) == v1 && Dec(g[2]) == v2 && Dec(g[3]) == v3;
  }

  lemma TailRoundTrip(b: seq<byte>)
    requires 1 <= |b| <= 2
    ensures var t := EncodeTail(b); DecodeGroup(t[0], t[1], t[2], t[3]) == b
  {
    DecEnc(b[0] / 4);
    if |b| == 1 {
      DecEnc((b[0] % 4) * 16);
    } else {
      DecEnc((b[0] % 4) * 16 + b[1] / 16);
      DecEnc((b[1] % 16) * 4);
    }
  }

  lemma DecodeAppend(g: string, rest: string)
    requires |g| == 4
    ensures Decode(g + rest) == DecodeGroup(g[0], g[1], g[2], g[3]) + Decode(rest)
  {
    assert (g + rest)[4..] == rest;
  }

  /** Decoding the first group of an encoding gives back the first three bytes. */
  lemma StepRoundTrip(b: seq<byte>)
    requires |b| >= 3
    ensures Decode(Encode(b)) == [b[0], b[1], b[2]] + Decode(Encode(b[3..]))
  {
    var g := EncodeGroup(b[0], b[1], b[2]);
    var rest := Encode(b[3..]);
    assert Encode(b) == g + rest;
    DecodeAppend(g, rest);
    GroupRoundTrip(b[0], b[1], b[2]);
  }

  /** Decoding undoes encoding. */
  lemma {:induction false} RoundTrip(b: seq<byte>)
    ensures Decode(Encode(b)) == b
    decreases |b|
  {
    if 1 <= |b| < 3 {
      var t := EncodeTail(b);
      TailRoundTrip(b);
      assert Decode(t) == DecodeGroup(t[0], t[1], t[2], t[3]) + Decode(t[4..]);
    } else if |b| >= 3 {
      StepRoundTrip(b);
      RoundTrip(b[3..]);
      assert b == [b[0], b[1], b[2]] + b[3..];
    }
  }

  /** Different byte strings never share an encoding. */
  lemma Injective(a: seq<byte>, b: seq<byte>)
    ensures Encode(a) == Encode(b) <==> a == b
  {
    RoundTrip(a);
    RoundTrip(b);
  }
}
