/**
 * Base64 as PHP's `base64_encode` produces it: the alphabet of section 4 of
 * RFC 4648 ("A"-"Z", "a"-"z", "0"-"9", "+", "/") with "=" padding to a
 * multiple of four characters. The credential store keys its entries by this
 * encoding of the credential ID, so what matters is that the encoding is
 * injective; the decoder below is there to prove it.
 */
module Base64 {
  import opened Wrappers
  import opened Php

  /** The character for a 6-bit value. */
  function CharOf(i: int): (c: char)
    requires 0 <= i < 64
  {
    if i < 26 then (65 + i) as char             // 'A'..'Z'
    else if i < 52 then (97 + i - 26) as char   // 'a'..'z'
    else if i < 62 then (48 + i - 52) as char   // '0'..'9'
    else if i == 62 then '+'
    else '/'
  }

  /** The 6-bit value of an alphabet character; None for "=" and everything outside the alphabet. */
  function IndexOf(c: char): (r: Option<int>)
    ensures r.Some? ==> 0 <= r.value < 64 && CharOf(r.value) == c
  {
    if 'A' <= c <= 'Z' then Some(c as int - 65)
    else if 'a' <= c <= 'z' then Some(c as int - 97 + 26)
    else if '0' <= c <= '9' then Some(c as int - 48 + 52)
    else if c == '+' then Some(62)
    else if c == '/' then Some(63)
    else None
  }

  lemma IndexOfCharOf(i: int)
    requires 0 <= i < 64
    ensures IndexOf(CharOf(i)) == Some(i)
  {
  }

  /** Three bytes become four characters. */
  function EncodeGroup(b0: byte, b1: byte, b2: byte): string {
    [CharOf(b0 / 4), CharOf((b0 % 4) * 16 + b1 / 16), CharOf((b1 % 16) * 4 + b2 / 64), CharOf(b2 % 64)]
  }

  /** A final single byte: two characters and "==". */
  function EncodeLastOne(b0: byte): string {
    [CharOf(b0 / 4), CharOf((b0 % 4) * 16), '=', '=']
  }

  /** A final pair of bytes: three characters and "=". */
  function EncodeLastTwo(b0: byte, b1: byte): string {
    [CharOf(b0 / 4), CharOf((b0 % 4) * 16 + b1 / 16), CharOf((b1 % 16) * 4), '=']
  }

  /** `base64_encode($bytes)`. */
  function Encode(b: seq<byte>): (r: string)
    ensures |r| == 4 * ((|b| + 2) / 3)
    decreases |b|
  {
    if |b| == 0 then []
    else if |b| == 1 then EncodeLastOne(b[0])
    else if |b| == 2 then EncodeLastTwo(b[0], b[1])
    else EncodeGroup(b[0], b[1], b[2]) + Encode(b[3..])
  }

  /** Four characters without padding back to three bytes. */
  function DecodeGroup(q: string): Option<seq<byte>>
    requires |q| == 4
  {
    match (IndexOf(q[0]), IndexOf(q[1]), IndexOf(q[2]), IndexOf(q[3]))
    case (Some(s0), Some(s1), Some(s2), Some(s3)) =>
      Some([s0 * 4 + s1 / 16, (s1 % 16) * 16 + s2 / 4, (s2 % 4) * 64 + s3])
    case _ => None
  }

  /** The last four characters, which may end in "=" or "==". */
  function DecodeLast(q: string): Option<seq<byte>>
    requires |q| == 4
  {
    if q[2] == '=' && q[3] == '=' then
      match (IndexOf(q[0]), IndexOf(q[1]))
      case (Some(s0), Some(s1)) => Some([s0 * 4 + s1 / 16])
      case _ => None
    else if q[3] == '=' then
      match (IndexOf(q[0]), IndexOf(q[1]), IndexOf(q[2]))
      case (Some(s0), Some(s1), Some(s2)) => Some([s0 * 4 + s1 / 16, (s1 % 16) * 16 + s2 / 4])
      case _ => None
    else DecodeGroup(q)
  }

  /** `base64_decode($s, true)` restricted to padded input. */
  function Decode(s: string): Option<seq<byte>>
    decreases |s|
  {
    if |s| == 0 then Some([])
    else if |s| < 4 then None
    else if |s| == 4 then DecodeLast(s)
    else
      match (DecodeGroup(s[..4]), Decode(s[4..]))
      case (Some(g), Some(rest)) => Some(g + rest)
      case _ => None
  }

  lemma DecodeEncodeGroup(b0: byte, b1: byte, b2: byte)
    ensures DecodeGroup(EncodeGroup(b0, b1, b2)) == Some([b0, b1, b2])
    ensures DecodeLast(EncodeGroup(b0, b1, b2)) == Some([b0, b1, b2])
  {
    var s0, s1, s2, s3 := b0 / 4, (b0 % 4) * 16 + b1 / 16, (b1 % 16) * 4 + b2 / 64, b2 % 64;
    assert s1 / 16 == b0 % 4 && s1 % 16 == b1 / 16;
    assert s2 / 4 == b1 % 16 && s2 % 4 == b2 / 64;
    var q := EncodeGroup(b0, b1, b2);
    assert q == [CharOf(s0), CharOf(s1), CharOf(s2), CharOf(s3)];
    IndexOfCharOf(s0);
    IndexOfCharOf(s1);
    IndexOfCharOf(s2);
    IndexOfCharOf(s3);
    assert q[2] != '=' && q[3] != '=';
  }

  lemma DecodeEncodeLastOne(b0: byte)
    ensures DecodeLast(EncodeLastOne(b0)) == Some([b0])
  {
    var s0, s1 := b0 / 4, (b0 % 4) * 16;
    IndexOfCharOf(s0);
    IndexOfCharOf(s1);
    assert s1 / 16 == b0 % 4;
  }

  lemma DecodeEncodeLastTwo(b0: byte, b1: byte)
    ensures DecodeLast(EncodeLastTwo(b0, b1)) == Some([b0, b1])
  {
    var s0, s1, s2 := b0 / 4, (b0 % 4) * 16 + b1 / 16, (b1 % 16) * 4;
    IndexOfCharOf(s0);
    IndexOfCharOf(s1);
    IndexOfCharOf(s2);
    assert s1 / 16 == b0 % 4 && s1 % 16 == b1 / 16;
    assert s2 / 4 == b1 % 16;
  }

  /** A full group followed by a decodable rest decodes to the group's bytes, then the rest's. */
  lemma DecodeAfterGroup(g: string, rest: string, x: seq<byte>, y: seq<byte>)
    requires |g| == 4 && |rest| > 0
    requires DecodeGroup(g) == Some(x) && Decode(rest) == Some(y)
    ensures Decode(g + rest) == Some(x + y)
  {
    var s := g + rest;
    assert s[..4] == g && s[4..] == rest;
  }

  /** Decoding undoes encoding. */
  lemma {:induction false} DecodeEncode(b: seq<byte>)
    ensures Decode(Encode(b)) == Some(b)
    decreases |b|
  {
    if |b| == 0 {
    } else if |b| == 1 {
      DecodeEncodeLastOne(b[0]);
      assert b == [b[0]];
    } else if |b| == 2 {
      DecodeEncodeLastTwo(b[0], b[1]);
      assert b == [b[0], b[1]];
    } else {
      var rest := b[3..];
      var g := EncodeGroup(b[0], b[1], b[2]);
      assert Encode(b) == g + Encode(rest);
      assert b == [b[0], b[1], b[2]] + rest;
      DecodeEncodeGroup(b[0], b[1], b[2]);
      if |rest| == 0 {
        assert Encode(b) == g;
        assert Decode(g) == DecodeLast(g);
        assert b == [b[0], b[1], b[2]];
      } else {
        DecodeEncode(rest);
        DecodeAfterGroup(g, Encode(rest), [b[0], b[1], b[2]], rest);
      }
    }
  }

  /** Distinct byte strings have distinct encodings: the store's keys never collide. */
  lemma EncodeInjective(a: seq<byte>, b: seq<byte>)
    requires Encode(a) == Encode(b)
    ensures a == b
  {
    DecodeEncode(a);
    DecodeEncode(b);
  }
}
