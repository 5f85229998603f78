/**
 * The two codecs the data-source password goes through: UTF-8 (str.encode /
 * bytes.decode, strict) and base64 with the standard alphabet and `=`
 * padding (section 4 of RFC 4648), as base64.b64encode writes it.
 */
module Codecs {
  import opened Wrappers

  type Byte = b: int | 0 <= b < 256

  // ---------------------------------------------------------------- UTF-8

  predicate IsContinuation(b: Byte) { 0x80 <= b < 0xC0 }

  /** The UTF-8 bytes of one scalar value. */
  function EncodeChar(c: char): (bs: seq<Byte>)
    ensures 1 <= |bs| <= 4
    ensures (|bs| == 1) <==> (c as int < 0x80)
  {
    var n := c as int;
    if n < 0x80 then [n]
    else if n < 0x800 then [0xC0 + n / 64, 0x80 + n % 64]
    else if n < 0x10000 then [0xE0 + n / 4096, 0x80 + (n / 64) % 64, 0x80 + n % 64]
    else [0xF0 + n / 262144, 0x80 + (n / 4096) % 64, 0x80 + (n / 64) % 64, 0x80 + n % 64]
  }

  /** str.encode(): the UTF-8 bytes of the text. */
  function EncodeUtf8(s: string): (bs: seq<Byte>)
    ensures |bs| >= |s|
    ensures s != [] ==> bs != []
  {
    if s == [] then [] else EncodeChar(s[0]) + EncodeUtf8(s[1..])
  }

  function ScalarOf(n: int): Option<char> {
    if 0 <= n < 0xD800 || 0xE000 <= n < 0x110000 then Some(n as char) else None
  }

  /**
   * The first scalar value of a byte string and how many bytes it took; None
   * for a malformed, overlong, surrogate or out-of-range sequence, which a
   * strict decoder refuses.
   */
  function DecodeFirst(bs: seq<Byte>): (r: Option<(char, nat)>)
    requires bs != []
    ensures r.Some? ==> 1 <= r.value.1 <= |bs|
  {
    var b0: int := bs[0];
    if b0 < 0x80 then Some((b0 as char, 1))
    else if 0xC0 <= b0 < 0xE0 && |bs| >= 2 && IsContinuation(bs[1]) then
      var n := (b0 - 0xC0) * 64 + (bs[1] as int - 0x80);
      if n < 0x80 then None else Some((n as char, 2))
    else if 0xE0 <= b0 < 0xF0 && |bs| >= 3 && IsContinuation(bs[1]) && IsContinuation(bs[2]) then
      var n := (b0 - 0xE0) * 4096 + (bs[1] as int - 0x80) * 64 + (bs[2] as int - 0x80);
      if n < 0x800 || ScalarOf(n).None? then None else Some((ScalarOf(n).value, 3))
    else if 0xF0 <= b0 < 0xF8 && |bs| >= 4 && IsContinuation(bs[1]) && IsContinuation(bs[2]) && IsContinuation(bs[3]) then
      var n := (b0 - 0xF0) * 262144 + (bs[1] as int - 0x80) * 4096 + (bs[2] as int - 0x80) * 64 + (bs[3] as int - 0x80);
      if n < 0x10000 || ScalarOf(n).None? then None else Some((ScalarOf(n).value, 4))
    else None
  }

  /** bytes.decode(): the text, or None where the strict decoder raises. */
  function DecodeUtf8(bs: seq<Byte>): Option<string>
    decreases |bs|
  {
    if bs == [] then Some([])
    else match DecodeFirst(bs)
      case None => None
      case Some((c, k)) =>
        match DecodeUtf8(bs[k..])
        case None => None
        case Some(rest) => Some([c] + rest)
  }

  lemma TwoBytes(n: int)
    requires 0x80 <= n < 0x800
    ensures (n / 64) * 64 + n % 64 == n && 0 <= n / 64 < 32
  {
  }

  lemma ThreeBytes(n: int)
    requires 0x800 <= n < 0x10000
    ensures (n / 4096) * 4096 + ((n / 64) % 64) * 64 + n % 64 == n && 0 <= n / 4096 < 16
  {
    var q := n / 64;
    assert n == q * 64 + n % 64;
    assert q == (q / 64) * 64 + q % 64;
    assert q / 64 == n / 4096;
  }

  lemma FourBytes(n: int)
    requires 0x10000 <= n < 0x110000
    ensures (n / 262144) * 262144 + ((n / 4096) % 64) * 4096 + ((n / 64) % 64) * 64 + n % 64 == n
    ensures 0 <= n / 262144 < 5
  {
    var q := n / 64;
    var p := q / 64;
    assert n == q * 64 + n % 64;
    assert q == p * 64 + q % 64;
    assert p == (p / 64) * 64 + p % 64;
    assert p == n / 4096;
    assert p / 64 == n / 262144;
  }

  /** Decoding the encoding of a character reads that character back and consumes exactly its bytes. */
  lemma DecodeFirstEncodeChar(c: char, rest: seq<Byte>)
    ensures DecodeFirst(EncodeChar(c) + rest) == Some((c, |EncodeChar(c)|))
  {
    var n := c as int;
    var bs := EncodeChar(c) + rest;
    if n < 0x80 {
    } else if n < 0x800 {
      TwoBytes(n);
    } else if n < 0x10000 {
      ThreeBytes(n);
      assert ScalarOf(n) == Some(c);
    } else {
      FourBytes(n);
      assert ScalarOf(n) == Some(c);
    }
  }

  /** UTF-8 round trip: decoding what str.encode() wrote gives the text back. */
  lemma {:induction false} Utf8RoundTrip(s: string)
    ensures DecodeUtf8(EncodeUtf8(s)) == Some(s)
  {
    if s != [] {
      var bs := EncodeUtf8(s);
      var head := EncodeChar(s[0]);
      var tail := EncodeUtf8(s[1..]);
      assert bs == head + tail;
      DecodeFirstEncodeChar(s[0], tail);
      assert bs[|head|..] == tail;
      Utf8RoundTrip(s[1..]);
      assert DecodeUtf8(bs) == Some([s[0]] + s[1..]);
      assert [s[0]] + s[1..] == s;
    }
  }

  // ---------------------------------------------------------------- base64

  /** The character of a sextet in the standard alphabet: A-Z, a-z, 0-9, `+`, `/`. */
  function SextetChar(v: nat): (c: char)
    requires v < 64
  {
    if v < 26 then ('A' as int + v) as char
    else if v < 52 then ('a' as int + (v - 26)) as char
    else if v < 62 then ('0' as int + (v - 52)) as char
    else if v == 62 then '+'
    else '/'
  }

  /** The sextet of an alphabet character; None for anything else, `=` included. */
  function SextetOf(c: char): (r: Option<nat>)
    ensures r.Some? ==> r.value < 64
  {
    if 'A' <= c <= 'Z' then Some(c as int - 'A' as int)
    else if 'a' <= c <= 'z' then Some(c as int - 'a' as int + 26)
    else if '0' <= c <= '9' then Some(c as int - '0' as int + 52)
    else if c == '+' then Some(62)
    else if c == '/' then Some(63)
    else None
  }

  predicate InAlphabet(c: char) { SextetOf(c).Some? }

  lemma SextetRoundTrip(v: nat)
    requires v < 64
    ensures SextetOf(SextetChar(v)) == Some(v)
  {
  }

  /** The four characters of three bytes. */
  function EncodeTriple(b0: Byte, b1: Byte, b2: Byte): (q: string)
    ensures |q| == 4 && forall i :: 0 <= i < 4 ==> InAlphabet(q[i])
  {
    SextetRoundTrip(b0 / 4);
    SextetRoundTrip((b0 % 4) * 16 + b1 / 16);
    SextetRoundTrip((b1 % 16) * 4 + b2 / 64);
    SextetRoundTrip(b2 % 64);
    [SextetChar(b0 / 4), SextetChar((b0 % 4) * 16 + b1 / 16), SextetChar((b1 % 16) * 4 + b2 / 64), SextetChar(b2 % 64)]
  }

  /** The padded group of the last one or two bytes: the missing bits are zero. */
  function EncodeTail(bs: seq<Byte>): (q: string)
    requires 1 <= |bs| <= 2
    ensures |q| == 4 && forall i :: 0 <= i < 4 ==> InAlphabet(q[i]) || q[i] == '='
  {
    var t := EncodeTriple(bs[0], if |bs| == 2 then bs[1] else 0, 0);
    if |bs| == 1 then t[..2] + "==" else t[..3] + "="
  }

  /** b64encode: every three bytes become four characters; a final one or two bytes are padded with `=`. */
  function EncodeBase64(bs: seq<Byte>): (s: string)
    ensures |s| == 4 * ((|bs| + 2) / 3)
    ensures forall i :: 0 <= i < |s| ==> InAlphabet(s[i]) || s[i] == '='
  {
    if |bs| == 0 then ""
    else if |bs| <= 2 then EncodeTail(bs)
    else EncodeTriple(bs[0], bs[1], bs[2]) + EncodeBase64(bs[3..])
  }

  /** The three bytes of four sextets. */
  function Octets(a: nat, b: nat, c: nat, d: nat): (r: seq<Byte>)
    requires a < 64 && b < 64 && c < 64 && d < 64
    ensures |r| == 3
  {
    [a * 4 + b / 16, (b % 16) * 16 + c / 4, (c % 4) * 64 + d]
  }

  /** One group of four characters: three bytes, or fewer when the group ends in padding. */
  function DecodeQuad(q: string): (r: Option<seq<Byte>>)
    requires |q| == 4
    ensures r.Some? ==> 1 <= |r.value| <= 3
  {
    match (SextetOf(q[0]), SextetOf(q[1]), SextetOf(q[2]), SextetOf(q[3]))
    case (Some(a), Some(b), Some(c), Some(d)) => Some(Octets(a, b, c, d))
    case (Some(a), Some(b), Some(c), None) =>
      if q[3] == '=' then Some(Octets(a, b, c, 0)[..2]) else None
    case (Some(a), Some(b), None, None) =>
      if q[2] == '=' && q[3] == '=' then Some(Octets(a, b, 0, 0)[..1]) else None
    case _ => None
  }

  /**
   * b64decode of well-formed text: groups of four characters, padding only
   * in the last group; None for anything else.
   */
  function DecodeBase64(s: string): Option<seq<Byte>>
    decreases |s|
  {
    if s == [] then Some([])
    else if |s| < 4 then None
    else match DecodeQuad(s[..4])
      case None => None
      case Some(first) =>
        if |first| < 3 && |s| > 4 then None
        else match DecodeBase64(s[4..])
          case None => None
          case Some(rest) => Some(first + rest)
  }

  /** The sextets of three bytes give the bytes back. */
  lemma OctetsOfTriple(b0: Byte, b1: Byte, b2: Byte)
    ensures Octets(b0 / 4, (b0 % 4) * 16 + b1 / 16, (b1 % 16) * 4 + b2 / 64, b2 % 64) == [b0, b1, b2]
  {
    var b := (b0 % 4) * 16 + b1 / 16;
    var c := (b1 % 16) * 4 + b2 / 64;
    assert b / 16 == b0 % 4 && b % 16 == b1 / 16;
    assert c / 4 == b1 % 16 && c % 4 == b2 / 64;
  }

  lemma QuadRoundTrip(b0: Byte, b1: Byte, b2: Byte)
    ensures DecodeQuad(EncodeTriple(b0, b1, b2)) == Some([b0, b1, b2])
  {
    var q := EncodeTriple(b0, b1, b2);
    assert SextetOf(q[0]) == Some(b0 / 4) && SextetOf(q[1]) == Some((b0 % 4) * 16 + b1 / 16);
    assert SextetOf(q[2]) == Some((b1 % 16) * 4 + b2 / 64) && SextetOf(q[3]) == Some(b2 % 64);
    OctetsOfTriple(b0, b1, b2);
  }

  lemma TailRoundTrip(bs: seq<Byte>)
    requires 1 <= |bs| <= 2
    ensures DecodeQuad(EncodeTail(bs)) == Some(bs)
  {
    var b1: Byte := if |bs| == 2 then bs[1] else 0;
    var t := EncodeTriple(bs[0], b1, 0);
    var q := EncodeTail(bs);
    assert SextetOf(t[0]) == Some(bs[0] / 4) && SextetOf(t[1]) == Some((bs[0] % 4) * 16 + b1 / 16);
    assert SextetOf(t[2]) == Some((b1 % 16) * 4);
    OctetsOfTriple(bs[0], b1, 0);
    assert q[0] == t[0] && q[1] == t[1];
    if |bs| == 1 {
      assert q[2] == '=' && q[3] == '=';
      assert (b1 % 16) * 4 == 0;
      assert [bs[0], b1, 0][..1] == bs;
    } else {
      assert q[2] == t[2] && q[3] == '=';
      assert [bs[0], b1, 0][..2] == bs;
    }
  }

  lemma ShortRoundTrip(bs: seq<Byte>)
    requires 1 <= |bs| <= 2
    ensures DecodeBase64(EncodeBase64(bs)) == Some(bs)
  {
    var s := EncodeBase64(bs);
    TailRoundTrip(bs);
    assert s[..4] == s && s[4..] == [];
    assert DecodeBase64(s[4..]) == Some([]);
    assert bs + [] == bs;
  }

  /** A full group in front of more text decodes to its three bytes followed by the rest's bytes. */
  lemma DecodeFullGroup(q: string, rest: string)
    requires |q| == 4 && DecodeQuad(q).Some? && |DecodeQuad(q).value| == 3
    ensures DecodeBase64(q + rest) ==
      match DecodeBase64(rest)
      case None => None
      case Some(r) => Some(DecodeQuad(q).value + r)
  {
    var s := q + rest;
    assert s[..4] == q && s[4..] == rest;
  }

  /** Base64 round trip: decoding what b64encode wrote gives the bytes back. */
  lemma {:induction false} Base64RoundTrip(bs: seq<Byte>)
    ensures DecodeBase64(EncodeBase64(bs)) == Some(bs)
  {
    if 1 <= |bs| <= 2 {
      ShortRoundTrip(bs);
    } else if |bs| >= 3 {
      var q := EncodeTriple(bs[0], bs[1], bs[2]);
      var rest := EncodeBase64(bs[3..]);
      assert EncodeBase64(bs) == q + rest;
      QuadRoundTrip(bs[0], bs[1], bs[2]);
      DecodeFullGroup(q, rest);
      Base64RoundTrip(bs[3..]);
      assert [bs[0], bs[1], bs[2]] + bs[3..] == bs;
    }
  }
}
