/**
 * Strict UTF-8, as Python's bytes.decode('utf-8') and bytes(s, 'utf-8') apply it:
 * no overlong forms, no surrogates, nothing above U+10FFFF.
 */
module Utf8 {
  import opened Util

  newtype byte = x: int | 0 <= x < 256

  predicate IsCont(b: byte)
  {
    0x80 <= b <= 0xBF
  }

  /** UTF-8 bytes of one scalar value. */
  function EncodeChar(c: char): (bs: seq<byte>)
    ensures 1 <= |bs| <= 4
    ensures (c as int < 0x80) <==> (|bs| == 1)
  {
    var cp := c as int;
    if cp < 0x80 then [cp as byte]
    else if cp < 0x800 then [(0xC0 + cp / 64) as byte, (0x80 + cp % 64) as byte]
    else if cp < 0x10000 then
      [(0xE0 + cp / 4096) as byte, (0x80 + (cp / 64) % 64) as byte, (0x80 + cp % 64) as byte]
    else
      [(0xF0 + cp / 262144) as byte, (0x80 + (cp / 4096) % 64) as byte,
       (0x80 + (cp / 64) % 64) as byte, (0x80 + cp % 64) as byte]
  }

  function Encode(s: string): (bs: seq<byte>)
    ensures |s| <= |bs| <= 4 * |s|
    decreases |s|
  {
    if s == [] then [] else EncodeChar(s[0]) + Encode(s[1..])
  }

  /** The first character of b and how many bytes it takes, or None when b does not start well-formed. */
  function DecodeFirst(b: seq<byte>): (r: Option<(char, nat)>)
    requires |b| > 0
    ensures r.Some? ==> 1 <= r.value.1 <= |b|
  {
    var b0 := b[0] as int;
    if b0 < 0x80 then Some((b0 as char, 1))
    else if 0xC2 <= b0 <= 0xDF then
      if |b| >= 2 && IsCont(b[1]) then
        Some((((b0 - 0xC0) * 64 + (b[1] as int - 0x80)) as char, 2))
      else None
    else if 0xE0 <= b0 <= 0xEF then
      var lo := if b0 == 0xE0 then 0xA0 else 0x80;
      var hi := if b0 == 0xED then 0x9F else 0xBF;
      if |b| >= 3 && lo <= b[1] as int <= hi && IsCont(b[2]) then
        Some((((b0 - 0xE0) * 4096 + (b[1] as int - 0x80) * 64 + (b[2] as int - 0x80)) as char, 3))
      else None
    else if 0xF0 <= b0 <= 0xF4 then
      var lo := if b0 == 0xF0 then 0x90 else 0x80;
      var hi := if b0 == 0xF4 then 0x8F else 0xBF;
      if |b| >= 4 && lo <= b[1] as int <= hi && IsCont(b[2]) && IsCont(b[3]) then
        Some((((b0 - 0xF0) * 262144 + (b[1] as int - 0x80) * 4096
              + (b[2] as int - 0x80) * 64 + (b[3] as int - 0x80)) as char, 4))
      else None
    else None
  }

  /** bytes.decode('utf-8'): None stands for UnicodeDecodeError. */
  function Decode(b: seq<byte>): (r: Option<string>)
    ensures r.Some? ==> |r.value| <= |b|
    decreases |b|
  {
    if b == [] then Some([])
    else
      match DecodeFirst(b)
      case None => None
      case Some((c, n)) =>
        match Decode(b[n..])
        case None => None
        case Some(rest) => Some([c] + rest)
  }

  /** Splitting off six bits: quotient and remainder are unique. */
  lemma {:induction false} Split64(q: int, d: int)
    requires 0 <= d < 64
    ensures (q * 64 + d) / 64 == q && (q * 64 + d) % 64 == d
  {
  }

  lemma {:induction false} Split4096(q: int, d: int)
    requires 0 <= d < 4096
    ensures (q * 4096 + d) / 4096 == q && (q * 4096 + d) % 4096 == d
  {
  }

  lemma {:induction false} Split262144(q: int, d: int)
    requires 0 <= d < 262144
    ensures (q * 262144 + d) / 262144 == q && (q * 262144 + d) % 262144 == d
  {
  }

  lemma {:induction false} DecodeFirstTwo(c: char, rest: seq<byte>)
    requires 0x80 <= c as int < 0x800
    ensures DecodeFirst(EncodeChar(c) + rest) == Some((c, 2))
  {
    var cp := c as int;
    var a, d := cp / 64, cp % 64;
    assert cp == a * 64 + d && 2 <= a < 32;
    var b := EncodeChar(c) + rest;
    assert b[0] as int == 0xC0 + a && b[1] as int == 0x80 + d;
  }

  lemma {:induction false} DecodeFirstThree(c: char, rest: seq<byte>)
    requires 0x800 <= c as int < 0x10000
    ensures DecodeFirst(EncodeChar(c) + rest) == Some((c, 3))
  {
    var cp := c as int;
    var q, m := cp / 4096, cp % 4096;
    var a, d := m / 64, m % 64;
    assert cp == (q * 64 + a) * 64 + d;
    Split64(q * 64 + a, d);
    Split64(q, a);
    var b := EncodeChar(c) + rest;
    assert b[0] as int == 0xE0 + q && b[1] as int == 0x80 + a && b[2] as int == 0x80 + d;
    assert q == 0 ==> a >= 0x20;
    assert q == 13 ==> a < 0x20;
  }

  lemma {:induction false} DecodeFirstFour(c: char, rest: seq<byte>)
    requires 0x10000 <= c as int
    ensures DecodeFirst(EncodeChar(c) + rest) == Some((c, 4))
  {
    var cp := c as int;
    var q, m := cp / 262144, cp % 262144;
    var x, m2 := m / 4096, m % 4096;
    var a, d := m2 / 64, m2 % 64;
    assert cp == (q * 64 + x) * 4096 + m2 && m2 == a * 64 + d;
    assert cp == ((q * 64 + x) * 64 + a) * 64 + d;
    Split4096(q * 64 + x, m2);
    Split64(q, x);
    Split64((q * 64 + x) * 64 + a, d);
    Split64(q * 64 + x, a);
    var b := EncodeChar(c) + rest;
    assert b[0] as int == 0xF0 + q && b[1] as int == 0x80 + x;
    assert b[2] as int == 0x80 + a && b[3] as int == 0x80 + d;
    assert q == 0 ==> x >= 0x10;
    assert q == 4 ==> x < 0x10;
  }

  lemma {:induction false} DecodeFirstOfEncodeChar(c: char, rest: seq<byte>)
    ensures DecodeFirst(EncodeChar(c) + rest) == Some((c, |EncodeChar(c)|))
  {
    var cp := c as int;
    if cp < 0x80 {
    } else if cp < 0x800 {
      DecodeFirstTwo(c, rest);
    } else if cp < 0x10000 {
      DecodeFirstThree(c, rest);
    } else {
      DecodeFirstFour(c, rest);
    }
  }

  /** Decoding undoes encoding: what the host sends is what a UTF-8 reader gets back. */
  lemma {:induction false} DecodeEncode(s: string)
    ensures Decode(Encode(s)) == Some(s)
  {
    if s != [] {
      var e := EncodeChar(s[0]);
      DecodeFirstOfEncodeChar(s[0], Encode(s[1..]));
      assert (e + Encode(s[1..]))[|e|..] == Encode(s[1..]);
      DecodeEncode(s[1..]);
      assert [s[0]] + s[1..] == s;
    }
  }

  /** A two-byte sequence the decoder accepts is the encoding of the character it yields. */
  lemma {:induction false} TwoBytesEncode(b: seq<byte>)
    requires |b| >= 2 && 0xC2 <= b[0] <= 0xDF && IsCont(b[1])
    ensures DecodeFirst(b).Some? && EncodeChar(DecodeFirst(b).value.0) == b[..2]
  {
    var a, d := b[0] as int - 0xC0, b[1] as int - 0x80;
    var cp := a * 64 + d;
    Split64(a, d);
    assert DecodeFirst(b).value.0 as int == cp && 0x80 <= cp < 0x800;
  }

  /** A three-byte sequence the decoder accepts (no overlong form, no surrogate) is the encoding of its character. */
  lemma {:induction false} ThreeBytesEncode(b: seq<byte>)
    requires |b| >= 3 && 0xE0 <= b[0] <= 0xEF && IsCont(b[2])
    requires (if b[0] == 0xE0 then 0xA0 else 0x80) <= b[1] <= (if b[0] == 0xED then 0x9F else 0xBF)
    ensures DecodeFirst(b).Some? && EncodeChar(DecodeFirst(b).value.0) == b[..3]
  {
    var q, a, d := b[0] as int - 0xE0, b[1] as int - 0x80, b[2] as int - 0x80;
    var m := a * 64 + d;
    var cp := q * 4096 + m;
    Split64(a, d);
    Split4096(q, m);
    assert cp / 64 == q * 64 + a;
    Split64(q, a);
    assert DecodeFirst(b).value.0 as int == cp && 0x800 <= cp < 0x10000;
  }

  /** A four-byte sequence the decoder accepts (no overlong form, nothing above U+10FFFF) is the encoding of its character. */
  lemma {:induction false} FourBytesEncode(b: seq<byte>)
    requires |b| >= 4 && 0xF0 <= b[0] <= 0xF4 && IsCont(b[2]) && IsCont(b[3])
    requires (if b[0] == 0xF0 then 0x90 else 0x80) <= b[1] <= (if b[0] == 0xF4 then 0x8F else 0xBF)
    ensures DecodeFirst(b).Some? && EncodeChar(DecodeFirst(b).value.0) == b[..4]
  {
    var q, x, a, d := b[0] as int - 0xF0, b[1] as int - 0x80, b[2] as int - 0x80, b[3] as int - 0x80;
    var m2 := a * 64 + d;
    var m := x * 4096 + m2;
    var cp := q * 262144 + m;
    Split64(a, d);
    Split4096(x, m2);
    Split262144(q, m);
    assert cp / 4096 == q * 64 + x;
    Split64(q, x);
    assert cp / 64 == (q * 64 + x) * 64 + a;
    Split64(q * 64 + x, a);
    assert DecodeFirst(b).value.0 as int == cp && 0x10000 <= cp;
  }

  /** The decoder is strict: whatever first character it accepts, the bytes it consumed are that character's encoding. */
  lemma {:induction false} DecodeFirstEncodes(b: seq<byte>)
    requires |b| > 0 && DecodeFirst(b).Some?
    ensures EncodeChar(DecodeFirst(b).value.0) == b[..DecodeFirst(b).value.1]
  {
    var b0 := b[0] as int;
    if b0 < 0x80 {
    } else if b0 <= 0xDF {
      TwoBytesEncode(b);
    } else if b0 <= 0xEF {
      ThreeBytesEncode(b);
    } else {
      FourBytesEncode(b);
    }
  }

  /** Whatever the decoder accepts is exactly the encoding of what it returns: no overlong form, surrogate or out-of-range value gets through. */
  lemma {:induction false} EncodeDecode(b: seq<byte>)
    requires Decode(b).Some?
    ensures Encode(Decode(b).value) == b
    decreases |b|
  {
    if b != [] {
      var (c, n) := DecodeFirst(b).value;
      DecodeFirstEncodes(b);
      EncodeDecode(b[n..]);
      assert Decode(b).value == [c] + Decode(b[n..]).value;
      EncodeCons(b, c, n, Decode(b[n..]).value);
    }
  }

  /** Encoding a character followed by a text whose encodings are consecutive parts of b gives b. */
  lemma {:induction false} EncodeCons(b: seq<byte>, c: char, n: nat, rest: string)
    requires n <= |b| && EncodeChar(c) == b[..n] && Encode(rest) == b[n..]
    ensures Encode([c] + rest) == b
  {
    assert ([c] + rest)[0] == c && ([c] + rest)[1..] == rest;
    assert b[..n] + b[n..] == b;
  }

  predicate IsAscii(s: string)
  {
    forall i | 0 <= i < |s| :: s[i] as int < 0x80
  }

  /** ASCII text encodes byte for byte. */
  lemma {:induction false} EncodeAscii(s: string)
    requires IsAscii(s)
    ensures |Encode(s)| == |s|
    ensures forall i | 0 <= i < |s| :: Encode(s)[i] as int == s[i] as int
  {
    if s != [] {
      assert IsAscii(s[1..]);
      EncodeAscii(s[1..]);
    }
  }

  /** A byte that is neither ASCII nor a valid lead byte makes the whole chunk undecodable. */
  lemma {:induction false} StrayByteFails(pre: string, b: byte, post: seq<byte>)
    requires b as int >= 0x80 && (b as int < 0xC2 || b as int > 0xF4)
    ensures Decode(Encode(pre) + [b] + post) == None
  {
    if pre == [] {
      assert Encode(pre) + [b] + post == [b] + post;
    } else {
      var e := EncodeChar(pre[0]);
      var tail := Encode(pre[1..]) + [b] + post;
      assert Encode(pre) + [b] + post == e + tail;
      DecodeFirstOfEncodeChar(pre[0], tail);
      assert (e + tail)[|e|..] == tail;
      StrayByteFails(pre[1..], b, post);
    }
  }
}
