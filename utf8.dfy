/** UTF-8 (RFC 3629), the encoding `Buffer.from(string)` writes and
    `buffer.toString('utf-8')` reads. The decoder here is strict: it rejects
    overlong forms, surrogate code points and values above U+10FFFF instead of
    substituting U+FFFD as Node does. */
module Utf8 {
  import opened Wrappers

  type byte = x: int | 0 <= x < 256

  predicate IsContinuation(b: byte)
  {
    0x80 <= b < 0xC0
  }

  /** The one to four bytes of one scalar value. */
  function EncodeChar(c: char): (bs: seq<byte>)
    ensures 1 <= |bs| <= 4
  {
    var cp := c as int;
    if cp < 0x80 then [cp]
    else if cp < 0x800 then [0xC0 + cp / 64, 0x80 + cp % 64]
    else if cp < 0x10000 then [0xE0 + cp / 4096, 0x80 + cp / 64 % 64, 0x80 + cp % 64]
    else [0xF0 + cp / 262144, 0x80 + cp / 4096 % 64, 0x80 + cp / 64 % 64, 0x80 + cp % 64]
  }

  function Encode(s: string): (bs: seq<byte>)
    ensures |bs| >= |s|
  {
    if s == [] then [] else EncodeChar(s[0]) + Encode(s[1..])
  }

  /** The scalar value at the front of bs and how many bytes it takes, or None
      when the front is not a well-formed UTF-8 sequence. */
  function DecodeOne(bs: seq<byte>): (r: Option<(char, nat)>)
    requires bs != []
    ensures r.Some? ==> 1 <= r.value.1 <= |bs|
  {
    var b0: int := bs[0];
    if b0 < 0x80 then
      Some((b0 as char, 1))
    else if 0xC2 <= b0 < 0xE0 && |bs| >= 2 && IsContinuation(bs[1]) then
      var cp := (b0 - 0xC0) * 64 + (bs[1] as int - 0x80);
      Some((cp as char, 2))
    else if 0xE0 <= b0 < 0xF0 && |bs| >= 3 && IsContinuation(bs[1]) && IsContinuation(bs[2]) then
      var cp := (b0 - 0xE0) * 4096 + (bs[1] as int - 0x80) * 64 + (bs[2] as int - 0x80);
      if cp < 0x800 || (0xD800 <= cp < 0xE000) then None else Some((cp as char, 3))
    else if 0xF0 <= b0 < 0xF5 && |bs| >= 4
      && IsContinuation(bs[1]) && IsContinuation(bs[2]) && IsContinuation(bs[3]) then
      var cp := (b0 - 0xF0) * 262144 + (bs[1] as int - 0x80) * 4096 + (bs[2] as int - 0x80) * 64 + (bs[3] as int - 0x80);
      if cp < 0x10000 || cp >= 0x110000 then None else Some((cp as char, 4))
    else
      None
  }

  /** `buffer.toString('utf-8')` on well-formed input; None otherwise. What it
      reads is the only string that encodes to those bytes. */
  function Decode(bs: seq<byte>): (r: Option<string>)
    ensures r.Some? ==> Encode(r.value) == bs && |r.value| <= |bs|
    decreases |bs|
  {
    if bs == [] then Some([])
    else match DecodeOne(bs)
      case None => None
      case Some((c, n)) =>
        match Decode(bs[n..])
        case None => None
        case Some(rest) =>
          EncodeFront(bs, c, n, rest);
          Some([c] + rest)
  }

  lemma TwoBytes(cp: int)
    requires 0x80 <= cp < 0x800
    ensures (cp / 64) * 64 + cp % 64 == cp
    ensures 0xC2 <= 0xC0 + cp / 64 < 0xE0
  {
  }

  lemma ThreeBytes(cp: int)
    requires 0x800 <= cp < 0x10000
    ensures (cp / 4096) * 4096 + (cp / 64 % 64) * 64 + cp % 64 == cp
    ensures 0xE0 <= 0xE0 + cp / 4096 < 0xF0
  {
  }

  lemma FourBytes(cp: int)
    requires 0x10000 <= cp < 0x110000
    ensures (cp / 262144) * 262144 + (cp / 4096 % 64) * 4096 + (cp / 64 % 64) * 64 + cp % 64 == cp
    ensures 0xF0 <= 0xF0 + cp / 262144 < 0xF5
  {
  }

  /** Reading back the bytes of one character gives that character. */
  lemma DecodeOneEncodeChar(c: char, rest: seq<byte>)
    ensures var bs := EncodeChar(c) + rest; DecodeOne(bs) == Some((c, |EncodeChar(c)|))
  {
    var cp := c as int;
    var bs := EncodeChar(c) + rest;
    if cp < 0x80 {
    } else if cp < 0x800 {
      TwoBytes(cp);
      var b0, b1 := 0xC0 + cp / 64, 0x80 + cp % 64;
      assert bs[0] == b0 && bs[1] == b1;
      assert (b0 - 0xC0) * 64 + (b1 - 0x80) == cp;
    } else if cp < 0x10000 {
      ThreeBytes(cp);
      var b0, b1, b2 := 0xE0 + cp / 4096, 0x80 + cp / 64 % 64, 0x80 + cp % 64;
      assert bs[0] == b0 && bs[1] == b1 && bs[2] == b2;
      assert (b0 - 0xE0) * 4096 + (b1 - 0x80) * 64 + (b2 - 0x80) == cp;
    } else {
      FourBytes(cp);
      var b0, b1, b2, b3 := 0xF0 + cp / 262144, 0x80 + cp / 4096 % 64, 0x80 + cp / 64 % 64, 0x80 + cp % 64;
      assert bs[0] == b0 && bs[1] == b1 && bs[2] == b2 && bs[3] == b3;
      assert (b0 - 0xF0) * 262144 + (b1 - 0x80) * 4096 + (b2 - 0x80) * 64 + (b3 - 0x80) == cp;
    }
  }

  /** Splitting a code point into its six-bit groups undoes putting them together. */
  lemma Groups2(q: int, r: int)
    requires 0 <= q && 0 <= r < 64
    ensures (q * 64 + r) / 64 == q && (q * 64 + r) % 64 == r
  {
  }

  lemma Groups3(q: int, m: int, r: int)
    requires 0 <= q && 0 <= m < 64 && 0 <= r < 64
    ensures (q * 4096 + m * 64 + r) / 4096 == q
    ensures (q * 4096 + m * 64 + r) / 64 % 64 == m
    ensures (q * 4096 + m * 64 + r) % 64 == r
  {
    Groups2(q * 64 + m, r);
    Groups2(q, m);
    assert q * 4096 + m * 64 + r == (q * 64 + m) * 64 + r;
    assert (q * 64 + m) * 64 + r == q * 4096 + (m * 64 + r);
  }

  lemma Groups4(q: int, m: int, n: int, r: int)
    requires 0 <= q && 0 <= m < 64 && 0 <= n < 64 && 0 <= r < 64
    ensures (q * 262144 + m * 4096 + n * 64 + r) / 262144 == q
    ensures (q * 262144 + m * 4096 + n * 64 + r) / 4096 % 64 == m
    ensures (q * 262144 + m * 4096 + n * 64 + r) / 64 % 64 == n
    ensures (q * 262144 + m * 4096 + n * 64 + r) % 64 == r
  {
    Groups3(q * 64 + m, n, r);
    Groups3(q, m, n);
    assert q * 262144 + m * 4096 + n * 64 + r == (q * 64 + m) * 4096 + n * 64 + r;
    assert q * 262144 + m * 4096 + n * 64 + r == (q * 4096 + m * 64 + n) * 64 + r;
    Groups2(q * 4096 + m * 64 + n, r);
  }

  /** Reading one character and writing it again gives back the bytes it was
      read from: the decoder accepts only the shortest form. */
  lemma EncodeCharDecodeOne(bs: seq<byte>)
    requires bs != [] && DecodeOne(bs).Some?
    ensures EncodeChar(DecodeOne(bs).value.0) == bs[..DecodeOne(bs).value.1]
  {
    var b0: int := bs[0];
    if b0 < 0x80 {
    } else if 0xC2 <= b0 < 0xE0 && |bs| >= 2 && IsContinuation(bs[1]) {
      Groups2(b0 - 0xC0, bs[1] as int - 0x80);
    } else if 0xE0 <= b0 < 0xF0 && |bs| >= 3 && IsContinuation(bs[1]) && IsContinuation(bs[2]) {
      Groups3(b0 - 0xE0, bs[1] as int - 0x80, bs[2] as int - 0x80);
    } else {
      Groups4(b0 - 0xF0, bs[1] as int - 0x80, bs[2] as int - 0x80, bs[3] as int - 0x80);
    }
  }

  /** The character read at the front and the string read after it encode to
      the bytes they were read from. */
  lemma EncodeFront(bs: seq<byte>, c: char, n: nat, rest: string)
    requires bs != [] && DecodeOne(bs) == Some((c, n)) && Encode(rest) == bs[n..]
    ensures Encode([c] + rest) == bs && |[c] + rest| <= |bs|
  {
    EncodeCharDecodeOne(bs);
    assert ([c] + rest)[0] == c && ([c] + rest)[1..] == rest;
    assert bs == bs[..n] + bs[n..];
  }

  /** Round trip: decoding the encoding of any string gives that string. */
  lemma {:induction false} DecodeEncode(s: string)
    ensures Decode(Encode(s)) == Some(s)
  {
    if s != [] {
      var head := EncodeChar(s[0]);
      var tail := Encode(s[1..]);
      DecodeOneEncodeChar(s[0], tail);
      DecodeEncode(s[1..]);
      assert (head + tail)[|head|..] == tail;
      assert [s[0]] + s[1..] == s;
    }
  }

  /** Characters below U+0080 are one byte each, equal to their code. */
  lemma {:induction false} EncodeAscii(s: string)
    requires forall i :: 0 <= i < |s| ==> s[i] < '\U{0080}'
    ensures |Encode(s)| == |s|
    ensures forall i :: 0 <= i < |s| ==> Encode(s)[i] == s[i] as int
  {
    if s != [] {
      EncodeAscii(s[1..]);
    }
  }
}
