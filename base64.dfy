/** Base64 with the standard alphabet and '=' padding (section 4 of RFC 4648),
    as `buffer.toString('base64')` writes it. The decoder accepts exactly the
    padded form with the standard alphabet: it rejects whitespace, the URL-safe
    alphabet and missing padding, which Node's `Buffer.from(s, 'base64')`
    tolerates. */
module Base64 {
  import opened Wrappers
  import opened Utf8

  /** Sextet value to character: A-Z, a-z, 0-9, '+', '/'. */
  function Char(v: nat): (c: char)
    requires v < 64
    ensures c != '=' && Value(c) == Some(v)
  {
    if v < 26 then ('A' as int + v) as char
    else if v < 52 then ('a' as int + (v - 26)) as char
    else if v < 62 then ('0' as int + (v - 52)) as char
    else if v == 62 then '+'
    else '/'
  }

  /** Character to sextet value; None outside the alphabet (including '='). */
  function Value(c: char): (r: Option<nat>)
    ensures r.Some? ==> r.value < 64
  {
    if 'A' <= c <= 'Z' then Some(c as int - 'A' as int)
    else if 'a' <= c <= 'z' then Some(c as int - 'a' as int + 26)
    else if '0' <= c <= '9' then Some(c as int - '0' as int + 52)
    else if c == '+' then Some(62)
    else if c == '/' then Some(63)
    else None
  }

  /** A character an encoder can write: one of the alphabet, or padding. */
  predicate IsEncodedChar(c: char)
  {
    c == '=' || Value(c).Some?
  }

  /** The four characters of a full group of three bytes. */
  function Quad3(b0: byte, b1: byte, b2: byte): (q: string)
    ensures |q| == 4
  {
    [Char(b0 / 4), Char(b0 % 4 * 16 + b1 / 16), Char(b1 % 16 * 4 + b2 / 64), Char(b2 % 64)]
  }

  /** A final group of two bytes, padded with one '='. */
  function Quad2(b0: byte, b1: byte): (q: string)
    ensures |q| == 4
  {
    [Char(b0 / 4), Char(b0 % 4 * 16 + b1 / 16), Char(b1 % 16 * 4), '=']
  }

  /** A final group of one byte, padded with "==". */
  function Quad1(b0: byte): (q: string)
    ensures |q| == 4
  {
    [Char(b0 / 4), Char(b0 % 4 * 16), '=', '=']
  }

  /** Each group of three bytes becomes four characters; a final group of one or
      two bytes is padded with "==" or "=". */
  function Encode(bs: seq<byte>): (s: string)
    ensures |s| >= |bs|
    ensures |s| % 4 == 0
    ensures forall i :: 0 <= i < |s| ==> IsEncodedChar(s[i])
    decreases |bs|
  {
    if |bs| == 0 then ""
    else if |bs| == 1 then Quad1(bs[0])
    else if |bs| == 2 then Quad2(bs[0], bs[1])
    else Quad3(bs[0], bs[1], bs[2]) + Encode(bs[3..])
  }

  function Byte0(v0: nat, v1: nat): byte
    requires v0 < 64 && v1 < 64
  {
    v0 * 4 + v1 / 16
  }

  function Byte1(v1: nat, v2: nat): byte
    requires v1 < 64 && v2 < 64
  {
    v1 % 16 * 16 + v2 / 4
  }

  function Byte2(v2: nat, v3: nat): byte
    requires v2 < 64 && v3 < 64
  {
    v2 % 4 * 64 + v3
  }

  /** The bytes of one four-character group, or None when a character is
      outside the alphabet or padding appears where it may not; `last` says
      whether the group ends the input, the only place padding may appear. */
  function DecodeGroup(q: string, last: bool): (r: Option<seq<byte>>)
    requires |q| == 4
    ensures r.Some? ==> 1 <= |r.value| <= 3
    ensures r.Some? && !last ==> |r.value| == 3
    ensures r.Some? ==> forall i :: 0 <= i < 4 ==> IsEncodedChar(q[i])
  {
    var v0, v1, v2, v3 := Value(q[0]), Value(q[1]), Value(q[2]), Value(q[3]);
    if v0.None? || v1.None? then None
    else if last && q[2] == '=' && q[3] == '=' then
      Some([Byte0(v0.value, v1.value)])
    else if v2.None? then None
    else if last && q[3] == '=' then
      Some([Byte0(v0.value, v1.value), Byte1(v1.value, v2.value)])
    else if v3.None? then None
    else
      Some([Byte0(v0.value, v1.value), Byte1(v1.value, v2.value), Byte2(v2.value, v3.value)])
  }

  /** `Buffer.from(s, 'base64')` on padded input in the standard alphabet; None
      otherwise. Accepted input is whole groups of four characters of the
      alphabet or padding, and each group gives three bytes except the last,
      which gives one to three. */
  function Decode(s: string): (r: Option<seq<byte>>)
    ensures r.Some? ==> |s| % 4 == 0 && 3 * (|s| / 4) - 2 <= |r.value| <= 3 * (|s| / 4)
    ensures r.Some? ==> forall i :: 0 <= i < |s| ==> IsEncodedChar(s[i])
    decreases |s|
  {
    if s == [] then Some([])
    else if |s| < 4 then None
    else match DecodeGroup(s[..4], |s| == 4)
      case None => None
      case Some(head) =>
        match Decode(s[4..])
        case None => None
        case Some(tail) =>
          assert forall i :: 4 <= i < |s| ==> s[i] == s[4..][i - 4];
          Some(head + tail)
  }

  lemma Sextets(b0: byte, b1: byte, b2: byte)
    ensures Byte0(b0 / 4, b0 % 4 * 16 + b1 / 16) == b0
    ensures Byte1(b0 % 4 * 16 + b1 / 16, b1 % 16 * 4 + b2 / 64) == b1
    ensures Byte2(b1 % 16 * 4 + b2 / 64, b2 % 64) == b2
    ensures Byte0(b0 / 4, b0 % 4 * 16) == b0
    ensures Byte1(b0 % 4 * 16 + b1 / 16, b1 % 16 * 4) == b1
  {
  }

  lemma DecodeQuad3(b0: byte, b1: byte, b2: byte, last: bool)
    ensures DecodeGroup(Quad3(b0, b1, b2), last) == Some([b0, b1, b2])
  {
    Sextets(b0, b1, b2);
    var q := Quad3(b0, b1, b2);
    assert Value(q[0]) == Some(b0 / 4) && Value(q[1]) == Some(b0 % 4 * 16 + b1 / 16);
    assert Value(q[2]) == Some(b1 % 16 * 4 + b2 / 64) && Value(q[3]) == Some(b2 % 64);
    assert q[3] != '=';
  }

  lemma DecodeQuad2(b0: byte, b1: byte)
    ensures DecodeGroup(Quad2(b0, b1), true) == Some([b0, b1])
  {
    Sextets(b0, b1, 0);
  }

  lemma DecodeQuad1(b0: byte)
    ensures DecodeGroup(Quad1(b0), true) == Some([b0])
  {
    Sextets(b0, 0, 0);
  }

  /** Decoding a group followed by more input. */
  lemma DecodeStep(q: string, tail: string, head: seq<byte>, rest: seq<byte>)
    requires |q| == 4
    requires DecodeGroup(q, tail == []) == Some(head)
    requires Decode(tail) == Some(rest)
    ensures Decode(q + tail) == Some(head + rest)
  {
    var s := q + tail;
    assert s[..4] == q && s[4..] == tail;
  }

  lemma DecodeLastGroup(q: string, head: seq<byte>)
    requires |q| == 4 && DecodeGroup(q, true) == Some(head)
    ensures Decode(q) == Some(head)
  {
    assert q[..4] == q && q[4..] == [];
    assert Decode(q[4..]) == Some([]);
    assert head + [] == head;
  }

  lemma DecodeQuad1Alone(b0: byte)
    ensures Decode(Quad1(b0)) == Some([b0])
  {
    DecodeQuad1(b0);
    DecodeLastGroup(Quad1(b0), [b0]);
  }

  lemma DecodeQuad2Alone(b0: byte, b1: byte)
    ensures Decode(Quad2(b0, b1)) == Some([b0, b1])
  {
    DecodeQuad2(b0, b1);
    DecodeLastGroup(Quad2(b0, b1), [b0, b1]);
  }

  lemma DecodeFront(b0: byte, b1: byte, b2: byte, tail: string, rest: seq<byte>)
    requires Decode(tail) == Some(rest)
    ensures Decode(Quad3(b0, b1, b2) + tail) == Some([b0, b1, b2] + rest)
  {
    DecodeQuad3(b0, b1, b2, tail == []);
    DecodeStep(Quad3(b0, b1, b2), tail, [b0, b1, b2], rest);
  }

  lemma EncodeFront(bs: seq<byte>)
    requires |bs| >= 1
    ensures |bs| == 1 ==> Encode(bs) == Quad1(bs[0])
    ensures |bs| == 2 ==> Encode(bs) == Quad2(bs[0], bs[1])
    ensures |bs| >= 3 ==> Encode(bs) == Quad3(bs[0], bs[1], bs[2]) + Encode(bs[3..])
  {
  }

  lemma Reassemble(bs: seq<byte>)
    requires |bs| >= 1
    ensures |bs| == 1 ==> bs == [bs[0]]
    ensures |bs| == 2 ==> bs == [bs[0], bs[1]]
    ensures |bs| >= 3 ==> bs == [bs[0], bs[1], bs[2]] + bs[3..]
  {
  }

  /** Round trip: the decoder inverts the encoder on every byte sequence. */
  lemma {:induction false} DecodeEncode(bs: seq<byte>)
    ensures Decode(Encode(bs)) == Some(bs)
    decreases |bs|
  {
    if bs != [] {
      EncodeFront(bs);
      Reassemble(bs);
      if |bs| == 1 {
        DecodeQuad1Alone(bs[0]);
      } else if |bs| == 2 {
        DecodeQuad2Alone(bs[0], bs[1]);
      } else {
        DecodeEncode(bs[3..]);
        DecodeFront(bs[0], bs[1], bs[2], Encode(bs[3..]), bs[3..]);
      }
    }
  }
}
