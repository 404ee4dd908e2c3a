/** License keys for the two licensed products (app/lib/licenseGenerator.ts).
    A key is `<FAMILY>-p1-p2-p3-p4`: three random segments of four base-36
    characters and a fourth segment that is the zero-padded base-36 numeral of
    the sum of the twelve character codes of p1, p2 and p3. The two generators and
    the two validators of the source differ only in the family prefix, so each
    pair is one member here, parameterised by the family. */
module License {
  import opened Text
  import Arith

  const Base36Chars: string := "0123456789ABCDEFGHIJKLMNOPQRSTUVWXYZ"

  datatype Family = VocalFelt | TapeBloom

  function Prefix(f: Family): (p: string)
    ensures |p| == 9 && '-' !in p
  {
    match f
    case VocalFelt => "VOCALFELT"
    case TapeBloom => "TAPEBLOOM"
  }

  /** The character test of the validators: `[0-9A-Z]`. */
  predicate IsBase36Char(c: char)
  {
    ('0' <= c <= '9') || ('A' <= c <= 'Z')
  }

  predicate IsSegment(s: string)
  {
    |s| == 4 && forall i :: 0 <= i < 4 ==> IsBase36Char(s[i])
  }

  /** What `randomSegment` returns: four characters drawn from BASE36_CHARS.
      Randomness is not modelled; callers pass the segments in. */
  type Segment = s: string | IsSegment(s) witness "0000"

  /** The three `randomSegment()` results one key generation draws. */
  datatype Draw = Draw(p1: Segment, p2: Segment, p3: Segment)

  // ---------------------------------------------------------------- base 36

  function Pow36(n: nat): (p: nat)
    ensures p >= 1
  {
    if n == 0 then 1 else 36 * Pow36(n - 1)
  }

  function DigitValue36(c: char): (d: nat)
    requires IsBase36Char(c)
    ensures d < 36
  {
    if c <= '9' then c as int - '0' as int else c as int - 'A' as int + 10
  }

  /** BASE36_CHARS[d], as a character computation: '0'..'9' then 'A'..'Z'. */
  function Base36Digit(d: nat): (c: char)
    requires d < 36
    ensures IsBase36Char(c) && DigitValue36(c) == d
  {
    if d < 10 then ('0' as int + d) as char else ('A' as int + d - 10) as char
  }

  /** Base36Digit is the lookup in BASE36_CHARS. */
  lemma Base36DigitInTable(d: nat)
    requires d < 36
    ensures Base36Chars[d] == Base36Digit(d)
  {
  }

  /** `n` base-36 digits of v, most significant first: the characters that
      encodeBase36 prepends, digit i being (v / 36^i) % 36. */
  function Base36(v: nat, n: nat): (s: string)
    ensures |s| == n
  {
    if n == 0 then [] else [Base36Digit(v / Pow36(n - 1) % 36)] + Base36(v, n - 1)
  }

  /** The value of a base-36 numeral, most significant digit first. */
  function Base36Value(s: string): nat
    requires forall i :: 0 <= i < |s| ==> IsBase36Char(s[i])
  {
    if s == [] then 0 else DigitValue36(s[0]) * Pow36(|s| - 1) + Base36Value(s[1..])
  }

  /** encodeBase36 writes exactly n characters, each from BASE36_CHARS. */
  lemma {:induction false} Base36Chars36(v: nat, n: nat)
    ensures forall i :: 0 <= i < n ==> IsBase36Char(Base36(v, n)[i])
  {
    if n > 0 {
      Base36Chars36(v, n - 1);
      assert forall i :: 1 <= i < n ==> Base36(v, n)[i] == Base36(v, n - 1)[i - 1];
    }
  }

  /** Reading a numeral back: its first digit weighs 36^(length of the rest). */
  lemma Base36ValueCons(c: char, t: string)
    requires IsBase36Char(c) && forall i :: 0 <= i < |t| ==> IsBase36Char(t[i])
    ensures Base36Value([c] + t) == DigitValue36(c) * Pow36(|t|) + Base36Value(t)
  {
    assert ([c] + t)[1..] == t;
  }

  /** encodeBase36(v, n) is the numeral of v mod 36^n: reading it back gives that. */
  lemma {:induction false} Base36RoundTrip(v: nat, n: nat)
    ensures forall i :: 0 <= i < n ==> IsBase36Char(Base36(v, n)[i])
    ensures Base36Value(Base36(v, n)) == v % Pow36(n)
  {
    if n > 0 {
      var p := Pow36(n - 1);
      var d := v / p % 36;
      var tail := Base36(v, n - 1);
      Base36RoundTrip(v, n - 1);
      PrependDigit(v, p, d, Base36Digit(d), tail);
      assert Base36(v, n) == [Base36Digit(d)] + tail;
      assert p * 36 == Pow36(n);
    }
    Base36Chars36(v, n);
  }

  /** The step of Base36RoundTrip, on the digit and the rest as plain values. */
  lemma PrependDigit(v: nat, p: nat, d: nat, c: char, tail: string)
    requires p > 0 && p == Pow36(|tail|) && d == v / p % 36
    requires IsBase36Char(c) && DigitValue36(c) == d
    requires forall i :: 0 <= i < |tail| ==> IsBase36Char(tail[i])
    requires Base36Value(tail) == v % p
    ensures Base36Value([c] + tail) == v % (p * 36)
  {
    Base36ValueCons(c, tail);
    Arith.MixedRadix(v, p, 36);
  }

  /** encodeBase36 as the source writes it: a loop that prepends the digit of the
      remaining value and divides it by 36. */
  method EncodeBase36(value: nat, length: nat) returns (result: string)
    ensures result == Base36(value, length)
  {
    result := "";
    var remaining := value;
    for i := 0 to length
      invariant result == Base36(value, i)
      invariant remaining == value / Pow36(i)
    {
      Base36DigitInTable(remaining % 36);
      result := [Base36Chars[remaining % 36]] + result;
      Arith.MixedRadix(value, Pow36(i), 36);
      remaining := remaining / 36;
    }
  }

  // ---------------------------------------------------------------- checksum

  /** The sum of the character codes of s (charCodeAt). */
  function CodeSum(s: string): nat
  {
    if s == [] then 0 else CodeSum(s[..|s| - 1]) + s[|s| - 1] as int
  }

  /** calculateChecksum: encodeBase36 of the sum of the twelve codes, 4 digits. */
  function Checksum(p1: string, p2: string, p3: string): string
  {
    Base36(CodeSum(p1) + CodeSum(p2) + CodeSum(p3), 4)
  }

  /** calculateChecksum as the source writes it: one loop over the four positions
      adding the three codes at each. The callers always pass four-character parts. */
  method CalculateChecksum(part1: string, part2: string, part3: string) returns (r: string)
    requires |part1| == 4 && |part2| == 4 && |part3| == 4
    ensures r == Checksum(part1, part2, part3)
    ensures IsSegment(r)
  {
    var checksum := 0;
    for i := 0 to 4
      invariant checksum == CodeSum(part1[..i]) + CodeSum(part2[..i]) + CodeSum(part3[..i])
    {
      assert part1[..i + 1][..i] == part1[..i];
      assert part2[..i + 1][..i] == part2[..i];
      assert part3[..i + 1][..i] == part3[..i];
      checksum := checksum + part1[i] as int;
      checksum := checksum + part2[i] as int;
      checksum := checksum + part3[i] as int;
    }
    assert part1[..4] == part1 && part2[..4] == part2 && part3[..4] == part3;
    r := EncodeBase36(checksum, 4);
    Base36Chars36(checksum, 4);
  }

  lemma {:induction false} CodeSumBound(s: string)
    requires forall i :: 0 <= i < |s| ==> IsBase36Char(s[i])
    ensures 48 * |s| <= CodeSum(s) <= 90 * |s|
  {
    if s != [] {
      CodeSumBound(s[..|s| - 1]);
    }
  }

  lemma SegmentCodeSum(p: Segment)
    ensures 192 <= CodeSum(p) <= 360
  {
    CodeSumBound(p);
  }

  /** The checksum is itself a four-character base-36 segment. */
  lemma ChecksumIsSegment(p1: string, p2: string, p3: string)
    ensures IsSegment(Checksum(p1, p2, p3))
  {
    Base36Chars36(CodeSum(p1) + CodeSum(p2) + CodeSum(p3), 4);
  }

  lemma FourDigitRoundTrip(v: nat)
    requires v < 1679616
    ensures forall i :: 0 <= i < 4 ==> IsBase36Char(Base36(v, 4)[i])
    ensures Base36Value(Base36(v, 4)) == v
  {
    Pow36Four();
    Base36RoundTrip(v, 4);
  }

  lemma Pow36Four()
    ensures Pow36(4) == 1679616 && Pow36(3) == 46656 && Pow36(2) == 1296
  {
    assert Pow36(1) == 36;
    assert Pow36(2) == 1296;
    assert Pow36(3) == 46656;
  }

  /** For base-36 segments the sum lies in [576, 1080], below 36^4, so the
      checksum never wraps: reading it back gives the sum itself. */
  lemma ChecksumNoWrap(p1: Segment, p2: Segment, p3: Segment)
    ensures IsSegment(Checksum(p1, p2, p3))
    ensures var sum := CodeSum(p1) + CodeSum(p2) + CodeSum(p3);
      576 <= sum <= 1080 && Base36Value(Checksum(p1, p2, p3)) == sum
  {
    var sum := SegmentsCodeSum(p1, p2, p3);
    FourDigitRoundTrip(sum);
  }

  lemma SegmentsCodeSum(p1: Segment, p2: Segment, p3: Segment) returns (sum: nat)
    ensures sum == CodeSum(p1) + CodeSum(p2) + CodeSum(p3)
    ensures 576 <= sum <= 1080
  {
    SegmentCodeSum(p1);
    SegmentCodeSum(p2);
    SegmentCodeSum(p3);
    sum := CodeSum(p1) + CodeSum(p2) + CodeSum(p3);
  }

  /** Since the sum is also below 36^2, the first two checksum characters are
      always '0': only two of the four characters carry information. */
  lemma ChecksumLeadingZeros(p1: Segment, p2: Segment, p3: Segment)
    ensures Checksum(p1, p2, p3)[..2] == "00"
  {
    SegmentCodeSum(p1);
    SegmentCodeSum(p2);
    SegmentCodeSum(p3);
    var sum := CodeSum(p1) + CodeSum(p2) + CodeSum(p3);
    assert sum < 1296;
    assert Pow36(3) == 46656 && Pow36(2) == 1296;
    var cs := Base36(sum, 4);
    assert cs == [Base36Digit(sum / 46656 % 36)] + Base36(sum, 3);
    assert Base36(sum, 3) == [Base36Digit(sum / 1296 % 36)] + Base36(sum, 2);
    assert sum / 46656 == 0 && sum / 1296 == 0;
  }

  // ---------------------------------------------------------------- keys

  /** generateVocalFeltLicense / generateTapeBloomLicense with their three
      random segments passed in. */
  function Generate(f: Family, p1: Segment, p2: Segment, p3: Segment): (key: string)
    ensures Split(key, '-') == [Prefix(f), p1, p2, p3, Checksum(p1, p2, p3)]
    ensures |key| == 29
    ensures IsValid(f, key)
  {
    var key := Prefix(f) + "-" + p1 + "-" + p2 + "-" + p3 + "-" + Checksum(p1, p2, p3);
    KeyParts(f, p1, p2, p3, key);
    Base36Chars36(CodeSum(p1) + CodeSum(p2) + CodeSum(p3), 4);
    key
  }

  /** The validators' decision: at least 29 characters, five dash-separated
      parts, the family tag first, four value parts of exactly four `[0-9A-Z]`
      characters, and the last equal (after toUpperCase) to the checksum of the
      middle three. */
  predicate IsValid(f: Family, key: string)
  {
    |key| >= 29 &&
    var parts := Split(key, '-');
    |parts| == 5 && parts[0] == Prefix(f)
    && IsSegment(parts[1]) && IsSegment(parts[2]) && IsSegment(parts[3]) && IsSegment(parts[4])
    && UpperAscii(parts[4]) == UpperAscii(Checksum(parts[1], parts[2], parts[3]))
  }

  /** validateVocalFeltLicense / validateTapeBloomLicense as the source writes them:
      the early returns and the two nested loops over the value parts. */
  method ValidateLicense(f: Family, key: string) returns (ok: bool)
    ensures ok == IsValid(f, key)
  {
    if |key| < 29 {
      return false;
    }
    var parts := Split(key, '-');
    if |parts| != 5 {
      return false;
    }
    if parts[0] != Prefix(f) {
      return false;
    }
    for i := 1 to 5
      invariant forall k :: 1 <= k < i ==> IsSegment(parts[k])
    {
      if |parts[i]| != 4 {
        return false;
      }
      for j := 0 to 4
        invariant forall m :: 0 <= m < j ==> IsBase36Char(parts[i][m])
      {
        var c := parts[i][j];
        var valid := ('0' <= c <= '9') || ('A' <= c <= 'Z');
        if !valid {
          return false;
        }
      }
    }
    var expected := CalculateChecksum(parts[1], parts[2], parts[3]);
    return UpperAscii(parts[4]) == UpperAscii(expected);
  }

  lemma {:induction false} UpperAsciiSegment(s: string)
    requires forall i :: 0 <= i < |s| ==> IsBase36Char(s[i])
    ensures UpperAscii(s) == s
  {
    if s != [] {
      UpperAsciiSegment(s[1..]);
      assert s == [s[0]] + s[1..];
    }
  }

  lemma SegmentHasNoDash(s: string)
    requires IsSegment(s)
    ensures '-' !in s
  {
  }

  lemma JoinFive(a: string, b: string, c: string, d: string, e: string)
    ensures Join([a, b, c, d, e], '-') == a + "-" + b + "-" + c + "-" + d + "-" + e
  {
    var parts := [a, b, c, d, e];
    assert Join(parts[4..], '-') == e;
    assert Join(parts[3..], '-') == d + "-" + e;
    assert Join(parts[2..], '-') == c + "-" + d + "-" + e;
    assert Join(parts[1..], '-') == b + "-" + c + "-" + d + "-" + e;
  }

  /** The five parts of a key put together as the generators do. */
  lemma KeyParts(f: Family, p1: Segment, p2: Segment, p3: Segment, key: string)
    requires key == Prefix(f) + "-" + p1 + "-" + p2 + "-" + p3 + "-" + Checksum(p1, p2, p3)
    ensures Split(key, '-') == [Prefix(f), p1, p2, p3, Checksum(p1, p2, p3)]
    ensures |key| == 29
  {
    var cs := Checksum(p1, p2, p3);
    ChecksumIsSegment(p1, p2, p3);
    var parts := [Prefix(f), p1, p2, p3, cs];
    SegmentHasNoDash(p1);
    SegmentHasNoDash(p2);
    SegmentHasNoDash(p3);
    SegmentHasNoDash(cs);
    assert forall i :: 0 <= i < |parts| ==> '-' !in parts[i] by {
      assert parts[0] == Prefix(f) && parts[1] == p1 && parts[2] == p2 && parts[3] == p3 && parts[4] == cs;
    }
    JoinFive(Prefix(f), p1, p2, p3, cs);
    SplitJoin(parts, '-');
  }

  /** And every valid key is a generated one: the key is rebuilt from its parts. */
  lemma ValidIsGenerated(f: Family, key: string)
    requires IsValid(f, key)
    ensures var parts := Split(key, '-');
      IsSegment(parts[1]) && IsSegment(parts[2]) && IsSegment(parts[3])
      && key == Generate(f, parts[1], parts[2], parts[3])
  {
    var parts := Split(key, '-');
    var p1: Segment, p2: Segment, p3: Segment := parts[1], parts[2], parts[3];
    Base36Chars36(CodeSum(p1) + CodeSum(p2) + CodeSum(p3), 4);
    UpperAsciiSegment(parts[4]);
    UpperAsciiSegment(Checksum(p1, p2, p3));
    assert parts[4] == Checksum(p1, p2, p3);
    JoinSplit(key, '-');
    assert parts == [parts[0], p1, p2, p3, parts[4]];
    JoinFive(parts[0], p1, p2, p3, parts[4]);
  }

  /** A valid key is exactly 29 characters long, so a longer one is rejected too. */
  lemma ValidKeyLength(f: Family, key: string)
    requires IsValid(f, key)
    ensures |key| == 29
  {
    ValidIsGenerated(f, key);
  }

  /** Keys do not cross families. */
  lemma FamiliesDisjoint(key: string)
    ensures !(IsValid(VocalFelt, key) && IsValid(TapeBloom, key))
  {
  }

  /** The last part of a valid key is its final four characters, with no dash. */
  lemma ValidKeyTail(f: Family, key: string)
    requires IsValid(f, key)
    ensures |key| == 29 && '-' !in key[25..]
  {
    ValidKeyLength(f, key);
    ValidIsGenerated(f, key);
    var parts := Split(key, '-');
    var cs := Checksum(parts[1], parts[2], parts[3]);
    ChecksumIsSegment(parts[1], parts[2], parts[3]);
    SegmentHasNoDash(cs);
    assert key[25..] == cs;
  }

  lemma ValidRejectsDashInChecksum(f: Family, key: string, p4: string)
    requires '-' in p4 && |p4| == 4
    requires exists head :: key == head + "-" + p4
    ensures !IsValid(f, key)
  {
    var head :| key == head + "-" + p4;
    assert key[|key| - 4..] == p4;
    if IsValid(f, key) {
      ValidKeyTail(f, key);
      assert false;
    }
  }

  /** Changing the checksum part to any other four characters breaks validation. */
  lemma TamperedChecksumRejected(f: Family, p1: Segment, p2: Segment, p3: Segment, p4: string)
    requires |p4| == 4 && p4 != Checksum(p1, p2, p3)
    ensures !IsValid(f, Prefix(f) + "-" + p1 + "-" + p2 + "-" + p3 + "-" + p4)
  {
    var key := Prefix(f) + "-" + p1 + "-" + p2 + "-" + p3 + "-" + p4;
    var cs := Checksum(p1, p2, p3);
    if '-' !in p4 {
      SegmentHasNoDash(p1);
      SegmentHasNoDash(p2);
      SegmentHasNoDash(p3);
      JoinFive(Prefix(f), p1, p2, p3, p4);
      SplitJoin([Prefix(f), p1, p2, p3, p4], '-');
      assert Split(key, '-')[4] == p4;
      ChecksumIsSegment(p1, p2, p3);
      UpperAsciiSegment(cs);
      if IsSegment(p4) {
        UpperAsciiSegment(p4);
      }
    } else {
      ValidRejectsDashInChecksum(f, key, p4);
    }
  }

  /** A value part with a lower-case letter is rejected: the character test runs
      before the case-insensitive checksum comparison is reached. */
  lemma LowercaseRejected(f: Family, key: string, i: nat, j: nat)
    requires 1 <= i < 5 && |Split(key, '-')| == 5
    requires j < |Split(key, '-')[i]| && 'a' <= Split(key, '-')[i][j] <= 'z'
    ensures !IsValid(f, key)
  {
  }
}
