/** The string operations of JavaScript that the storefront relies on:
    `split` on one character, `join`, decimal `toString` of an id, `parseInt`,
    `includes`, SQL `LIKE '%…%'`, ASCII case mapping, and the email pattern
    `/^[^\s@]+@[^\s@]+\.[^\s@]+$/`. Strings are sequences of Unicode scalar values. */
module Text {
  import opened Wrappers

  // ---------------------------------------------------------------- split / join

  /** `s.split(d)`: the maximal runs between separators, in order. */
  function Split(s: string, d: char): (parts: seq<string>)
    ensures |parts| >= 1
    ensures forall i :: 0 <= i < |parts| ==> d !in parts[i]
  {
    if s == [] then [[]]
    else
      var rest := Split(s[1..], d);
      if s[0] == d then [[]] + rest
      else [[s[0]] + rest[0]] + rest[1..]
  }

  /** `parts.join(d)`. */
  function Join(parts: seq<string>, d: char): string
  {
    if |parts| == 0 then []
    else if |parts| == 1 then parts[0]
    else parts[0] + [d] + Join(parts[1..], d)
  }

  /** A string without the separator splits into itself alone. */
  lemma {:induction false} SplitNoSeparator(s: string, d: char)
    requires d !in s
    ensures Split(s, d) == [s]
  {
    if s != [] {
      assert d !in s[1..] by {
        assert forall c :: c in s[1..] ==> c in s;
      }
      SplitNoSeparator(s[1..], d);
      assert [s[0]] + s[1..] == s;
    }
  }

  /** Splitting at the first separator: the part before it comes first. */
  lemma {:induction false} SplitAtFirst(a: string, d: char, b: string)
    requires d !in a
    ensures Split(a + [d] + b, d) == [a] + Split(b, d)
  {
    if a == [] {
      assert a + [d] + b == [d] + b;
      assert ([d] + b)[1..] == b;
    } else {
      var s := a + [d] + b;
      assert s[0] == a[0];
      assert s[1..] == a[1..] + [d] + b;
      SplitAtFirst(a[1..], d, b);
      assert [a[0]] + a[1..] == a;
    }
  }

  /** split undoes join when no part contains the separator (and there is a part). */
  lemma {:induction false} SplitJoin(parts: seq<string>, d: char)
    requires |parts| >= 1
    requires forall i :: 0 <= i < |parts| ==> d !in parts[i]
    ensures Split(Join(parts, d), d) == parts
  {
    if |parts| == 1 {
      SplitNoSeparator(parts[0], d);
    } else {
      SplitJoin(parts[1..], d);
      SplitAtFirst(parts[0], d, Join(parts[1..], d));
      assert [parts[0]] + parts[1..] == parts;
    }
  }

  /** join undoes split: splitting loses nothing. */
  lemma {:induction false} JoinSplit(s: string, d: char)
    ensures Join(Split(s, d), d) == s
  {
    if s != [] {
      JoinSplit(s[1..], d);
      var rest := Split(s[1..], d);
      if s[0] == d {
        assert Split(s, d)[1..] == rest;
      } else {
        var parts := Split(s, d);
        assert parts[0] == [s[0]] + rest[0];
        if |rest| == 1 {
          assert parts == [[s[0]] + rest[0]];
        } else {
          assert parts[1..] == rest[1..];
          assert Join(rest, d) == rest[0] + [d] + Join(rest[1..], d);
        }
      }
    }
  }

  // ---------------------------------------------------------------- substrings

  predicate IsPrefix(p: string, s: string)
  {
    |p| <= |s| && s[..|p|] == p
  }

  /** `s.includes(p)`, and SQL `s LIKE '%p%'` for a pattern without wildcards. */
  predicate Contains(s: string, p: string)
    decreases |s|
  {
    IsPrefix(p, s) || (|s| > 0 && Contains(s[1..], p))
  }

  /** The pattern occurs in a concatenation when it occurs in the right-hand part. */
  lemma {:induction false} ContainsRight(a: string, b: string, p: string)
    requires Contains(b, p)
    ensures Contains(a + b, p)
  {
    if a != [] {
      assert (a + b)[1..] == a[1..] + b;
      ContainsRight(a[1..], b, p);
    } else {
      assert a + b == b;
    }
  }

  /** The pattern occurs in a concatenation when it occurs in the left-hand part. */
  lemma {:induction false} ContainsLeft(a: string, b: string, p: string)
    requires Contains(a, p)
    ensures Contains(a + b, p)
  {
    if IsPrefix(p, a) {
      assert (a + b)[..|p|] == a[..|p|];
    } else {
      assert (a + b)[1..] == a[1..] + b;
      ContainsLeft(a[1..], b, p);
    }
  }

  /** A one-character pattern occurs exactly when the character does. */
  lemma {:induction false} ContainsChar(s: string, c: char)
    ensures Contains(s, [c]) <==> c in s
  {
    if s != [] {
      ContainsChar(s[1..], c);
      assert s == [s[0]] + s[1..];
    }
  }

  // ---------------------------------------------------------------- decimal numerals

  predicate IsDigit(c: char)
  {
    '0' <= c <= '9'
  }

  function DigitChar(n: nat): (c: char)
    requires n < 10
    ensures IsDigit(c)
  {
    ('0' as int + n) as char
  }

  function DigitValue(c: char): (n: nat)
    requires IsDigit(c)
    ensures n < 10
  {
    c as int - '0' as int
  }

  predicate AllDigits(s: string)
  {
    forall i :: 0 <= i < |s| ==> IsDigit(s[i])
  }

  /** The value of a decimal numeral, most significant digit first. */
  function DigitsValue(s: string): nat
    requires AllDigits(s)
  {
    if s == [] then 0 else DigitsValue(s[..|s| - 1]) * 10 + DigitValue(s[|s| - 1])
  }

  /** `n.toString()` for a non-negative integer: no sign, no leading zeros. */
  function NatToString(n: nat): (s: string)
    ensures |s| >= 1 && AllDigits(s)
    ensures s[0] == '0' ==> n == 0
  {
    if n < 10 then [DigitChar(n)] else NatToString(n / 10) + [DigitChar(n % 10)]
  }

  /** Reading back the numeral gives the number. */
  lemma {:induction false} NatToStringValue(n: nat)
    ensures DigitsValue(NatToString(n)) == n
  {
    if n >= 10 {
      NatToStringValue(n / 10);
      var s := NatToString(n);
      assert s[..|s| - 1] == NatToString(n / 10);
    }
  }

  /** Distinct numbers have distinct numerals. */
  lemma NatToStringInjective(m: nat, n: nat)
    requires NatToString(m) == NatToString(n)
    ensures m == n
  {
    NatToStringValue(m);
    NatToStringValue(n);
  }

  /** JavaScript's white space and line terminators: the class `\s` of a regular
      expression, and what `parseInt` skips at the start. */
  predicate IsJsSpace(c: char)
  {
    c == '\t' || c == '\n' || c == '\U{000B}' || c == '\U{000C}' || c == '\r' || c == ' '
    || c == '\U{00A0}' || c == '\U{1680}' || ('\U{2000}' <= c <= '\U{200A}')
    || c == '\U{2028}' || c == '\U{2029}' || c == '\U{202F}' || c == '\U{205F}'
    || c == '\U{3000}' || c == '\U{FEFF}'
  }

  function TrimStart(s: string): (t: string)
    ensures |t| <= |s| && t == s[|s| - |t|..]
    ensures t == [] || !IsJsSpace(t[0])
  {
    if s != [] && IsJsSpace(s[0]) then TrimStart(s[1..]) else s
  }

  /** The longest run of decimal digits at the start of s. */
  function LeadingDigits(s: string): (ds: string)
    ensures AllDigits(ds) && IsPrefix(ds, s)
    ensures |ds| < |s| ==> !IsDigit(s[|ds|])
  {
    if s != [] && IsDigit(s[0]) then [s[0]] + LeadingDigits(s[1..]) else []
  }

  /** A hexadecimal digit, in either case. */
  predicate IsHexDigit(c: char)
  {
    IsDigit(c) || 'a' <= c <= 'f' || 'A' <= c <= 'F'
  }

  function HexDigitValue(c: char): (n: nat)
    requires IsHexDigit(c)
    ensures n < 16
    ensures IsDigit(c) ==> n == DigitValue(c)
  {
    if IsDigit(c) then DigitValue(c)
    else if 'a' <= c <= 'f' then c as int - 'a' as int + 10
    else c as int - 'A' as int + 10
  }

  predicate AllHexDigits(s: string)
  {
    forall i :: 0 <= i < |s| ==> IsHexDigit(s[i])
  }

  /** The value of a hexadecimal numeral, most significant digit first. */
  function HexNumeralValue(s: string): nat
    requires AllHexDigits(s)
  {
    if s == [] then 0 else HexNumeralValue(s[..|s| - 1]) * 16 + HexDigitValue(s[|s| - 1])
  }

  /** The longest run of hexadecimal digits at the start of s. */
  function LeadingHexDigits(s: string): (hs: string)
    ensures AllHexDigits(hs) && IsPrefix(hs, s)
    ensures |hs| < |s| ==> !IsHexDigit(s[|hs|])
  {
    if s != [] && IsHexDigit(s[0]) then [s[0]] + LeadingHexDigits(s[1..]) else []
  }

  /** Whether the text after the sign starts with the `0x` or `0X` that makes
      `parseInt` without a radix read hexadecimal. */
  predicate HexPrefixed(u: string)
  {
    |u| >= 2 && u[0] == '0' && (u[1] == 'x' || u[1] == 'X')
  }

  /** `parseInt(s)` with no radix: leading white space, an optional sign, then
      either `0x`/`0X` and the longest run of hexadecimal digits, or the longest
      run of decimal digits; `NaN` (None) when that run is empty. So a text
      without any decimal digit is NaN, and a negative result needs a '-'. */
  function ParseInt(s: string): (r: Option<int>)
    ensures r.Some? ==> exists i :: 0 <= i < |s| && IsDigit(s[i])
    ensures r.Some? && r.value < 0 ==> exists i :: 0 <= i < |s| && s[i] == '-'
  {
    var t := TrimStart(s);
    var neg := |t| > 0 && t[0] == '-';
    var u := if |t| > 0 && (t[0] == '-' || t[0] == '+') then t[1..] else t;
    var ds := if HexPrefixed(u) then LeadingHexDigits(u[2..]) else LeadingDigits(u);
    var v: int := if ds == [] then 0 else if HexPrefixed(u) then HexNumeralValue(ds) else DigitsValue(ds);
    if ds == [] then None
    else
      ParseIntWitness(s, t, u, ds);
      if neg then (assert s[|s| - |t|] == t[0]; Some(-v))
      else Some(v)
  }

  /** The first character of the numeral (the `0` of `0x`, or the first decimal
      digit) is a digit of the text itself. */
  lemma ParseIntWitness(s: string, t: string, u: string, ds: string)
    requires |t| <= |s| && t == s[|s| - |t|..]
    requires u == if |t| > 0 && (t[0] == '-' || t[0] == '+') then t[1..] else t
    requires ds != []
    requires ds == if HexPrefixed(u) then LeadingHexDigits(u[2..]) else LeadingDigits(u)
    ensures exists i :: 0 <= i < |s| && IsDigit(s[i])
  {
    assert u == s[|s| - |u|..];
    if HexPrefixed(u) {
      assert s[|s| - |u|] == u[0] == '0';
    } else {
      assert u[0] == ds[0];
      assert s[|s| - |u|] == u[0];
    }
  }

  lemma {:induction false} LeadingDigitsOfDigits(ds: string, rest: string)
    requires AllDigits(ds)
    requires rest == [] || !IsDigit(rest[0])
    ensures LeadingDigits(ds + rest) == ds
  {
    if ds != [] {
      assert (ds + rest)[1..] == ds[1..] + rest;
      LeadingDigitsOfDigits(ds[1..], rest);
      assert [ds[0]] + ds[1..] == ds;
    } else {
      assert ds + rest == rest;
    }
  }

  /** parseInt stops at the first non-digit: `parseInt("19.99")` is 19. */
  lemma ParseIntPrefix(ds: string, rest: string)
    requires ds != [] && AllDigits(ds)
    requires rest == [] || !IsDigit(rest[0])
    requires ds == "0" && rest != [] ==> rest[0] != 'x' && rest[0] != 'X'
    ensures ParseInt(ds + rest) == Some(DigitsValue(ds))
  {
    var s := ds + rest;
    assert s[0] == ds[0];
    assert !IsJsSpace(s[0]);
    assert TrimStart(s) == s;
    assert !(s[0] == '-' || s[0] == '+');
    if |ds| == 1 {
      assert ds == [ds[0]];
    } else {
      assert s[1] == ds[1];
    }
    assert !HexPrefixed(s);
    LeadingDigitsOfDigits(ds, rest);
  }

  lemma {:induction false} LeadingHexDigitsOfHexDigits(hs: string, rest: string)
    requires AllHexDigits(hs)
    requires rest == [] || !IsHexDigit(rest[0])
    ensures LeadingHexDigits(hs + rest) == hs
  {
    if hs != [] {
      assert (hs + rest)[1..] == hs[1..] + rest;
      LeadingHexDigitsOfHexDigits(hs[1..], rest);
      assert [hs[0]] + hs[1..] == hs;
    } else {
      assert hs + rest == rest;
    }
  }

  /** Without a radix a `0x` prefix switches parseInt to hexadecimal:
      `parseInt("0x1A")` is 26, and `parseInt("0x")` is NaN. */
  lemma ParseIntHex(x: char, hs: string, rest: string)
    requires x == 'x' || x == 'X'
    requires AllHexDigits(hs)
    requires rest == [] || !IsHexDigit(rest[0])
    ensures ParseInt(['0', x] + hs + rest) == if hs == [] then None else Some(HexNumeralValue(hs))
  {
    var s := ['0', x] + hs + rest;
    assert s[0] == '0' && s[1] == x && s[2..] == hs + rest;
    LeadingHexDigitsOfHexDigits(hs, rest);
    ParseIntHexParts(s, hs);
  }

  /** A "0x" numeral without sign or leading space. */
  lemma ParseIntHexParts(s: string, hs: string)
    requires HexPrefixed(s) && LeadingHexDigits(s[2..]) == hs
    ensures hs == [] ==> ParseInt(s) == None
    ensures hs != [] ==> ParseInt(s) == Some(HexNumeralValue(hs))
  {
    TrimStartNoSpace(s);
  }

  lemma TrimStartNoSpace(s: string)
    requires s != [] && !IsJsSpace(s[0])
    ensures TrimStart(s) == s
  {
  }

  /** parseInt reads back an id written with toString. */
  lemma ParseIntNatToString(n: nat)
    ensures ParseInt(NatToString(n)) == Some(n)
  {
    var s := NatToString(n);
    ParseIntPrefix(s, []);
    assert s + [] == s;
    NatToStringValue(n);
  }

  /** `String(n)` (or a template literal) for any integer: a '-' before the
      numeral of a negative number. parseInt reads it back. */
  function IntToString(n: int): (s: string)
    ensures ParseInt(s) == Some(n)
  {
    var s := if n >= 0 then NatToString(n) else "-" + NatToString(-n);
    IntToStringReadBack(n, s);
    s
  }

  lemma IntToStringReadBack(n: int, s: string)
    requires s == if n >= 0 then NatToString(n) else "-" + NatToString(-n)
    ensures ParseInt(s) == Some(n)
  {
    if n >= 0 {
      ParseIntNatToString(n);
    } else {
      var u := NatToString(-n);
      NatToStringValue(-n);
      ParseIntNegative(u, n, s);
    }
  }

  lemma ParseIntNegative(u: string, n: int, s: string)
    requires n < 0 && u != [] && AllDigits(u) && DigitsValue(u) == -n && s == "-" + u
    requires u[0] == '0' ==> -n == 0
    ensures ParseInt(s) == Some(n)
  {
    assert s[0] == '-';
    assert s[1..] == u;
    LeadingDigitsOfDigits(u, []);
    assert u + [] == u;
    ParseIntMinus(s, u);
  }

  /** A '-' followed by a decimal numeral (not "0x..."). */
  lemma ParseIntMinus(s: string, u: string)
    requires s != [] && s[0] == '-' && s[1..] == u
    requires !HexPrefixed(u) && LeadingDigits(u) == u && u != []
    ensures ParseInt(s) == Some(-(DigitsValue(u) as int))
  {
    TrimStartNoSpace(s);
  }

  // ---------------------------------------------------------------- case mapping

  /** `toLowerCase` on the ASCII letters. */
  function LowerAscii(s: string): (t: string)
    ensures |t| == |s|
    ensures forall i :: 0 <= i < |s| ==> !('A' <= t[i] <= 'Z')
  {
    if s == [] then []
    else [if 'A' <= s[0] <= 'Z' then (s[0] as int + 32) as char else s[0]] + LowerAscii(s[1..])
  }

  /** `toUpperCase` on the ASCII letters. */
  function UpperAscii(s: string): (t: string)
    ensures |t| == |s|
  {
    if s == [] then []
    else [if 'a' <= s[0] <= 'z' then (s[0] as int - 32) as char else s[0]] + UpperAscii(s[1..])
  }

  /** Lower-casing is idempotent. */
  lemma {:induction false} LowerAsciiIdempotent(s: string)
    ensures LowerAscii(LowerAscii(s)) == LowerAscii(s)
  {
    if s != [] {
      LowerAsciiIdempotent(s[1..]);
    }
  }

  /** Lower-casing keeps '@' where it was and adds none. */
  lemma {:induction false} LowerAsciiKeepsAt(s: string)
    ensures '@' in LowerAscii(s) <==> '@' in s
  {
    if s != [] {
      LowerAsciiKeepsAt(s[1..]);
      assert LowerAscii(s) == [LowerAscii(s)[0]] + LowerAscii(s[1..]);
      assert s == [s[0]] + s[1..];
    }
  }

  /** What the model needs of a lower-case mapping such as `toLowerCase`:
      applying it twice is applying it once, and it keeps the '@' of an
      address and adds none. */
  ghost predicate IsLowerCasing(toLower: string -> string)
  {
    forall s :: toLower(toLower(s)) == toLower(s) && ('@' in toLower(s) <==> '@' in s)
  }

  /** The ASCII mapping is one. */
  lemma LowerAsciiIsLowerCasing()
    ensures IsLowerCasing(LowerAscii)
  {
    forall s
      ensures LowerAscii(LowerAscii(s)) == LowerAscii(s) && ('@' in LowerAscii(s) <==> '@' in s)
    {
      LowerAsciiIdempotent(s);
      LowerAsciiKeepsAt(s);
    }
  }

  // ---------------------------------------------------------------- email pattern

  /** A character of the class `[^\s@]`. */
  predicate Plain(c: char)
  {
    c != '@' && !IsJsSpace(c)
  }

  predicate AllPlain(s: string)
  {
    forall i :: 0 <= i < |s| ==> Plain(s[i])
  }

  /** `/^[^\s@]+@[^\s@]+\.[^\s@]+$/.test(s)`: s is a@b.c with a, b, c non-empty
      runs of `[^\s@]` (b may itself contain dots; the last part is what follows
      some dot). */
  predicate EmailPattern(s: string)
  {
    exists k, j :: 0 < k && k + 1 < j < |s| - 1 && s[k] == '@' && s[j] == '.'
      && AllPlain(s[..k]) && AllPlain(s[k + 1..j]) && AllPlain(s[j + 1..])
  }

  /** A matching address has no white space and exactly one '@', which is not
      its first character. */
  lemma EmailPatternShape(s: string)
    requires EmailPattern(s)
    ensures forall i :: 0 <= i < |s| ==> !IsJsSpace(s[i])
    ensures exists k :: 0 < k < |s| && s[k] == '@' && forall i :: 0 <= i < |s| && s[i] == '@' ==> i == k
  {
    var k, j :| 0 < k && k + 1 < j < |s| - 1 && s[k] == '@' && s[j] == '.'
      && AllPlain(s[..k]) && AllPlain(s[k + 1..j]) && AllPlain(s[j + 1..]);
    forall i | 0 <= i < |s|
      ensures Plain(s[i]) || i == k
    {
      if i < k {
        assert s[..k][i] == s[i];
      } else if k < i < j {
        assert s[k + 1..j][i - k - 1] == s[i];
      } else if j < i {
        assert s[j + 1..][i - j - 1] == s[i];
      }
    }
  }

  /** Conversely, such an address matches as soon as some dot lies strictly inside
      the part after the '@'. */
  lemma EmailPatternFromShape(s: string, k: nat, j: nat)
    requires forall i :: 0 <= i < |s| ==> !IsJsSpace(s[i])
    requires 0 < k < |s| && s[k] == '@' && forall i :: 0 <= i < |s| && s[i] == '@' ==> i == k
    requires k + 1 < j < |s| - 1 && s[j] == '.'
    ensures EmailPattern(s)
  {
    assert AllPlain(s[..k]) by {
      forall i | 0 <= i < k ensures Plain(s[..k][i]) {
        assert s[..k][i] == s[i];
      }
    }
    var mid, last := s[k + 1..j], s[j + 1..];
    assert AllPlain(mid) by {
      forall i | 0 <= i < |mid| ensures Plain(mid[i]) {
        assert mid[i] == s[k + 1 + i];
      }
    }
    assert AllPlain(last) by {
      forall i | 0 <= i < |last| ensures Plain(last[i]) {
        assert last[i] == s[j + 1 + i];
      }
    }
  }
}
