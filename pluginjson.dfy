/** The `plugins` column of the orders table: `JSON.stringify` of the order's
    `{id, name}` list (app/api/lib/db.ts:86) and the `JSON.parse` that the
    routes apply to it. The serialiser follows JSON.stringify's string quoting
    (section 25.5.2 of ECMA-262); the parser accepts exactly the texts of that
    shape, so anything else stands for a text JSON.parse rejects or that does not
    hold such a list. */
module PluginJson {
  import opened Wrappers
  import opened Text
  import Seqs

  /** One purchased item as the order stores it. */
  datatype Plugin = Plugin(id: string, name: string)

  const HexDigits: string := "0123456789abcdef"

  /** The characters JSON.stringify writes for one character of a string. */
  function EscapeChar(c: char): (e: string)
    ensures 1 <= |e| <= 6
  {
    if c == '"' then "\\\""
    else if c == '\\' then "\\\\"
    else if c == '\U{0008}' then "\\b"
    else if c == '\t' then "\\t"
    else if c == '\n' then "\\n"
    else if c == '\U{000C}' then "\\f"
    else if c == '\r' then "\\r"
    else if c < ' ' then "\\u00" + [HexDigits[c as int / 16], HexDigits[c as int % 16]]
    else [c]
  }

  function EscapeBody(s: string): string
  {
    if s == [] then [] else EscapeChar(s[0]) + EscapeBody(s[1..])
  }

  const IdKey: string := "\"id\":\""
  const IdOpen: string := "{\"id\":\""
  const NameOpen: string := ",\"name\":\""

  /** `{"id":"<id>","name":"<name>"}`, the keys in the order the lists are built. */
  function ObjectText(p: Plugin): string
  {
    "{" + (IdKey + (EscapeBody(p.id) + ("\"" + (NameOpen + (EscapeBody(p.name) + "\"}")))))
  }

  function Elements(ps: seq<Plugin>): string
  {
    if ps == [] then []
    else if |ps| == 1 then ObjectText(ps[0])
    else ObjectText(ps[0]) + "," + Elements(ps[1..])
  }

  /** JSON.stringify(plugins). Round trip: the text parses back to the list. */
  function Serialize(ps: seq<Plugin>): (s: string)
    ensures Parse(s) == Some(ps)
  {
    var s := "[" + Elements(ps) + "]";
    SerializedParses(ps, s);
    s
  }

  // ---------------------------------------------------------------- parsing

  function HexValue(c: char): Option<nat>
  {
    if '0' <= c <= '9' then Some(c as int - '0' as int)
    else if 'a' <= c <= 'f' then Some(c as int - 'a' as int + 10)
    else if 'A' <= c <= 'F' then Some(c as int - 'A' as int + 10)
    else None
  }

  /** The escape at the front of s (which starts with a backslash): the
      character it stands for and its length. `\u` escapes of surrogate halves
      are rejected. */
  function Unescape(s: string): (r: Option<(char, nat)>)
    requires |s| >= 2
    ensures r.Some? ==> 2 <= r.value.1 <= |s|
  {
    var k := s[1];
    if k == '"' then Some(('"', 2))
    else if k == '\\' then Some(('\\', 2))
    else if k == '/' then Some(('/', 2))
    else if k == 'b' then Some(('\U{0008}', 2))
    else if k == 't' then Some(('\t', 2))
    else if k == 'n' then Some(('\n', 2))
    else if k == 'f' then Some(('\U{000C}', 2))
    else if k == 'r' then Some(('\r', 2))
    else if k == 'u' && |s| >= 6 then
      var h0, h1, h2, h3 := HexValue(s[2]), HexValue(s[3]), HexValue(s[4]), HexValue(s[5]);
      if h0.None? || h1.None? || h2.None? || h3.None? then None
      else
        var v := h0.value * 4096 + h1.value * 256 + h2.value * 16 + h3.value;
        if 0xD800 <= v < 0xE000 || v >= 0x110000 then None else Some((v as char, 6))
    else None
  }

  /** The contents of a string literal whose opening quote is already consumed,
      and what follows its closing quote. Raw control characters are rejected. */
  function ParseStringBody(s: string): (r: Option<(string, string)>)
    ensures r.Some? ==> |r.value.1| < |s| && r.value.1 == s[|s| - |r.value.1|..]
    decreases |s|
  {
    if s == [] then None
    else if s[0] == '"' then Some(([], s[1..]))
    else if s[0] == '\\' then
      if |s| < 2 then None
      else match Unescape(s)
        case None => None
        case Some((c, n)) =>
          match ParseStringBody(s[n..])
          case None => None
          case Some((body, rest)) => Some(([c] + body, rest))
    else if s[0] < ' ' then None
    else match ParseStringBody(s[1..])
      case None => None
      case Some((body, rest)) => Some(([s[0]] + body, rest))
  }

  /** One `{"id":...,"name":...}` object at the front of s, and what follows. */
  function ParseObject(s: string): (r: Option<(Plugin, string)>)
    ensures r.Some? ==> |r.value.1| < |s| && r.value.1 == s[|s| - |r.value.1|..]
  {
    if !IsPrefix(IdOpen, s) then None
    else match ParseStringBody(s[|IdOpen|..])
      case None => None
      case Some((id, r1)) =>
        var r := ParseNameRest(id, r1);
        if r.None? then None
        else
          SuffixChain(s, s[|IdOpen|..], r1, r.value.1);
          r
  }

  /** The rest of the object after its id: `,"name":"<name>"}`. */
  function ParseNameRest(id: string, r1: string): (r: Option<(Plugin, string)>)
    ensures r.Some? ==> |r.value.1| < |r1| && r.value.1 == r1[|r1| - |r.value.1|..]
    ensures r.Some? ==> r.value.0.id == id
  {
    if !IsPrefix(NameOpen, r1) then None
    else match ParseStringBody(r1[|NameOpen|..])
      case None => None
      case Some((name, r2)) =>
        if r2 == [] || r2[0] != '}' then None
        else Some((Plugin(id, name), r2[1..]))
  }

  /** A suffix of a suffix of a suffix of s is a suffix of s. */
  lemma SuffixChain(s: string, a: string, b: string, c: string)
    requires |a| <= |s| && a == s[|s| - |a|..]
    requires |b| < |a| && b == a[|a| - |b|..]
    requires |c| < |b| && c == b[|b| - |c|..]
    ensures |c| < |s| && c == s[|s| - |c|..]
  {
  }

  /** Objects separated by commas up to the closing bracket, which must end the
      text. */
  function ParseElements(s: string): (r: Option<seq<Plugin>>)
    ensures r.Some? ==> r.value != [] && s != [] && s[|s| - 1] == ']'
    decreases |s|
  {
    match ParseObject(s)
    case None => None
    case Some((p, rest)) =>
      if rest == "]" then Some([p])
      else if rest != [] && rest[0] == ',' then
        match ParseElements(rest[1..])
        case None => None
        case Some(ps) => Some([p] + ps)
      else None
  }

  /** JSON.parse of a plugins text, restricted to the shape Serialize writes:
      an accepted text is bracketed, and only "[]" is the empty list. */
  function Parse(s: string): (r: Option<seq<Plugin>>)
    ensures r.Some? ==> |s| >= 2 && s[0] == '[' && s[|s| - 1] == ']'
    ensures r == Some([]) <==> s == "[]"
  {
    if s == "[]" then Some([])
    else if s == [] || s[0] != '[' then None
    else ParseElements(s[1..])
  }

  // ---------------------------------------------------------------- round trip

  lemma HexDigitsValue(d: nat)
    requires d < 16
    ensures HexValue(HexDigits[d]) == Some(d)
  {
  }

  lemma UnescapeControl(c: char, rest: string)
    requires c < ' '
    ensures var e := "\\u00" + [HexDigits[c as int / 16], HexDigits[c as int % 16]];
      Unescape(e + rest) == Some((c, 6))
  {
    var e := "\\u00" + [HexDigits[c as int / 16], HexDigits[c as int % 16]];
    var s := e + rest;
    HexDigitsValue(c as int / 16);
    HexDigitsValue(c as int % 16);
    assert s[1] == 'u' && s[2] == '0' && s[3] == '0';
    assert s[4] == HexDigits[c as int / 16] && s[5] == HexDigits[c as int % 16];
  }

  /** Reading one escaped character back. */
  lemma ParseEscapedChar(c: char, rest: string)
    ensures ParseStringBody(EscapeChar(c) + rest) ==
      match ParseStringBody(rest)
      case None => None
      case Some((body, after)) => Some(([c] + body, after))
  {
    var e := EscapeChar(c);
    var s := e + rest;
    assert s[|e|..] == rest;
    if c < ' ' && c != '\U{0008}' && c != '\t' && c != '\n' && c != '\U{000C}' && c != '\r' {
      UnescapeControl(c, rest);
      ParseAfterEscape(s, c, 6, rest);
    } else if |e| == 2 {
      assert s[0] == '\\' && s[1] == e[1];
      ParseAfterEscape(s, c, 2, rest);
    } else {
      ParseAfterPlain(s, c, rest);
    }
  }

  lemma ParseAfterEscape(s: string, c: char, n: nat, rest: string)
    requires |s| >= 2 && s[0] == '\\' && Unescape(s) == Some((c, n)) && s[n..] == rest
    ensures ParseStringBody(s) ==
      match ParseStringBody(rest)
      case None => None
      case Some((body, after)) => Some(([c] + body, after))
  {
  }

  lemma ParseAfterPlain(s: string, c: char, rest: string)
    requires s != [] && s[0] == c && c != '"' && c != '\\' && c >= ' ' && s[1..] == rest
    ensures ParseStringBody(s) ==
      match ParseStringBody(rest)
      case None => None
      case Some((body, after)) => Some(([c] + body, after))
  {
  }

  /** Reading a quoted body back gives the original string and the text after
      the closing quote. */
  lemma {:induction false} ParseEscapeBody(s: string, rest: string)
    ensures ParseStringBody(EscapeBody(s) + ("\"" + rest)) == Some((s, rest))
  {
    if s == [] {
      assert EscapeBody(s) + ("\"" + rest) == "\"" + rest;
      assert ("\"" + rest)[1..] == rest;
    } else {
      var tail := EscapeBody(s[1..]) + ("\"" + rest);
      assert EscapeBody(s) + ("\"" + rest) == EscapeChar(s[0]) + tail;
      ParseEscapedChar(s[0], tail);
      ParseEscapeBody(s[1..], rest);
      assert [s[0]] + s[1..] == s;
    }
  }

  lemma PrefixedSlice(p: string, t: string)
    ensures IsPrefix(p, p + t) && (p + t)[|p|..] == t
  {
    assert (p + t)[..|p|] == p;
  }

  /** The text of an object followed by more text, nested the way the parser
      reads it. */
  lemma ObjectTextThen(p: Plugin, rest: string)
    ensures ObjectText(p) + rest == IdOpen + (EscapeBody(p.id) + ("\"" +
      (NameOpen + (EscapeBody(p.name) + ("\"" + ("}" + rest))))))
  {
    var e1, e2 := EscapeBody(p.id), EscapeBody(p.name);
    var u := e2 + "\"}";
    var v := NameOpen + u;
    var w := "\"" + v;
    var z := e1 + w;
    var y := IdKey + z;
    Seqs.AppendAssoc("{", y, rest);
    Seqs.AppendAssoc(IdKey, z, rest);
    Seqs.AppendAssoc(e1, w, rest);
    Seqs.AppendAssoc("\"", v, rest);
    Seqs.AppendAssoc(NameOpen, u, rest);
    Seqs.AppendAssoc(e2, "\"}", rest);
    Seqs.AppendAssoc("\"", "}", rest);
    assert "\"}" == "\"" + "}";
    Seqs.AppendAssoc("{", IdKey, z + rest);
    assert IdOpen == "{" + IdKey;
  }

  lemma ParseObjectText(p: Plugin, rest: string)
    ensures ParseObject(ObjectText(p) + rest) == Some((p, rest))
  {
    var afterName := "}" + rest;
    var afterId := NameOpen + (EscapeBody(p.name) + ("\"" + afterName));
    var s := IdOpen + (EscapeBody(p.id) + ("\"" + afterId));
    ObjectTextThen(p, rest);
    PrefixedSlice(IdOpen, EscapeBody(p.id) + ("\"" + afterId));
    ParseEscapeBody(p.id, afterId);
    PrefixedSlice(NameOpen, EscapeBody(p.name) + ("\"" + afterName));
    ParseEscapeBody(p.name, afterName);
    assert afterName[0] == '}' && afterName[1..] == rest;
    ParseNameStep(p.id, afterId, p.name, afterName);
    ParseObjectStep(s, p.id, afterId, (p, rest));
  }

  lemma ParseNameStep(id: string, r1: string, name: string, r2: string)
    requires IsPrefix(NameOpen, r1) && ParseStringBody(r1[|NameOpen|..]) == Some((name, r2))
    requires r2 != [] && r2[0] == '}'
    ensures ParseNameRest(id, r1) == Some((Plugin(id, name), r2[1..]))
  {
  }

  lemma ParseObjectStep(s: string, id: string, r1: string, res: (Plugin, string))
    requires IsPrefix(IdOpen, s) && ParseStringBody(s[|IdOpen|..]) == Some((id, r1))
    requires ParseNameRest(id, r1) == Some(res)
    ensures ParseObject(s) == Some(res)
  {
  }

  lemma ParseElementsMore(p: Plugin, ps: seq<Plugin>, tail: string)
    requires ParseElements(tail) == Some(ps)
    ensures ParseElements(ObjectText(p) + ("," + tail)) == Some([p] + ps)
  {
    var rest := "," + tail;
    var s := ObjectText(p) + rest;
    ParseObjectText(p, rest);
    assert rest[0] == ',' && rest[1..] == tail;
    ParseElementsStep(s, p, rest, ps);
  }

  /** One object, a comma, and more elements. */
  lemma ParseElementsStep(s: string, p: Plugin, rest: string, ps: seq<Plugin>)
    requires ParseObject(s) == Some((p, rest))
    requires rest != [] && rest[0] == ',' && ParseElements(rest[1..]) == Some(ps)
    ensures ParseElements(s) == Some([p] + ps)
  {
    assert rest != "]";
  }

  lemma {:induction false} ParseElementsText(ps: seq<Plugin>)
    requires ps != []
    ensures ParseElements(Elements(ps) + "]") == Some(ps)
    decreases |ps|
  {
    if |ps| == 1 {
      ParseObjectText(ps[0], "]");
      assert ps == [ps[0]];
    } else {
      assert [ps[0]] + ps[1..] == ps;
      var tail := Elements(ps[1..]) + "]";
      ElementsCons(ps);
      Seqs.AppendAssoc(ObjectText(ps[0]), "," + Elements(ps[1..]), "]");
      Seqs.AppendAssoc(",", Elements(ps[1..]), "]");
      ParseElementsText(ps[1..]);
      ParseElementsMore(ps[0], ps[1..], tail);
    }
  }

  /** The round trip, on the text as Serialize builds it. */
  lemma SerializedParses(ps: seq<Plugin>, s: string)
    requires s == "[" + Elements(ps) + "]"
    ensures Parse(s) == Some(ps)
  {
    if ps == [] {
      assert s == "[]";
    } else {
      var inner := Elements(ps) + "]";
      assert s == "[" + inner;
      ParseElementsText(ps);
      ParseBracketed(s, inner);
    }
  }

  /** A bracketed text other than "[]" is parsed as its elements. */
  lemma ParseBracketed(s: string, inner: string)
    requires s == "[" + inner && ParseElements(inner).Some?
    ensures Parse(s) == ParseElements(inner)
  {
    assert s[0] == '[' && s[1..] == inner;
  }

  // ---------------------------------------------------------------- LIKE '%"id":"4"%'

  /** The stored text of a list holding a plugin with id x contains `"id":"x"`
      when x needs no escaping. */
  lemma {:induction false} SerializeContainsId(ps: seq<Plugin>, i: nat, x: string)
    requires i < |ps| && ps[i].id == x
    requires EscapeBody(x) == x
    ensures Contains(Serialize(ps), IdKey + x + "\"")
  {
    var pat := IdKey + x + "\"";
    ElementsContainsId(ps, i, x);
    ContainsRight("[", Elements(ps), pat);
    ContainsLeft("[" + Elements(ps), "]", pat);
  }

  lemma ContainsInfix(a: string, p: string, b: string)
    ensures Contains(a + (p + b), p)
  {
    assert (p + b)[..|p|] == p;
    ContainsRight(a, p + b, p);
  }

  /** The object of a plugin whose id needs no escaping contains `"id":"<id>"`. */
  lemma ObjectContainsId(p: Plugin, x: string)
    requires p.id == x && EscapeBody(x) == x
    ensures Contains(ObjectText(p), IdKey + x + "\"")
  {
    var r := NameOpen + (EscapeBody(p.name) + "\"}");
    Seqs.AppendAssoc(x, "\"", r);
    Seqs.AppendAssoc(IdKey, x + "\"", r);
    Seqs.AppendAssoc(IdKey, x, "\"");
    ContainsInfix("{", IdKey + x + "\"", r);
  }

  lemma ElementsCons(ps: seq<Plugin>)
    requires |ps| > 1
    ensures Elements(ps) == (ObjectText(ps[0]) + ",") + Elements(ps[1..])
    ensures Elements(ps) == ObjectText(ps[0]) + ("," + Elements(ps[1..]))
  {
    Seqs.AppendAssoc(ObjectText(ps[0]), ",", Elements(ps[1..]));
  }

  lemma {:induction false} ElementsContainsId(ps: seq<Plugin>, i: nat, x: string)
    requires i < |ps| && ps[i].id == x
    requires EscapeBody(x) == x
    ensures Contains(Elements(ps), IdKey + x + "\"")
    decreases |ps|
  {
    var pat := IdKey + x + "\"";
    if |ps| == 1 {
      ObjectContainsId(ps[0], x);
    } else if i == 0 {
      ObjectContainsId(ps[0], x);
      ElementsCons(ps);
      ContainsLeft(ObjectText(ps[0]), "," + Elements(ps[1..]), pat);
    } else {
      ElementsContainsId(ps[1..], i - 1, x);
      ElementsCons(ps);
      ContainsRight(ObjectText(ps[0]) + ",", Elements(ps[1..]), pat);
    }
  }

  /** TapeBloom's id "4" needs no escaping, so the LIKE test finds every order
      holding it. */
  lemma SerializeContainsTapeBloom(ps: seq<Plugin>, i: nat)
    requires i < |ps| && ps[i].id == "4"
    ensures Contains(Serialize(ps), "\"id\":\"4\"")
  {
    TapeBloomIdText();
    SerializeContainsId(ps, i, "4");
  }

  lemma TapeBloomIdText()
    ensures EscapeBody("4") == "4"
    ensures IdKey + "4" + "\"" == "\"id\":\"4\""
  {
    assert EscapeBody("4") == "4";
  }
}
