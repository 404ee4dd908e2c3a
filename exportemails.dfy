/** GET /api/admin/export-emails: a password-gated CSV of the orders table,
    either every order newest first or, with `marketing=true`, one line per
    opted-in email. */
module ExportEmails {
  import opened Wrappers
  import opened Seqs
  import opened Text
  import PluginJson
  import Csv

  /** The columns the export reads from one order (the query calls the email
      column `customer_email`). */
  datatype Purchase = Purchase(email: string, createdAt: int, amountTotal: int, plugins: string, marketingOptIn: bool)

  /** One row of the query result. */
  datatype ExportRow = ExportRow(email: string, createdAt: int, amountTotal: int, plugins: string)

  function RowCreatedAt(r: ExportRow): int
  {
    r.createdAt
  }

  function RowEmail(r: ExportRow): string
  {
    r.email
  }

  function RowOf(p: Purchase): ExportRow
  {
    ExportRow(p.email, p.createdAt, p.amountTotal, p.plugins)
  }

  // ---------------------------------------------------------------- the two queries

  /** `SELECT customer_email, created_at, amount_total, plugins FROM orders
      ORDER BY created_at DESC`. */
  function AllOrders(table: seq<Purchase>): seq<ExportRow>
  {
    SortDesc(Map(table, RowOf), RowCreatedAt)
  }

  /** Text comparison for MAX(plugins): lexicographic on code points. */
  predicate TextLeq(a: string, b: string)
  {
    a == [] || (b != [] && (a[0] < b[0] || (a[0] == b[0] && TextLeq(a[1..], b[1..]))))
  }

  lemma {:induction false} TextLeqRefl(a: string)
    ensures TextLeq(a, a)
  {
    if a != [] {
      TextLeqRefl(a[1..]);
    }
  }

  lemma {:induction false} TextLeqTotal(a: string, b: string)
    ensures TextLeq(a, b) || TextLeq(b, a)
  {
    if a != [] && b != [] && a[0] == b[0] {
      TextLeqTotal(a[1..], b[1..]);
    }
  }

  lemma {:induction false} TextLeqTrans(a: string, b: string, c: string)
    requires TextLeq(a, b) && TextLeq(b, c)
    ensures TextLeq(a, c)
  {
    if a != [] && b != [] && c != [] && a[0] == b[0] && b[0] == c[0] {
      TextLeqTrans(a[1..], b[1..], c[1..]);
    }
  }

  /** MAX over a column of text. */
  function MaxText(s: seq<string>): (m: string)
    ensures s != [] ==> m in s
  {
    if s == [] then ""
    else if |s| == 1 then s[0]
    else
      var m := MaxText(s[1..]);
      if TextLeq(m, s[0]) then s[0] else m
  }

  /** MaxText is the largest text of the column. */
  lemma {:induction false} MaxTextIsMax(s: seq<string>)
    ensures forall i :: 0 <= i < |s| ==> TextLeq(s[i], MaxText(s))
  {
    if |s| == 1 {
      TextLeqRefl(s[0]);
    } else if |s| > 1 {
      var m := MaxText(s[1..]);
      TextLeqRefl(s[0]);
      MaxTextIsMax(s[1..]);
      TextLeqTotal(m, s[0]);
      forall i | 0 <= i < |s|
        ensures TextLeq(s[i], MaxText(s))
      {
        if i > 0 {
          assert s[i] == s[1..][i - 1];
          if TextLeq(m, s[0]) {
            TextLeqTrans(s[i], m, s[0]);
          }
        } else if !TextLeq(m, s[0]) {
          assert TextLeq(s[0], m);
        }
      }
    }
  }

  /** The opted-in orders of one email: one GROUP BY group. */
  function Group(table: seq<Purchase>, e: string): seq<Purchase>
  {
    Filter(table, (p: Purchase) => p.marketingOptIn && p.email == e)
  }

  /** `MAX(created_at), MAX(amount_total), MAX(plugins)` of a group, each column
      on its own, so the three values may come from different orders. */
  function GroupRow(table: seq<Purchase>, e: string): ExportRow
  {
    var g := Group(table, e);
    ExportRow(e, MaxOf(g, (p: Purchase) => p.createdAt, 0), MaxOf(g, (p: Purchase) => p.amountTotal, 0),
      MaxText(Map(g, (p: Purchase) => p.plugins)))
  }

  function OptedInEmails(table: seq<Purchase>): seq<string>
  {
    Distinct(Map(Filter(table, (p: Purchase) => p.marketingOptIn), (p: Purchase) => p.email))
  }

  function GroupRows(table: seq<Purchase>): seq<ExportRow>
  {
    Map(OptedInEmails(table), (e: string) => GroupRow(table, e))
  }

  /** `SELECT DISTINCT customer_email, MAX(..) ... WHERE marketing_opt_in = true
      GROUP BY customer_email ORDER BY MAX(created_at) DESC`. */
  function MarketingOrders(table: seq<Purchase>): seq<ExportRow>
  {
    SortDesc(GroupRows(table), RowCreatedAt)
  }

  lemma OptedInEmailsExact(table: seq<Purchase>, e: string)
    ensures e in OptedInEmails(table) <==> exists i :: 0 <= i < |table| && table[i].marketingOptIn && table[i].email == e
  {
    var ins := Filter(table, (p: Purchase) => p.marketingOptIn);
    var m := Map(ins, (p: Purchase) => p.email);
    DistinctImageMembers(table, (p: Purchase) => p.marketingOptIn, (p: Purchase) => p.email, ins, m, OptedInEmails(table));
  }

  lemma GroupRowsDistinct(table: seq<Purchase>, g: seq<ExportRow>)
    requires g == GroupRows(table)
    ensures forall i, j :: 0 <= i < j < |g| ==> RowEmail(g[i]) != RowEmail(g[j])
  {
    var emails := OptedInEmails(table);
    DistinctNoDuplicates(Map(Filter(table, (p: Purchase) => p.marketingOptIn), (p: Purchase) => p.email));
    forall i, j | 0 <= i < j < |g|
      ensures RowEmail(g[i]) != RowEmail(g[j])
    {
      assert RowEmail(g[i]) == emails[i] && RowEmail(g[j]) == emails[j];
    }
  }

  lemma GroupRowsExact(table: seq<Purchase>, r: ExportRow)
    ensures r in GroupRows(table) <==> r.email in OptedInEmails(table) && r == GroupRow(table, r.email)
  {
    var emails := OptedInEmails(table);
    if r.email in emails && r == GroupRow(table, r.email) {
      var k :| 0 <= k < |emails| && emails[k] == r.email;
      assert GroupRows(table)[k] == r;
    }
  }

  lemma SortedEmailsDistinct(g: seq<ExportRow>, rows: seq<ExportRow>)
    requires forall i, j :: 0 <= i < j < |g| ==> RowEmail(g[i]) != RowEmail(g[j])
    requires rows == SortDesc(g, RowCreatedAt)
    ensures forall i, j :: 0 <= i < j < |rows| ==> rows[i].email != rows[j].email
  {
    SortDescDistinctBy(g, RowCreatedAt, RowEmail);
    assert forall i :: 0 <= i < |rows| ==> RowEmail(rows[i]) == rows[i].email;
  }

  lemma MarketingDistinct(table: seq<Purchase>, rows: seq<ExportRow>)
    requires rows == MarketingOrders(table)
    ensures forall i, j :: 0 <= i < j < |rows| ==> rows[i].email != rows[j].email
  {
    var g := GroupRows(table);
    GroupRowsDistinct(table, g);
    SortedEmailsDistinct(g, rows);
  }

  lemma MarketingMember(table: seq<Purchase>, rows: seq<ExportRow>, r: ExportRow)
    requires rows == MarketingOrders(table)
    ensures r in rows <==>
      (exists i :: 0 <= i < |table| && table[i].marketingOptIn && table[i].email == r.email)
      && r == GroupRow(table, r.email)
  {
    SortDescMembers(GroupRows(table), RowCreatedAt);
    GroupRowsExact(table, r);
    OptedInEmailsExact(table, r.email);
  }

  /** With `marketing=true` there is one line per opted-in email, and no other:
      the emails of the result are pairwise distinct, each row carries its
      group's maxima, and rows come latest first. */
  lemma MarketingOneRowPerEmail(table: seq<Purchase>, rows: seq<ExportRow>)
    requires rows == MarketingOrders(table)
    ensures SortedDesc(rows, RowCreatedAt)
    ensures forall i, j :: 0 <= i < j < |rows| ==> rows[i].email != rows[j].email
    ensures forall r :: r in rows <==>
      (exists i :: 0 <= i < |table| && table[i].marketingOptIn && table[i].email == r.email)
      && r == GroupRow(table, r.email)
  {
    MarketingDistinct(table, rows);
    forall r
      ensures r in rows <==>
        (exists i :: 0 <= i < |table| && table[i].marketingOptIn && table[i].email == r.email)
        && r == GroupRow(table, r.email)
    {
      MarketingMember(table, rows, r);
    }
  }

  // ---------------------------------------------------------------- cells

  /** Whole cents as `(cents / 100).toFixed(2)`: the dollars, '.', and exactly
      two digits of cents. */
  function Dollars(cents: nat): string
  {
    NatToString(cents / 100) + "." + TwoDigitText(cents % 100)
  }

  /** A number below 100 as exactly two decimal digits. */
  function TwoDigitText(n: nat): (s: string)
    requires n < 100
    ensures |s| == 2 && AllDigits(s)
  {
    [DigitChar(n / 10), DigitChar(n % 10)]
  }

  /** `amount_total === 0 ? 'FREE' : `$${(amount_total / 100).toFixed(2)}``. */
  function AmountText(a: int): string
  {
    if a == 0 then "FREE" else if a > 0 then "$" + Dollars(a) else "$-" + Dollars(-a)
  }

  /** `amount_total === 0 ? 'Free' : 'Paid'`. */
  function TypeText(a: int): string
  {
    if a == 0 then "Free" else "Paid"
  }

  /** Reads a "$D.CC" cell back as cents. */
  function ReadCents(s: string): Option<nat>
  {
    if |s| >= 5 && s[0] == '$' && s[|s| - 3] == '.'
      && AllDigits(s[1..|s| - 3]) && AllDigits(s[|s| - 2..])
    then Some(DigitsValue(s[1..|s| - 3]) * 100 + DigitsValue(s[|s| - 2..]))
    else None
  }

  lemma TwoDigits(n: nat)
    requires n < 100
    ensures DigitsValue(TwoDigitText(n)) == n
  {
    var s := TwoDigitText(n);
    assert s[..1] == [DigitChar(n / 10)];
    assert s[..1][..0] == [];
    assert DigitsValue(s[..1]) == n / 10;
    assert DigitValue(s[1]) == n % 10;
  }

  /** Where the parts of a "$D.CC" cell sit. */
  lemma CentsLayout(w: string, cc: string)
    requires |cc| == 2
    ensures var s := "$" + w + "." + cc;
      |s| == |w| + 4 && s[0] == '$' && s[|s| - 3] == '.' && s[1..|s| - 3] == w && s[|s| - 2..] == cc
  {
    var s := "$" + w + "." + cc;
    assert s[1..|s| - 3] == w;
  }

  lemma ReadCentsParts(s: string, w: string, cc: string)
    requires |w| >= 1 && AllDigits(w) && |cc| == 2 && AllDigits(cc)
    requires |s| >= 5 && s[0] == '$' && s[|s| - 3] == '.' && s[1..|s| - 3] == w && s[|s| - 2..] == cc
    ensures ReadCents(s) == Some(DigitsValue(w) * 100 + DigitsValue(cc))
  {
  }

  /** ReadCents undoes the "$D.CC" layout for any digit strings. */
  lemma ReadCentsLayout(w: string, cc: string)
    requires |w| >= 1 && AllDigits(w) && |cc| == 2 && AllDigits(cc)
    ensures ReadCents("$" + w + "." + cc) == Some(DigitsValue(w) * 100 + DigitsValue(cc))
  {
    CentsLayout(w, cc);
    ReadCentsParts("$" + w + "." + cc, w, cc);
  }

  /** A cell written from whole dollars and two digits of cents reads back as
      their cents. */
  lemma DollarsReadBack(whole: nat, cents: nat)
    requires cents < 100
    ensures ReadCents("$" + NatToString(whole) + "." + TwoDigitText(cents)) == Some(whole * 100 + cents)
  {
    ReadCentsLayout(NatToString(whole), TwoDigitText(cents));
    NatToStringValue(whole);
    TwoDigits(cents);
  }

  /** A paid amount reads back as the cents it was written from. */
  lemma AmountReadBack(a: int)
    requires a > 0
    ensures ReadCents(AmountText(a)) == Some(a)
  {
    var w, cc := NatToString(a / 100), TwoDigitText(a % 100);
    DollarsReadBack(a / 100, a % 100);
    assert AmountText(a) == "$" + w + "." + cc;
    assert a / 100 * 100 + a % 100 == a;
  }

  /** The free and paid cells: "FREE"/"Free" exactly for a zero amount. */
  lemma FreeCells(a: int)
    ensures AmountText(a) == "FREE" <==> a == 0
    ensures TypeText(a) == "Free" <==> a == 0
  {
    if a != 0 {
      assert AmountText(a)[0] == '$';
    }
  }

  /** `parts.join(sep)` for a separator of any length. */
  function JoinWith(parts: seq<string>, sep: string): string
  {
    if |parts| == 0 then "" else if |parts| == 1 then parts[0] else parts[0] + sep + JoinWith(parts[1..], sep)
  }

  function NameOf(p: PluginJson.Plugin): string
  {
    p.name
  }

  /** `JSON.parse(plugins).map(p => p.name).join('; ')`; None when the stored
      text does not parse (the handler then throws). */
  function PluginNames(text: string): Option<string>
  {
    match PluginJson.Parse(text)
    case None => None
    case Some(ps) => Some(JoinWith(Map(ps, NameOf), "; "))
  }

  /** A stored plugin list shows its names in stored order. */
  lemma SavedPluginNames(ps: seq<PluginJson.Plugin>)
    ensures PluginNames(PluginJson.Serialize(ps)) == Some(JoinWith(Map(ps, NameOf), "; "))
  {
  }

  /** `[row.email, date, amount, plugins, type]`; the locale date is a parameter. */
  function Cells(row: ExportRow, formatDate: int -> string): Option<seq<string>>
  {
    match PluginNames(row.plugins)
    case None => None
    case Some(names) => Some([row.email, formatDate(row.createdAt), AmountText(row.amountTotal), names, TypeText(row.amountTotal)])
  }

  /** `result.rows.map(..)`: None as soon as one row's plugins do not parse. */
  function AllCells(rows: seq<ExportRow>, formatDate: int -> string): (r: Option<seq<seq<string>>>)
    ensures r.Some? <==> forall i :: 0 <= i < |rows| ==> Cells(rows[i], formatDate).Some?
    ensures r.Some? ==> |r.value| == |rows|
    ensures r.Some? ==> forall i :: 0 <= i < |rows| ==> Some(r.value[i]) == Cells(rows[i], formatDate)
  {
    if rows == [] then Some([])
    else
      var head := Cells(rows[0], formatDate);
      var tail := AllCells(rows[1..], formatDate);
      ConsCells(rows, (row: ExportRow) => Cells(row, formatDate), head, tail);
      if head.None? || tail.None? then None else Some([head.value] + tail.value)
  }

  /** Cons of one mapped element in front of an all-or-nothing map, for any
      partial mapping f. */
  lemma ConsCells<A, B>(xs: seq<A>, f: A -> Option<B>, head: Option<B>, tail: Option<seq<B>>)
    requires xs != [] && head == f(xs[0])
    requires tail.Some? <==> forall i :: 0 <= i < |xs| - 1 ==> f(xs[1..][i]).Some?
    requires tail.Some? ==> |tail.value| == |xs| - 1
    requires tail.Some? ==> forall i :: 0 <= i < |xs| - 1 ==> Some(tail.value[i]) == f(xs[1..][i])
    ensures head.Some? && tail.Some? <==> forall i :: 0 <= i < |xs| ==> f(xs[i]).Some?
    ensures head.Some? && tail.Some? ==>
      forall i :: 0 <= i < |xs| ==> Some(([head.value] + tail.value)[i]) == f(xs[i])
  {
    assert forall i :: 1 <= i < |xs| ==> xs[i] == xs[1..][i - 1];
  }

  // ---------------------------------------------------------------- the route

  datatype Reply = File(csv: string, filename: string) | Status(code: nat, error: string)

  const Header: seq<string> := ["Email", "Date", "Amount", "Plugins", "Type"]
  const Unauthorized := "Unauthorized"
  const Failed := "Failed to export emails"

  /** `password !== process.env.ADMIN_PASSWORD`: an absent parameter (null)
      never equals the variable, set or not. */
  predicate Authorized(password: Option<string>, adminPassword: Option<string>)
  {
    password.Some? && password == adminPassword
  }

  /** `new Date().toISOString().split('T')[0]`. */
  function FileName(marketingOnly: bool, isoNow: string): string
  {
    (if marketingOnly then "turnt-plugins-marketing-emails-" else "turnt-plugins-all-emails-")
    + Split(isoNow, 'T')[0] + ".csv"
  }

  /** The rows of the query the `marketing` parameter selects. */
  function Selected(table: seq<Purchase>, marketing: Option<string>): seq<ExportRow>
  {
    if marketing == Some("true") then MarketingOrders(table) else AllOrders(table)
  }

  /** GET /api/admin/export-emails. */
  method ExportEmailsRoute(table: seq<Purchase>, password: Option<string>, adminPassword: Option<string>,
                           marketing: Option<string>, formatDate: int -> string, isoNow: string)
    returns (reply: Reply)
    ensures !Authorized(password, adminPassword) ==> reply == Status(401, Unauthorized)
    ensures Authorized(password, adminPassword) ==>
      match AllCells(Selected(table, marketing), formatDate)
      case None => reply == Status(500, Failed)
      case Some(cells) =>
        reply == File(Csv.Document(Header, cells), FileName(marketing == Some("true"), isoNow))
  {
    if !Authorized(password, adminPassword) {
      return Status(401, Unauthorized);
    }
    var marketingOnly := marketing == Some("true");
    var rows := Selected(table, marketing);
    var cells := AllCells(rows, formatDate);
    if cells.None? {
      return Status(500, Failed);
    }
    var csv := Csv.Build(Header, cells.value);
    reply := File(csv, FileName(marketingOnly, isoNow));
  }
}
