/** GET /api/admin/export-subscribers: the marketing subscribers as a CSV of
    email and subscription date, one line per subscriber in the order the
    store returns them. */
module ExportSubscribers {
  import opened Seqs
  import opened Text
  import opened Store
  import Csv

  datatype Reply = File(csv: string, filename: string)

  const Header: seq<string> := ["Email", "Subscribed Date"]

  /** `[row.email, new Date(row.subscribed_at).toLocaleDateString()]`; the
      locale date is a parameter. */
  function CellsOf(s: Subscriber, formatDate: int -> string): seq<string>
  {
    [s.email, formatDate(s.subscribedAt)]
  }

  function SubscriberCells(subscribers: seq<Subscriber>, formatDate: int -> string): (r: seq<seq<string>>)
    ensures |r| == |subscribers|
    ensures forall i :: 0 <= i < |r| ==> r[i] == CellsOf(subscribers[i], formatDate)
  {
    Map(subscribers, (s: Subscriber) => CellsOf(s, formatDate))
  }

  function FileName(isoNow: string): string
  {
    "marketing-subscribers-" + Split(isoNow, 'T')[0] + ".csv"
  }

  /** GET /api/admin/export-subscribers. */
  method ExportSubscribersRoute(db: Db, formatDate: int -> string, isoNow: string) returns (reply: Reply)
    ensures reply == File(Csv.Document(Header, SubscriberCells(Subscribers(db.orders), formatDate)), FileName(isoNow))
  {
    var subscribers := db.GetMarketingSubscribers();
    var csv := Csv.Build(Header, SubscriberCells(subscribers, formatDate));
    reply := File(csv, FileName(isoNow));
  }

  lemma HeaderLine()
    ensures Join(Header, ',') == "Email,Subscribed Date"
    ensures Csv.NoNewline(Header)
  {
    assert Header[1..] == ["Subscribed Date"];
  }

  lemma RowLine(s: Subscriber, formatDate: int -> string)
    ensures Csv.RowText(CellsOf(s, formatDate)) == "\"" + s.email + "\",\"" + formatDate(s.subscribedAt) + "\""
  {
    var quoted := Map(CellsOf(s, formatDate), Csv.Quote);
    assert quoted == [Csv.Quote(s.email), Csv.Quote(formatDate(s.subscribedAt))];
    assert quoted[1..] == [Csv.Quote(formatDate(s.subscribedAt))];
    assert Join(quoted, ',') == Csv.Quote(s.email) + [','] + Csv.Quote(formatDate(s.subscribedAt));
    assert "\"" + s.email + "\"" + [','] + "\"" + formatDate(s.subscribedAt) + "\""
      == "\"" + s.email + "\",\"" + formatDate(s.subscribedAt) + "\"";
  }

  lemma CellsNoNewline(subscribers: seq<Subscriber>, formatDate: int -> string, rows: seq<seq<string>>)
    requires forall i :: 0 <= i < |subscribers| ==>
      '\n' !in subscribers[i].email && '\n' !in formatDate(subscribers[i].subscribedAt)
    requires rows == SubscriberCells(subscribers, formatDate)
    ensures forall r :: 0 <= r < |rows| ==> Csv.NoNewline(rows[r])
  {
    forall r | 0 <= r < |rows|
      ensures Csv.NoNewline(rows[r])
    {
      assert rows[r] == [subscribers[r].email, formatDate(subscribers[r].subscribedAt)];
    }
  }

  /** The line of the i-th subscriber, once the document is known to split
      into the header line, the row lines and the empty rest. */
  lemma LineOf(subscribers: seq<Subscriber>, formatDate: int -> string, rows: seq<seq<string>>,
               lines: seq<string>, i: nat)
    requires rows == SubscriberCells(subscribers, formatDate) && i < |subscribers|
    requires lines == [Join(Header, ',')] + Map(rows, Csv.RowText) + [""]
    ensures lines[i + 1] == "\"" + subscribers[i].email + "\",\"" + formatDate(subscribers[i].subscribedAt) + "\""
  {
    assert lines[i + 1] == Csv.RowText(rows[i]);
    RowLine(subscribers[i], formatDate);
  }

  /** While no email or date holds a line break, the file has the header line
      and then exactly one line per subscriber, in order: each holds that
      subscriber's quoted email and date. */
  lemma OneLinePerSubscriber(subscribers: seq<Subscriber>, formatDate: int -> string, lines: seq<string>)
    requires forall i :: 0 <= i < |subscribers| ==>
      '\n' !in subscribers[i].email && '\n' !in formatDate(subscribers[i].subscribedAt)
    requires lines == Split(Csv.Document(Header, SubscriberCells(subscribers, formatDate)), '\n')
    ensures |lines| == |subscribers| + 2
    ensures lines[0] == "Email,Subscribed Date" && lines[|lines| - 1] == ""
    ensures forall i :: 0 <= i < |subscribers| ==>
      lines[i + 1] == "\"" + subscribers[i].email + "\",\"" + formatDate(subscribers[i].subscribedAt) + "\""
  {
    var rows := SubscriberCells(subscribers, formatDate);
    CellsNoNewline(subscribers, formatDate, rows);
    HeaderLine();
    Csv.DocumentLines(Header, rows);
    forall i | 0 <= i < |subscribers|
      ensures lines[i + 1] == "\"" + subscribers[i].email + "\",\"" + formatDate(subscribers[i].subscribedAt) + "\""
    {
      LineOf(subscribers, formatDate, rows, lines, i);
    }
  }
}
