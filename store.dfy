/** The `orders` and `downloads` tables and the operations on them, held in
    memory. Each table is a sequence of rows in insertion order; the orders
    table's SERIAL id is the counter `nextOrderId`. */
module Store {
  import opened Wrappers
  import opened Seqs
  import PluginJson

  /** The range of a Postgres INTEGER column. */
  predicate InInt32(v: int)
  {
    -0x8000_0000 <= v <= 0x7FFF_FFFF
  }

  /** The width of the VARCHAR(255) columns, counted in characters. */
  const ColumnWidth: nat := 255

  /** Whether a text fits a VARCHAR(255) column. */
  predicate FitsColumn(s: string)
  {
    |s| <= ColumnWidth
  }

  /** A row of `orders`. `plugins` is the stored JSON text of the plugin list;
      `createdAt` is the time of the insert. */
  datatype OrderRow = OrderRow(
    id: nat,
    email: string,
    sessionId: string,
    amountTotal: int,
    plugins: string,
    marketingOptIn: bool,
    licenseKey: Option<string>,
    tapeBloomKey: Option<string>,
    provider: Option<string>,
    createdAt: int)

  /** A row of `downloads`: one grant of one installer of one order. */
  datatype DownloadRow = DownloadRow(
    orderId: nat,
    pluginId: string,
    pluginName: string,
    downloadUrl: string,
    expiresAt: int,
    downloadCount: int)

  // ---------------------------------------------------------------- table predicates

  predicate OrderExists(rows: seq<OrderRow>, id: int)
  {
    exists i :: 0 <= i < |rows| && rows[i].id == id
  }

  predicate SessionTaken(rows: seq<OrderRow>, sessionId: string)
  {
    exists i :: 0 <= i < |rows| && rows[i].sessionId == sessionId
  }

  /** PRIMARY KEY on id and UNIQUE on stripe_session_id. */
  predicate KeysUnique(rows: seq<OrderRow>)
  {
    forall i, j :: 0 <= i < j < |rows| ==> rows[i].id != rows[j].id && rows[i].sessionId != rows[j].sessionId
  }

  /** `order_id INTEGER REFERENCES orders(id)`. */
  predicate GrantsReferenceOrders(orders: seq<OrderRow>, downloads: seq<DownloadRow>)
  {
    forall k :: 0 <= k < |downloads| ==> OrderExists(orders, downloads[k].orderId)
  }

  /** Appending a row under the next id with a fresh session id keeps both
      keys unique, keeps every id below the new counter and keeps every grant's
      order. */
  lemma AppendKeepsTableValid(orders: seq<OrderRow>, downloads: seq<DownloadRow>, next: nat, row: OrderRow)
    requires KeysUnique(orders) && (forall i :: 0 <= i < |orders| ==> 1 <= orders[i].id < next)
    requires GrantsReferenceOrders(orders, downloads)
    requires row.id == next && 1 <= next && !SessionTaken(orders, row.sessionId)
    ensures !OrderExists(orders, row.id)
    ensures KeysUnique(orders + [row]) && (forall i :: 0 <= i < |orders| + 1 ==> 1 <= (orders + [row])[i].id < next + 1)
    ensures GrantsReferenceOrders(orders + [row], downloads)
  {
    var after := orders + [row];
    forall i | 0 <= i < |after|
      ensures 1 <= after[i].id < next + 1
      ensures i < |orders| ==> after[i] == orders[i] && after[i].id != row.id && after[i].sessionId != row.sessionId
    {
    }
    forall k | 0 <= k < |downloads|
      ensures OrderExists(after, downloads[k].orderId)
    {
      var i :| 0 <= i < |orders| && orders[i].id == downloads[k].orderId;
      assert after[i] == orders[i];
    }
  }

  // ---------------------------------------------------------------- row updates

  predicate GrantMatches(d: DownloadRow, orderId: int, pluginId: string)
  {
    d.orderId == orderId && d.pluginId == pluginId
  }

  /** `SET download_count = download_count + 1 WHERE order_id = .. AND plugin_id = ..`. */
  function Bumped(rows: seq<DownloadRow>, orderId: int, pluginId: string): (r: seq<DownloadRow>)
    ensures |r| == |rows|
    ensures forall k :: 0 <= k < |rows| ==>
      r[k] == if GrantMatches(rows[k], orderId, pluginId)
              then rows[k].(downloadCount := rows[k].downloadCount + 1) else rows[k]
  {
    if rows == [] then []
    else
      var d := rows[0];
      var d' := if GrantMatches(d, orderId, pluginId) then d.(downloadCount := d.downloadCount + 1) else d;
      [d'] + Bumped(rows[1..], orderId, pluginId)
  }

  /** `SET tape_bloom_license_key = key WHERE id = orderId`. */
  function WithTapeBloomKey(rows: seq<OrderRow>, orderId: int, key: string): (r: seq<OrderRow>)
    ensures |r| == |rows|
    ensures forall k :: 0 <= k < |rows| ==>
      r[k] == if rows[k].id == orderId then rows[k].(tapeBloomKey := Some(key)) else rows[k]
  {
    if rows == [] then []
    else
      var o := rows[0];
      [if o.id == orderId then o.(tapeBloomKey := Some(key)) else o] + WithTapeBloomKey(rows[1..], orderId, key)
  }

  /** `SET email = newEmail WHERE LOWER(email) = oldEmail`, with `toLower` for
      the database's lower-casing. */
  function WithEmail(rows: seq<OrderRow>, toLower: string -> string, oldEmail: string, newEmail: string): (r: seq<OrderRow>)
    ensures |r| == |rows|
    ensures forall k :: 0 <= k < |rows| ==>
      r[k] == if toLower(rows[k].email) == oldEmail then rows[k].(email := newEmail) else rows[k]
  {
    if rows == [] then []
    else
      var o := rows[0];
      [if toLower(o.email) == oldEmail then o.(email := newEmail) else o] + WithEmail(rows[1..], toLower, oldEmail, newEmail)
  }

  /** `WHERE LOWER(email) = e` as a row test. */
  function EmailIs(toLower: string -> string, e: string): OrderRow -> bool
  {
    (o: OrderRow) => toLower(o.email) == e
  }

  /** The first row with the given id. */
  function FindOrder(rows: seq<OrderRow>, id: int): (r: Option<OrderRow>)
    ensures r.Some? <==> OrderExists(rows, id)
    ensures r.Some? ==> r.value in rows && r.value.id == id
  {
    if rows == [] then None
    else if rows[0].id == id then Some(rows[0])
    else
      var r := FindOrder(rows[1..], id);
      assert OrderExists(rows, id) ==> rows[0].id == id || OrderExists(rows[1..], id) by {
        if OrderExists(rows, id) && rows[0].id != id {
          var i :| 0 <= i < |rows| && rows[i].id == id;
          assert rows[1..][i - 1] == rows[i];
        }
      }
      assert OrderExists(rows[1..], id) ==> OrderExists(rows, id) by {
        if OrderExists(rows[1..], id) {
          var i :| 0 <= i < |rows[1..]| && rows[1..][i].id == id;
          assert rows[i + 1] == rows[1..][i];
        }
      }
      r
  }

  /** The first row with the given session id. */
  function FindSession(rows: seq<OrderRow>, sessionId: string): (r: Option<OrderRow>)
    ensures r.Some? <==> SessionTaken(rows, sessionId)
    ensures r.Some? ==> r.value in rows && r.value.sessionId == sessionId
  {
    if rows == [] then None
    else if rows[0].sessionId == sessionId then Some(rows[0])
    else
      var r := FindSession(rows[1..], sessionId);
      assert SessionTaken(rows, sessionId) ==> rows[0].sessionId == sessionId || SessionTaken(rows[1..], sessionId) by {
        if SessionTaken(rows, sessionId) && rows[0].sessionId != sessionId {
          var i :| 0 <= i < |rows| && rows[i].sessionId == sessionId;
          assert rows[1..][i - 1] == rows[i];
        }
      }
      assert SessionTaken(rows[1..], sessionId) ==> SessionTaken(rows, sessionId) by {
        if SessionTaken(rows[1..], sessionId) {
          var i :| 0 <= i < |rows[1..]| && rows[1..][i].sessionId == sessionId;
          assert rows[i + 1] == rows[1..][i];
        }
      }
      r
  }

  // ---------------------------------------------------------------- getOrdersByEmail

  /** One element of the `downloads` array json_agg builds; the LEFT JOIN of an
      order without grants contributes one element whose fields are all null. */
  datatype GrantView =
    | Grant(pluginId: string, pluginName: string, downloadUrl: string, expiresAt: int, downloadCount: int)
    | NullGrant

  function GrantOf(d: DownloadRow): GrantView
  {
    Grant(d.pluginId, d.pluginName, d.downloadUrl, d.expiresAt, d.downloadCount)
  }

  /** An order as getOrdersByEmail returns it, with its grants. */
  datatype OrderView = OrderView(
    id: nat,
    email: string,
    sessionId: string,
    amountTotal: int,
    plugins: string,
    createdAt: int,
    tapeBloomKey: Option<string>,
    downloads: seq<GrantView>)

  function GrantsOf(downloads: seq<DownloadRow>, orderId: nat): seq<DownloadRow>
  {
    Filter(downloads, (d: DownloadRow) => d.orderId == orderId)
  }

  function ViewOf(o: OrderRow, downloads: seq<DownloadRow>): (v: OrderView)
    ensures v.id == o.id && v.email == o.email && v.createdAt == o.createdAt && v.plugins == o.plugins
    ensures v.tapeBloomKey == o.tapeBloomKey
    ensures GrantsOf(downloads, o.id) == [] ==> v.downloads == [NullGrant]
    ensures GrantsOf(downloads, o.id) != [] ==> v.downloads == Map(GrantsOf(downloads, o.id), GrantOf)
  {
    var gs := GrantsOf(downloads, o.id);
    OrderView(o.id, o.email, o.sessionId, o.amountTotal, o.plugins, o.createdAt, o.tapeBloomKey,
      if gs == [] then [NullGrant] else Map(gs, GrantOf))
  }

  function CreatedAt(v: OrderView): int
  {
    v.createdAt
  }

  /** `WHERE o.email = $1`. */
  function HasEmail(email: string): OrderRow -> bool
  {
    (o: OrderRow) => o.email == email
  }

  /** The row `SELECT ... LEFT JOIN downloads ... GROUP BY o.id` gives an order. */
  function ViewIn(downloads: seq<DownloadRow>): OrderRow -> OrderView
  {
    (o: OrderRow) => ViewOf(o, downloads)
  }

  /** `WHERE o.email = email GROUP BY o.id ORDER BY o.created_at DESC`:
      exactly the orders with that email, newest first, each with all of its
      grants (or the single null entry when it has none). Each such order
      appears once, so there are as many views as matching orders. */
  function OrdersByEmail(orders: seq<OrderRow>, downloads: seq<DownloadRow>, email: string): (r: seq<OrderView>)
    ensures SortedDesc(r, CreatedAt)
    ensures forall v :: v in r <==> exists i :: 0 <= i < |orders| && orders[i].email == email && v == ViewOf(orders[i], downloads)
    ensures multiset(r) == multiset(Map(Filter(orders, HasEmail(email)), ViewIn(downloads)))
    ensures |r| == Count(orders, HasEmail(email))
  {
    var mine := Filter(orders, HasEmail(email));
    var views := Map(mine, ViewIn(downloads));
    MapFilterMembers(orders, HasEmail(email), ViewIn(downloads), mine, views);
    SortDescMembers(views, CreatedAt);
    CountIsFilterLength(orders, HasEmail(email));
    SortDesc(views, CreatedAt)
  }

  // ---------------------------------------------------------------- getMarketingSubscribers

  datatype Subscriber = Subscriber(email: string, subscribedAt: int)

  function SubscribedAt(s: Subscriber): int
  {
    s.subscribedAt
  }

  function OptedIn(orders: seq<OrderRow>): seq<OrderRow>
  {
    Filter(orders, (o: OrderRow) => o.marketingOptIn)
  }

  /** MAX(created_at) over the opted-in orders of one email. */
  function LatestOptIn(orders: seq<OrderRow>, email: string): int
  {
    MaxOf(Filter(OptedIn(orders), (o: OrderRow) => o.email == email), (o: OrderRow) => o.createdAt, 0)
  }

  /** The opted-in emails, each once, in order of first appearance. */
  function OptedInEmails(orders: seq<OrderRow>): seq<string>
  {
    Distinct(Map(OptedIn(orders), (o: OrderRow) => o.email))
  }

  function SubscriberRows(orders: seq<OrderRow>): seq<Subscriber>
  {
    Map(OptedInEmails(orders), (e: string) => Subscriber(e, LatestOptIn(orders, e)))
  }

  lemma OptedInEmailsExact(orders: seq<OrderRow>, e: string)
    ensures e in OptedInEmails(orders) <==> exists i :: 0 <= i < |orders| && orders[i].marketingOptIn && orders[i].email == e
  {
    var ins := OptedIn(orders);
    var m := Map(ins, (o: OrderRow) => o.email);
    DistinctImageMembers(orders, (o: OrderRow) => o.marketingOptIn, (o: OrderRow) => o.email, ins, m, OptedInEmails(orders));
  }

  lemma SubscriberRowsDistinct(orders: seq<OrderRow>)
    ensures var rows := SubscriberRows(orders);
      forall i, j :: 0 <= i < j < |rows| ==> rows[i].email != rows[j].email
  {
    DistinctNoDuplicates(Map(OptedIn(orders), (o: OrderRow) => o.email));
  }

  /** A list made of one (email, f(email)) entry per listed email holds exactly
      those pairs. */
  lemma PairsExact(emails: seq<string>, rows: seq<Subscriber>, f: string -> int)
    requires |rows| == |emails|
    requires forall k :: 0 <= k < |rows| ==> rows[k] == Subscriber(emails[k], f(emails[k]))
    ensures forall s :: s in rows <==> s.email in emails && s.subscribedAt == f(s.email)
  {
    forall s
      ensures s in rows <==> s.email in emails && s.subscribedAt == f(s.email)
    {
      if s.email in emails && s.subscribedAt == f(s.email) {
        var k :| 0 <= k < |emails| && emails[k] == s.email;
        assert rows[k] == s;
      }
    }
  }

  lemma SubscriberRowsExact(orders: seq<OrderRow>)
    ensures var rows := SubscriberRows(orders);
      forall s :: s in rows <==> s.email in OptedInEmails(orders) && s.subscribedAt == LatestOptIn(orders, s.email)
  {
    PairsExact(OptedInEmails(orders), SubscriberRows(orders), (e: string) => LatestOptIn(orders, e));
  }

  lemma SubscribersDistinct(orders: seq<OrderRow>, r: seq<Subscriber>)
    requires r == SortDesc(SubscriberRows(orders), SubscribedAt)
    ensures forall i, j :: 0 <= i < j < |r| ==> r[i].email != r[j].email
  {
    SubscriberRowsDistinct(orders);
    SortDescDistinctBy(SubscriberRows(orders), SubscribedAt, (x: Subscriber) => x.email);
  }

  lemma SubscribersMembers(orders: seq<OrderRow>, r: seq<Subscriber>, s: Subscriber)
    requires r == SortDesc(SubscriberRows(orders), SubscribedAt)
    ensures s in r <==>
      (exists i :: 0 <= i < |orders| && orders[i].marketingOptIn && orders[i].email == s.email)
      && s.subscribedAt == LatestOptIn(orders, s.email)
  {
    SubscriberRowsExact(orders);
    SortDescMembers(SubscriberRows(orders), SubscribedAt);
    OptedInEmailsExact(orders, s.email);
  }

  /** `SELECT DISTINCT email, MAX(created_at) ... WHERE marketing_opt_in = true
      GROUP BY email ORDER BY subscribed_at DESC`: each opted-in email exactly
      once, paired with the time of its latest opted-in order, latest first, and
      no other email. */
  function Subscribers(orders: seq<OrderRow>): (r: seq<Subscriber>)
    ensures SortedDesc(r, SubscribedAt)
    ensures forall i, j :: 0 <= i < j < |r| ==> r[i].email != r[j].email
    ensures forall s :: s in r <==>
      (exists i :: 0 <= i < |orders| && orders[i].marketingOptIn && orders[i].email == s.email)
      && s.subscribedAt == LatestOptIn(orders, s.email)
  {
    var r := SortDesc(SubscriberRows(orders), SubscribedAt);
    SubscribersDistinct(orders, r);
    forall s
      ensures s in r <==>
        (exists i :: 0 <= i < |orders| && orders[i].marketingOptIn && orders[i].email == s.email)
        && s.subscribedAt == LatestOptIn(orders, s.email)
    {
      SubscribersMembers(orders, r, s);
    }
    r
  }

  // ---------------------------------------------------------------- the database

  class Db {
    var orders: seq<OrderRow>
    var downloads: seq<DownloadRow>
    /** The next value of the orders id sequence. */
    var nextOrderId: nat

    ghost predicate Valid()
      reads this
    {
      KeysUnique(orders)
      && 1 <= nextOrderId
      && (forall i :: 0 <= i < |orders| ==> 1 <= orders[i].id < nextOrderId)
      && GrantsReferenceOrders(orders, downloads)
    }

    constructor ()
      ensures Valid()
      ensures orders == [] && downloads == [] && nextOrderId == 1
    {
      orders := [];
      downloads := [];
      nextOrderId := 1;
    }

    /** saveOrder(email, sessionId, amount, plugins, optIn, licenseKey, provider).
        An undefined email breaks NOT NULL, an email or session id longer than
        its VARCHAR(255) column is refused, a taken session id breaks UNIQUE,
        and an amount that is NaN or beyond INTEGER cannot be bound at all. All
        but the last are found after the id has been drawn from the sequence. */
    method SaveOrder(email: Option<string>, sessionId: string, amount: Option<int>,
                     plugins: seq<PluginJson.Plugin>, marketingOptIn: bool,
                     licenseKey: Option<string>, provider: Option<string>, now: int)
      returns (id: Option<nat>)
      requires Valid()
      modifies this
      ensures Valid()
      ensures downloads == old(downloads)
      ensures id.Some? <==>
        && email.Some? && amount.Some? && InInt32(amount.value)
        && FitsColumn(email.value) && FitsColumn(sessionId) && !SessionTaken(old(orders), sessionId)
      ensures id.Some? ==> id.value == old(nextOrderId) && !OrderExists(old(orders), id.value)
      ensures id.Some? ==> orders == old(orders) + [OrderRow(id.value, email.value, sessionId, amount.value,
        PluginJson.Serialize(plugins), marketingOptIn, licenseKey, None, provider, now)]
      ensures id.None? ==> orders == old(orders)
      ensures nextOrderId == if amount.Some? && InInt32(amount.value) then old(nextOrderId) + 1 else old(nextOrderId)
    {
      if amount.None? || !InInt32(amount.value) {
        return None;
      }
      var newId := nextOrderId;
      nextOrderId := nextOrderId + 1;
      if email.None? || !FitsColumn(email.value) || !FitsColumn(sessionId) || FindSession(orders, sessionId).Some? {
        return None;
      }
      var row := OrderRow(newId, email.value, sessionId, amount.value, PluginJson.Serialize(plugins),
        marketingOptIn, licenseKey, None, provider, now);
      AppendKeepsTableValid(orders, downloads, newId, row);
      orders := orders + [row];
      id := Some(newId);
    }

    /** saveDownloadLink: appends one grant with a zero count; the foreign key
        rejects a grant for an order that does not exist, and a plugin id or
        name longer than its VARCHAR(255) column is refused. */
    method SaveDownloadLink(orderId: nat, pluginId: string, pluginName: string, downloadUrl: string, expiresAt: int)
      returns (ok: bool)
      requires Valid()
      modifies this
      ensures Valid()
      ensures orders == old(orders) && nextOrderId == old(nextOrderId)
      ensures ok <==> OrderExists(orders, orderId) && FitsColumn(pluginId) && FitsColumn(pluginName)
      ensures ok ==> downloads == old(downloads) + [DownloadRow(orderId, pluginId, pluginName, downloadUrl, expiresAt, 0)]
      ensures !ok ==> downloads == old(downloads)
    {
      if FindOrder(orders, orderId).None? || !FitsColumn(pluginId) || !FitsColumn(pluginName) {
        return false;
      }
      downloads := downloads + [DownloadRow(orderId, pluginId, pluginName, downloadUrl, expiresAt, 0)];
      ok := true;
    }

    /** getOrdersByEmail: a read-only view of both tables. */
    method GetOrdersByEmail(email: string) returns (views: seq<OrderView>)
      ensures views == OrdersByEmail(orders, downloads, email)
      ensures multiset(views) == multiset(Map(Filter(orders, HasEmail(email)), ViewIn(downloads)))
      ensures |views| == Count(orders, HasEmail(email))
    {
      views := OrdersByEmail(orders, downloads, email);
    }

    /** getMarketingSubscribers: a read-only query of the orders table. */
    method GetMarketingSubscribers() returns (subscribers: seq<Subscriber>)
      ensures subscribers == Subscribers(orders)
    {
      subscribers := Subscribers(orders);
    }

    /** incrementDownloadCount(orderId, pluginId). */
    method IncrementDownloadCount(orderId: int, pluginId: string)
      requires Valid()
      modifies this
      ensures Valid()
      ensures orders == old(orders) && nextOrderId == old(nextOrderId)
      ensures downloads == Bumped(old(downloads), orderId, pluginId)
    {
      downloads := Bumped(downloads, orderId, pluginId);
    }

    /** updateTapeBloomLicenseKey(orderId, key), and the admin route's UPDATE of
        the same column. */
    method UpdateTapeBloomLicenseKey(orderId: int, key: string)
      requires Valid()
      modifies this
      ensures Valid()
      ensures downloads == old(downloads) && nextOrderId == old(nextOrderId)
      ensures orders == WithTapeBloomKey(old(orders), orderId, key)
    {
      var before := orders;
      orders := WithTapeBloomKey(orders, orderId, key);
      SameKeysValid(before, orders, downloads);
    }

    /** updateOrderEmail(oldEmail, newEmail): renames every order placed under
        oldEmail in any letter case and returns how many there were. */
    method UpdateOrderEmail(toLower: string -> string, oldEmail: string, newEmail: string) returns (count: nat)
      requires Valid()
      modifies this
      ensures Valid()
      ensures downloads == old(downloads) && nextOrderId == old(nextOrderId)
      ensures orders == WithEmail(old(orders), toLower, oldEmail, newEmail)
      ensures count == Count(old(orders), EmailIs(toLower, oldEmail))
    {
      var before := orders;
      count := Count(orders, EmailIs(toLower, oldEmail));
      orders := WithEmail(orders, toLower, oldEmail, newEmail);
      SameKeysValid(before, orders, downloads);
    }

    /** `DELETE FROM downloads WHERE order_id = orderId`. */
    method DeleteDownloadsOf(orderId: nat)
      requires Valid()
      modifies this
      ensures Valid()
      ensures orders == old(orders) && nextOrderId == old(nextOrderId)
      ensures downloads == Filter(old(downloads), (d: DownloadRow) => d.orderId != orderId)
    {
      downloads := Filter(downloads, (d: DownloadRow) => d.orderId != orderId);
    }
  }

  /** Rewriting columns other than the keys keeps the table valid. */
  lemma SameKeysValid(before: seq<OrderRow>, after: seq<OrderRow>, downloads: seq<DownloadRow>)
    requires |before| == |after|
    requires forall k :: 0 <= k < |before| ==> after[k].id == before[k].id && after[k].sessionId == before[k].sessionId
    requires KeysUnique(before) && GrantsReferenceOrders(before, downloads)
    ensures KeysUnique(after) && GrantsReferenceOrders(after, downloads)
  {
    forall k | 0 <= k < |downloads|
      ensures OrderExists(after, downloads[k].orderId)
    {
      var i :| 0 <= i < |before| && before[i].id == downloads[k].orderId;
      assert after[i].id == downloads[k].orderId;
    }
  }
}
