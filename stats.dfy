/** GET /api/admin/stats (app/api/admin/stats/route.ts): the dashboard figures,
    computed by five SQL queries over the two tables and converted with
    `parseInt` and `|| default`. SQL's SUM over no rows is NULL, which
    parseInt turns into NaN and the JSON answer into null. */
module Stats {
  import opened Wrappers
  import opened Text
  import opened Seqs
  import opened Store

  /** SUM(f) over the rows: NULL (None) when there are none. */
  function SqlSum<T>(rows: seq<T>, f: T -> int): Option<int>
  {
    if rows == [] then None else Some(Sum(rows, f))
  }

  /** `parseInt(x) || 0` for an aggregate that may be NULL. */
  function OrZero(v: Option<int>): int
  {
    if v.Some? then v.value else 0
  }

  function Indicator(p: OrderRow -> bool): OrderRow -> int
  {
    (o: OrderRow) => if p(o) then 1 else 0
  }

  predicate IsFree(o: OrderRow)
  {
    o.amountTotal == 0
  }

  predicate IsPaid(o: OrderRow)
  {
    o.amountTotal > 0
  }

  function Amount(o: OrderRow): int
  {
    o.amountTotal
  }

  function Email(o: OrderRow): string
  {
    o.email
  }

  function DownloadCount(d: DownloadRow): int
  {
    d.downloadCount
  }

  /** The `stats` object. `freeDownloads` and `paidOrders` are None where the
      answer carries null. */
  datatype Totals = Totals(totalOrders: nat, uniqueCustomers: nat, totalRevenue: int,
                           freeDownloads: Option<int>, paidOrders: Option<int>,
                           totalDownloads: int, marketingSubscribers: nat)

  /** The `stats` object as the route computes it: `free_downloads` and
      `paid_orders` are SUMs, so without `|| 0` they turn into null on an
      empty table. */
  function TotalsAsWritten(orders: seq<OrderRow>, downloads: seq<DownloadRow>): Totals
  {
    Totals(|orders|,
           |Distinct(Map(orders, Email))|,
           OrZero(SqlSum(orders, Amount)),
           SqlSum(orders, Indicator(IsFree)),
           SqlSum(orders, Indicator(IsPaid)),
           OrZero(SqlSum(downloads, DownloadCount)),
           |OptedInEmails(orders)|)
  }

  /** The `stats` object with `|| 0` on the two counts, as on every other
      aggregate of the route. */
  function OrderTotals(orders: seq<OrderRow>, downloads: seq<DownloadRow>): Totals
  {
    Totals(|orders|,
           |Distinct(Map(orders, Email))|,
           OrZero(SqlSum(orders, Amount)),
           Some(OrZero(SqlSum(orders, Indicator(IsFree)))),
           Some(OrZero(SqlSum(orders, Indicator(IsPaid)))),
           OrZero(SqlSum(downloads, DownloadCount)),
           |OptedInEmails(orders)|)
  }

  /** On an empty orders table the route answers null for both counts. */
  lemma EmptyTableNullCounts(downloads: seq<DownloadRow>)
    ensures TotalsAsWritten([], downloads).freeDownloads.None?
    ensures TotalsAsWritten([], downloads).paidOrders.None?
  {
  }

  /** With `|| 0` the counts are what their names say on every table: the free
      orders, the paid orders, and together with the remaining (negative)
      amounts all orders; revenue is the sum of the amounts, 0 for no orders;
      customers and subscribers are distinct emails, the subscribers among the
      customers. */
  lemma TotalsMeaning(orders: seq<OrderRow>, downloads: seq<DownloadRow>)
    ensures var t := OrderTotals(orders, downloads);
      && t.freeDownloads == Some(Count(orders, IsFree))
      && t.paidOrders == Some(Count(orders, IsPaid))
      && t.totalRevenue == Sum(orders, Amount)
      && t.totalDownloads == Sum(downloads, DownloadCount)
      && t.uniqueCustomers == |Elements(Map(orders, Email))|
      && t.marketingSubscribers <= t.uniqueCustomers <= t.totalOrders
  {
    SumIndicatorIsCount(orders, IsFree, Indicator(IsFree));
    SumIndicatorIsCount(orders, IsPaid, Indicator(IsPaid));
    var emails := Map(orders, Email);
    DistinctCard(emails);
    ElementsCard(emails);
    var opted := Map(OptedIn(orders), (o: OrderRow) => o.email);
    forall i | 0 <= i < |opted|
      ensures opted[i] in emails
    {
      var o := OptedIn(orders)[i];
      assert o in orders;
      var k :| 0 <= k < |orders| && orders[k] == o;
      assert emails[k] == opted[i];
    }
    DistinctSubset(opted, emails);
  }

  // ---------------------------------------------------------------- breakdowns

  /** One element of `providerBreakdown`. */
  datatype ProviderRow = ProviderRow(provider: string, orders: int, revenue: int)

  function Provider(o: OrderRow): Option<string>
  {
    o.provider
  }

  /** `payment_provider || 'unknown'`. */
  function ProviderLabel(p: Option<string>): string
  {
    if p.Some? && p.value != "" then p.value else "unknown"
  }

  function ProviderGroup(paid: seq<OrderRow>, p: Option<string>): ProviderRow
  {
    var group := Filter(paid, (o: OrderRow) => o.provider == p);
    ProviderRow(ProviderLabel(p), |group|, OrZero(SqlSum(group, Amount)))
  }

  /** `WHERE amount_total > 0 GROUP BY payment_provider`, one row per provider
      value in order of first appearance. */
  function ProviderBreakdown(orders: seq<OrderRow>): seq<ProviderRow>
  {
    var paid := Filter(orders, IsPaid);
    Map(Distinct(Map(paid, Provider)), (p: Option<string>) => ProviderGroup(paid, p))
  }

  function ProviderKeys(orders: seq<OrderRow>): seq<Option<string>>
  {
    Distinct(Map(Filter(orders, IsPaid), Provider))
  }

  /** The breakdown has one row per provider value that some paid order
      carries, and no other. */
  lemma ProviderKeysExact(orders: seq<OrderRow>, p: Option<string>)
    ensures |ProviderBreakdown(orders)| == |ProviderKeys(orders)|
    ensures p in ProviderKeys(orders) <==> exists i :: 0 <= i < |orders| && IsPaid(orders[i]) && orders[i].provider == p
  {
    var paid := Filter(orders, IsPaid);
    var provs := Map(paid, Provider);
    DistinctImageMembers(orders, IsPaid, Provider, paid, provs, ProviderKeys(orders));
  }

  /** Row k counts and sums exactly the paid orders of its provider, at least
      one; free orders count nowhere. */
  lemma ProviderRowTotals(orders: seq<OrderRow>, k: nat)
    requires k < |ProviderKeys(orders)|
    ensures var key := ProviderKeys(orders)[k];
      var group := Filter(Filter(orders, IsPaid), (o: OrderRow) => o.provider == key);
      && ProviderBreakdown(orders)[k] == ProviderRow(ProviderLabel(key), |group|, Sum(group, Amount))
      && |group| >= 1
      && (forall j :: 0 <= j < |group| ==> IsPaid(group[j]) && group[j].provider == key)
  {
    var paid := Filter(orders, IsPaid);
    var key := ProviderKeys(orders)[k];
    ProviderKeysExact(orders, key);
    GroupFacts(orders, paid, key, Filter(paid, (o: OrderRow) => o.provider == key));
  }

  lemma GroupFacts(orders: seq<OrderRow>, paid: seq<OrderRow>, key: Option<string>, group: seq<OrderRow>)
    requires paid == Filter(orders, IsPaid) && group == Filter(paid, (o: OrderRow) => o.provider == key)
    requires exists i :: 0 <= i < |orders| && IsPaid(orders[i]) && orders[i].provider == key
    ensures |group| >= 1
    ensures forall j :: 0 <= j < |group| ==> IsPaid(group[j]) && group[j].provider == key
  {
    var i :| 0 <= i < |orders| && IsPaid(orders[i]) && orders[i].provider == key;
    assert orders[i] in paid;
    var n :| 0 <= n < |paid| && paid[n] == orders[i];
    FilterNonEmpty(paid, (o: OrderRow) => o.provider == key, n);
    FilterTwiceMembers(orders, IsPaid, (o: OrderRow) => o.provider == key, paid, group);
  }

  /** One element of `pluginStats`. */
  datatype PluginStat = PluginStat(name: string, count: int)

  function StatCount(s: PluginStat): int
  {
    s.count
  }

  function PluginName(d: DownloadRow): string
  {
    d.pluginName
  }

  predicate MacGrant(d: DownloadRow)
  {
    !Contains(d.pluginName, "(Windows)")
  }

  /** COUNT(DISTINCT order_id) over one plugin name's grants. */
  function PluginStatOf(named: seq<DownloadRow>, name: string): PluginStat
  {
    var grants := Filter(named, (d: DownloadRow) => d.pluginName == name);
    PluginStat(name, |Distinct(Map(grants, (d: DownloadRow) => d.orderId))|)
  }

  /** `WHERE plugin_name NOT LIKE '%(Windows)%' GROUP BY plugin_name ORDER BY
      order_count DESC`; ties stay in order of first appearance. */
  function PluginPopularity(downloads: seq<DownloadRow>): seq<PluginStat>
  {
    SortDesc(PluginStats(downloads), StatCount)
  }

  function PluginStats(downloads: seq<DownloadRow>): seq<PluginStat>
  {
    var named := Filter(downloads, MacGrant);
    Map(Distinct(Map(named, PluginName)), (n: string) => PluginStatOf(named, n))
  }

  /** The popularity list is sorted by count and names each plugin once. */
  lemma PluginPopularitySorted(downloads: seq<DownloadRow>)
    ensures var r := PluginPopularity(downloads);
      && SortedDesc(r, StatCount)
      && (forall i, j :: 0 <= i < j < |r| ==> r[i].name != r[j].name)
  {
    var stats := PluginStats(downloads);
    assert PluginPopularity(downloads) == SortDesc(stats, StatCount);
    DistinctNoDuplicates(Map(Filter(downloads, MacGrant), PluginName));
    SortDescDistinctBy(stats, StatCount, (s: PluginStat) => s.name);
  }

  /** Every listed name is a non-Windows plugin name with at least one order. */
  lemma PluginPopularityMembers(downloads: seq<DownloadRow>, s: PluginStat)
    requires s in PluginPopularity(downloads)
    ensures !Contains(s.name, "(Windows)") && s.count >= 1
  {
    var i := SortDescSource(PluginStats(downloads), StatCount, s);
    PluginStatsMember(downloads, i);
  }

  lemma PluginStatsMember(downloads: seq<DownloadRow>, i: nat)
    requires i < |PluginStats(downloads)|
    ensures !Contains(PluginStats(downloads)[i].name, "(Windows)") && PluginStats(downloads)[i].count >= 1
  {
    var named := Filter(downloads, MacGrant);
    var names := Distinct(Map(named, PluginName));
    assert names[i] in Map(named, PluginName);
    NameOfSomeGrant(named, names[i]);
    var n :| 0 <= n < |named| && named[n].pluginName == names[i];
    assert MacGrant(named[n]);
    PluginStatCount(named, n);
  }

  lemma NameOfSomeGrant(named: seq<DownloadRow>, name: string)
    requires name in Map(named, PluginName)
    ensures exists n :: 0 <= n < |named| && named[n].pluginName == name
  {
    var names := Map(named, PluginName);
    var m :| 0 <= m < |names| && names[m] == name;
    assert names[m] == PluginName(named[m]);
  }

  /** A name some grant carries has at least one order. */
  lemma PluginStatCount(named: seq<DownloadRow>, n: nat)
    requires n < |named|
    ensures PluginStatOf(named, named[n].pluginName).count >= 1
  {
    var grants := Filter(named, (d: DownloadRow) => d.pluginName == named[n].pluginName);
    assert named[n] in grants;
    var m :| 0 <= m < |grants| && grants[m] == named[n];
    var ids := Map(grants, (d: DownloadRow) => d.orderId);
    assert ids[m] in Distinct(ids);
  }

  /** Every non-Windows grant's plugin name is listed. */
  lemma PluginPopularityCovers(downloads: seq<DownloadRow>, k: nat)
    requires k < |downloads| && MacGrant(downloads[k])
    ensures exists s :: s in PluginPopularity(downloads) && s.name == downloads[k].pluginName
  {
    var named := Filter(downloads, MacGrant);
    var names := Distinct(Map(named, PluginName));
    var stats := PluginStats(downloads);
    var i: nat;
    assert exists i :: 0 <= i < |names| && names[i] == downloads[k].pluginName by {
      assert downloads[k] in named;
      var n :| 0 <= n < |named| && named[n] == downloads[k];
      assert Map(named, PluginName)[n] in names;
    }
    i :| 0 <= i < |names| && names[i] == downloads[k].pluginName;
    assert stats[i].name == downloads[k].pluginName;
    assert stats[i] in SortDesc(stats, StatCount) by {
      SortDescMembers(stats, StatCount);
    }
  }

  // ---------------------------------------------------------------- recent orders

  /** One element of `recentOrders`. */
  datatype RecentOrder = RecentOrder(id: nat, email: string, amountTotal: int, plugins: string, createdAt: int,
                                     downloadCount: int, licenseKey: Option<string>, provider: string)

  function OrderCreatedAt(o: OrderRow): int
  {
    o.createdAt
  }

  function RecentCreatedAt(r: RecentOrder): int
  {
    r.createdAt
  }

  const RecentLimit: nat := 50

  /** One order with COALESCE(SUM(download_count), 0) over its grants,
      `license_key || undefined` and `payment_provider || 'stripe'`. */
  function RecentOf(downloads: seq<DownloadRow>, o: OrderRow): RecentOrder
  {
    RecentOrder(o.id, o.email, o.amountTotal, o.plugins, o.createdAt,
                Sum(GrantsOf(downloads, o.id), DownloadCount),
                if o.licenseKey.Some? && o.licenseKey.value != "" then o.licenseKey else None,
                if o.provider.Some? && o.provider.value != "" then o.provider.value else "stripe")
  }

  /** `ORDER BY o.created_at DESC LIMIT 50`. */
  function RecentOrders(orders: seq<OrderRow>, downloads: seq<DownloadRow>): seq<RecentOrder>
  {
    Map(Take(SortDesc(orders, OrderCreatedAt), RecentLimit), (o: OrderRow) => RecentOf(downloads, o))
  }

  /** At most 50 orders, newest first, each an order of the table with its
      download total; an order without grants shows 0 downloads. */
  lemma RecentOrdersShape(orders: seq<OrderRow>, downloads: seq<DownloadRow>)
    ensures var r := RecentOrders(orders, downloads);
      && |r| == (if |orders| < RecentLimit then |orders| else RecentLimit)
      && SortedDesc(r, RecentCreatedAt)
      && (forall k :: 0 <= k < |r| ==> exists i :: 0 <= i < |orders| && r[k] == RecentOf(downloads, orders[i]))
  {
    var sorted := SortDesc(orders, OrderCreatedAt);
    var top := Take(sorted, RecentLimit);
    var r := RecentOrders(orders, downloads);
    SortDescMembers(orders, OrderCreatedAt);
    forall i, j | 0 <= i < j < |r|
      ensures RecentCreatedAt(r[i]) >= RecentCreatedAt(r[j])
    {
      assert r[i].createdAt == sorted[i].createdAt && r[j].createdAt == sorted[j].createdAt;
    }
    forall k | 0 <= k < |r|
      ensures exists i :: 0 <= i < |orders| && r[k] == RecentOf(downloads, orders[i])
    {
      assert top[k] == sorted[k] && sorted[k] in orders;
      var i :| 0 <= i < |orders| && orders[i] == sorted[k];
    }
  }

  /** An order without grants shows 0 downloads; one with grants the sum of
      their counts. */
  lemma RecentDownloadCount(downloads: seq<DownloadRow>, o: OrderRow)
    ensures GrantsOf(downloads, o.id) == [] ==> RecentOf(downloads, o).downloadCount == 0
    ensures RecentOf(downloads, o).provider != ""
  {
  }

  /** The whole answer. */
  datatype Report = Report(stats: Totals, providerBreakdown: seq<ProviderRow>, pluginStats: seq<PluginStat>,
                           recentOrders: seq<RecentOrder>)

  /** GET /api/admin/stats, built on the corrected totals (OrderTotals with the
      `|| 0` fallbacks; see TotalsAsWritten for the route as written): the counts
      are counts, the popularity list is sorted, the recent list is newest first. */
  function StatsReport(orders: seq<OrderRow>, downloads: seq<DownloadRow>): (r: Report)
    ensures r.stats.freeDownloads == Some(Count(orders, IsFree))
    ensures r.stats.paidOrders == Some(Count(orders, IsPaid))
    ensures r.stats.totalRevenue == Sum(orders, Amount) && r.stats.totalOrders == |orders|
    ensures r.stats.marketingSubscribers <= r.stats.uniqueCustomers <= r.stats.totalOrders
    ensures |r.providerBreakdown| == |ProviderKeys(orders)|
    ensures SortedDesc(r.pluginStats, StatCount)
    ensures |r.recentOrders| <= RecentLimit && SortedDesc(r.recentOrders, RecentCreatedAt)
  {
    TotalsMeaning(orders, downloads);
    ProviderKeysExact(orders, None);
    PluginPopularitySorted(downloads);
    RecentOrdersShape(orders, downloads);
    Report(OrderTotals(orders, downloads), ProviderBreakdown(orders), PluginPopularity(downloads),
           RecentOrders(orders, downloads))
  }
}
