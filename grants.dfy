/** The two download grants written per plugin, shared by processOrder, the
    free-download route and link regeneration: first the macOS row under the
    plugin's own id, then the Windows row under `<id>-windows`, both expiring
    three days after `now`. */
module Grants {
  import opened Wrappers
  import opened Text
  import opened Seqs
  import opened Catalogue
  import opened Store
  import PluginJson

  /** Three days in milliseconds; `setDate(getDate() + 3)` ignoring daylight saving. */
  const LinkLifetime: nat := 3 * 86_400_000

  function ExpiresAt(now: nat): (t: int)
    ensures t > now
  {
    now + LinkLifetime
  }

  /** One entry of `downloadLinks`, as the confirmation email receives it. */
  datatype DownloadLink = DownloadLink(pluginName: string, macDownloadUrl: string, windowsDownloadUrl: string)

  /** How a grant's URL is made from its plugin and platform. */
  type UrlMaker = (PluginJson.Plugin, Platform) -> string

  /** `generateSignedUrl(plugin.id, orderId.toString(), platform)` at time `now`. */
  function SignedUrls(appUrl: Option<string>, orderId: nat, now: nat): UrlMaker
  {
    (p: PluginJson.Plugin, platform: Platform) => SignedUrl(appUrl, p.id, NatToString(orderId), Some(platform), now)
  }

  function MacRow(orderId: nat, p: PluginJson.Plugin, expiresAt: int, url: UrlMaker): DownloadRow
  {
    DownloadRow(orderId, p.id, p.name, url(p, MacOS), expiresAt, 0)
  }

  function WindowsRow(orderId: nat, p: PluginJson.Plugin, expiresAt: int, url: UrlMaker): DownloadRow
  {
    DownloadRow(orderId, p.id + "-windows", p.name + " (Windows)", url(p, Windows), expiresAt, 0)
  }

  /** The rows the loop appends, plugin by plugin. */
  function GrantRows(orderId: nat, ps: seq<PluginJson.Plugin>, expiresAt: int, url: UrlMaker): (rows: seq<DownloadRow>)
    ensures |rows| == 2 * |ps|
  {
    if ps == [] then []
    else
      var last := ps[|ps| - 1];
      GrantRows(orderId, ps[..|ps| - 1], expiresAt, url) + [MacRow(orderId, last, expiresAt, url), WindowsRow(orderId, last, expiresAt, url)]
  }

  /** The links the loop pushes, plugin by plugin. */
  function Links(ps: seq<PluginJson.Plugin>, url: UrlMaker): (links: seq<DownloadLink>)
    ensures |links| == |ps|
  {
    if ps == [] then []
    else
      var last := ps[|ps| - 1];
      Links(ps[..|ps| - 1], url) + [DownloadLink(last.name, url(last, MacOS), url(last, Windows))]
  }

  /** Plugin i owns rows 2i (macOS: its own id and name) and 2i+1 (Windows:
      `-windows` and ` (Windows)` appended), each with the URL for its platform,
      the shared expiry and no downloads yet. */
  lemma {:induction false} GrantRowsShape(orderId: nat, ps: seq<PluginJson.Plugin>, expiresAt: int, url: UrlMaker)
    ensures var rows := GrantRows(orderId, ps, expiresAt, url);
      forall i :: 0 <= i < |ps| ==>
        rows[2 * i] == DownloadRow(orderId, ps[i].id, ps[i].name, url(ps[i], MacOS), expiresAt, 0)
        && rows[2 * i + 1] == DownloadRow(orderId, ps[i].id + "-windows", ps[i].name + " (Windows)", url(ps[i], Windows), expiresAt, 0)
  {
    if ps != [] {
      var init := ps[..|ps| - 1];
      GrantRowsShape(orderId, init, expiresAt, url);
      var rows := GrantRows(orderId, ps, expiresAt, url);
      var front := GrantRows(orderId, init, expiresAt, url);
      forall i | 0 <= i < |init|
        ensures rows[2 * i] == front[2 * i] && rows[2 * i + 1] == front[2 * i + 1] && init[i] == ps[i]
      {
      }
    }
  }

  /** Every row of the block belongs to the order, expires at the shared time
      and starts at zero downloads. */
  lemma GrantRowsOwner(orderId: nat, ps: seq<PluginJson.Plugin>, expiresAt: int, url: UrlMaker)
    ensures forall k :: 0 <= k < |GrantRows(orderId, ps, expiresAt, url)| ==>
      var row := GrantRows(orderId, ps, expiresAt, url)[k];
      row.orderId == orderId && row.expiresAt == expiresAt && row.downloadCount == 0
  {
    var rows := GrantRows(orderId, ps, expiresAt, url);
    GrantRowsShape(orderId, ps, expiresAt, url);
    forall k | 0 <= k < |rows|
      ensures rows[k].orderId == orderId && rows[k].expiresAt == expiresAt && rows[k].downloadCount == 0
    {
      var i := k / 2;
      assert k == 2 * i || k == 2 * i + 1;
    }
  }

  /** Link i names plugin i and carries the URLs of its two rows. */
  lemma {:induction false} LinksShape(ps: seq<PluginJson.Plugin>, url: UrlMaker)
    ensures var links := Links(ps, url);
      forall i :: 0 <= i < |ps| ==> links[i] == DownloadLink(ps[i].name, url(ps[i], MacOS), url(ps[i], Windows))
  {
    if ps != [] {
      var init := ps[..|ps| - 1];
      LinksShape(init, url);
      assert forall i :: 0 <= i < |init| ==> init[i] == ps[i];
    }
  }

  /** One more plugin adds its two rows and its link at the end. */
  lemma LoopStep(orderId: nat, ps: seq<PluginJson.Plugin>, i: nat, expiresAt: int, url: UrlMaker)
    requires i < |ps|
    ensures GrantRows(orderId, ps[..i + 1], expiresAt, url)
      == GrantRows(orderId, ps[..i], expiresAt, url) + [MacRow(orderId, ps[i], expiresAt, url), WindowsRow(orderId, ps[i], expiresAt, url)]
    ensures Links(ps[..i + 1], url) == Links(ps[..i], url) + [DownloadLink(ps[i].name, url(ps[i], MacOS), url(ps[i], Windows))]
  {
    assert ps[..i + 1][..i] == ps[..i];
  }

  /** The block of the first j plugins is the start of the whole block. */
  lemma {:induction false} GrantRowsPrefix(orderId: nat, ps: seq<PluginJson.Plugin>, j: nat, expiresAt: int, url: UrlMaker)
    requires j <= |ps|
    ensures GrantRows(orderId, ps[..j], expiresAt, url) == GrantRows(orderId, ps, expiresAt, url)[..2 * j]
    decreases |ps|
  {
    if j == |ps| {
      assert ps[..j] == ps;
    } else {
      var init := ps[..|ps| - 1];
      GrantRowsPrefix(orderId, init, j, expiresAt, url);
      assert init[..j] == ps[..j];
    }
  }

  // ---------------------------------------------------------------- column widths

  /** Whether a grant's plugin id and plugin name fit their VARCHAR(255) columns. */
  predicate RowFits(d: DownloadRow)
  {
    FitsColumn(d.pluginId) && FitsColumn(d.pluginName)
  }

  predicate AllFit(rows: seq<DownloadRow>)
  {
    forall k :: 0 <= k < |rows| ==> RowFits(rows[k])
  }

  /** What inserting the rows one by one leaves in the table when the first
      row that does not fit throws: the longest start whose rows all fit. */
  function Written(rows: seq<DownloadRow>): (w: seq<DownloadRow>)
    ensures |w| <= |rows| && w == rows[..|w|]
    ensures AllFit(w)
    ensures |w| < |rows| ==> !RowFits(rows[|w|])
    ensures w == rows <==> AllFit(rows)
  {
    if rows == [] then []
    else if RowFits(rows[0]) then
      var w := [rows[0]] + Written(rows[1..]);
      assert forall k :: 1 <= k < |rows| ==> rows[k] == rows[1..][k - 1];
      w
    else []
  }

  /** Rows that all fit are all written, and the inserts go on after them. */
  lemma {:induction false} WrittenAfterFitting(a: seq<DownloadRow>, b: seq<DownloadRow>)
    requires AllFit(a)
    ensures Written(a + b) == a + Written(b)
  {
    if a != [] {
      var ab := a + b;
      assert ab[0] == a[0] && ab[1..] == a[1..] + b;
      WrittenCons(ab);
      WrittenAfterFitting(a[1..], b);
      AppendAssoc([a[0]], a[1..], Written(b));
      assert a == [a[0]] + a[1..];
    } else {
      assert a + b == b;
    }
  }

  lemma WrittenCons(rows: seq<DownloadRow>)
    requires rows != [] && RowFits(rows[0])
    ensures Written(rows) == [rows[0]] + Written(rows[1..])
  {
  }

  /** An insert that throws ends the loop: nothing after it is written. */
  lemma {:induction false} WrittenStops(a: seq<DownloadRow>, b: seq<DownloadRow>)
    requires !AllFit(a)
    ensures Written(a + b) == Written(a)
  {
    if RowFits(a[0]) {
      assert (a + b)[0] == a[0];
      assert (a + b)[1..] == a[1..] + b;
      assert !AllFit(a[1..]) by {
        var k :| 0 <= k < |a| && !RowFits(a[k]);
        assert a[1..][k - 1] == a[k];
      }
      WrittenStops(a[1..], b);
    } else {
      assert (a + b)[0] == a[0];
    }
  }

  /** Whether both grants of a plugin fit: `<id>-windows` and `<name> (Windows)`
      are the longer of each pair. */
  predicate PluginFits(p: PluginJson.Plugin)
  {
    |p.id| + |"-windows"| <= ColumnWidth && |p.name| + |" (Windows)"| <= ColumnWidth
  }

  predicate GrantsFit(ps: seq<PluginJson.Plugin>)
  {
    forall i :: 0 <= i < |ps| ==> PluginFits(ps[i])
  }

  /** The whole block is written exactly when every plugin id is at most 247
      characters and every plugin name at most 245. */
  lemma GrantsFitRows(orderId: nat, ps: seq<PluginJson.Plugin>, expiresAt: int, url: UrlMaker)
    ensures AllFit(GrantRows(orderId, ps, expiresAt, url)) <==> GrantsFit(ps)
  {
    var rows := GrantRows(orderId, ps, expiresAt, url);
    GrantRowsShape(orderId, ps, expiresAt, url);
    if AllFit(rows) {
      forall i | 0 <= i < |ps|
        ensures PluginFits(ps[i])
      {
        assert RowFits(rows[2 * i + 1]);
      }
    }
    if GrantsFit(ps) {
      forall k | 0 <= k < |rows|
        ensures RowFits(rows[k])
      {
        var i := k / 2;
        assert k == 2 * i || k == 2 * i + 1;
        assert PluginFits(ps[i]);
      }
    }
  }

  /** Every row actually written belongs to the order, expires at the shared
      time and starts at zero downloads. */
  lemma WrittenOwner(orderId: nat, ps: seq<PluginJson.Plugin>, expiresAt: int, url: UrlMaker)
    ensures forall k :: 0 <= k < |Written(GrantRows(orderId, ps, expiresAt, url))| ==>
      var row := Written(GrantRows(orderId, ps, expiresAt, url))[k];
      row.orderId == orderId && row.expiresAt == expiresAt && row.downloadCount == 0
  {
    var rows := GrantRows(orderId, ps, expiresAt, url);
    var w := Written(rows);
    GrantRowsOwner(orderId, ps, expiresAt, url);
    forall k | 0 <= k < |w|
      ensures w[k].orderId == orderId && w[k].expiresAt == expiresAt && w[k].downloadCount == 0
    {
      assert w[k] == rows[k];
    }
  }

  // ---------------------------------------------------------------- the loop

  /** One pass of the loop: the macOS and the Windows grant of one plugin, and
      the link the email shows for it. None where an insert throws; a macOS
      insert that throws means no Windows insert. */
  method WritePluginGrants(db: Db, orderId: nat, plugin: PluginJson.Plugin, expiresAt: int, url: UrlMaker)
    returns (link: Option<DownloadLink>)
    requires db.Valid() && OrderExists(db.orders, orderId)
    modifies db
    ensures db.Valid()
    ensures db.orders == old(db.orders) && db.nextOrderId == old(db.nextOrderId)
    ensures db.downloads == old(db.downloads) + Written([MacRow(orderId, plugin, expiresAt, url), WindowsRow(orderId, plugin, expiresAt, url)])
    ensures link.Some? <==> AllFit([MacRow(orderId, plugin, expiresAt, url), WindowsRow(orderId, plugin, expiresAt, url)])
    ensures link.Some? ==> link.value == DownloadLink(plugin.name, url(plugin, MacOS), url(plugin, Windows))
  {
    var mac := MacRow(orderId, plugin, expiresAt, url);
    var windows := WindowsRow(orderId, plugin, expiresAt, url);
    var macDownloadUrl := url(plugin, MacOS);
    var windowsDownloadUrl := url(plugin, Windows);
    var ok := db.SaveDownloadLink(orderId, plugin.id, plugin.name, macDownloadUrl, expiresAt);
    if !ok {
      assert Written([mac, windows]) == [];
      return None;
    }
    assert Written([mac, windows]) == [mac] + Written([windows]);
    ok := db.SaveDownloadLink(orderId, plugin.id + "-windows", plugin.name + " (Windows)", windowsDownloadUrl, expiresAt);
    if !ok {
      return None;
    }
    link := Some(DownloadLink(plugin.name, macDownloadUrl, windowsDownloadUrl));
  }

  /** The `for (const plugin of plugins)` loop: two saveDownloadLink calls and one
      push per plugin. An insert that throws ends it (None), leaving the rows
      written until then. */
  method WriteGrants(db: Db, appUrl: Option<string>, orderId: nat, plugins: seq<PluginJson.Plugin>, now: nat)
    returns (links: Option<seq<DownloadLink>>)
    requires db.Valid() && OrderExists(db.orders, orderId)
    modifies db
    ensures db.Valid()
    ensures db.orders == old(db.orders) && db.nextOrderId == old(db.nextOrderId)
    ensures db.downloads == old(db.downloads) + Written(GrantRows(orderId, plugins, ExpiresAt(now), SignedUrls(appUrl, orderId, now)))
    ensures links.Some? <==> GrantsFit(plugins)
    ensures links.Some? ==> links.value == Links(plugins, SignedUrls(appUrl, orderId, now))
  {
    var url := SignedUrls(appUrl, orderId, now);
    var expiresAt := ExpiresAt(now);
    var acc := [];
    var i := 0;
    while i < |plugins|
      invariant 0 <= i <= |plugins|
      invariant db.Valid() && OrderExists(db.orders, orderId)
      invariant db.orders == old(db.orders) && db.nextOrderId == old(db.nextOrderId)
      invariant db.downloads == old(db.downloads) + GrantRows(orderId, plugins[..i], expiresAt, url)
      invariant AllFit(GrantRows(orderId, plugins[..i], expiresAt, url))
      invariant acc == Links(plugins[..i], url)
    {
      var link := WritePluginGrants(db, orderId, plugins[i], expiresAt, url);
      if link.None? {
        LoopStops(old(db.downloads), orderId, plugins, i, expiresAt, url);
        return None;
      }
      LoopGoesOn(old(db.downloads), orderId, plugins, i, expiresAt, url);
      acc := acc + [link.value];
      i := i + 1;
    }
    assert plugins[..|plugins|] == plugins;
    GrantsFitRows(orderId, plugins, expiresAt, url);
    links := Some(acc);
  }

  /** Where both inserts of plugin i succeed, the block so far grows by its pair
      and the links by its link. */
  lemma LoopGoesOn(base: seq<DownloadRow>, orderId: nat, ps: seq<PluginJson.Plugin>, i: nat, expiresAt: int, url: UrlMaker)
    requires i < |ps|
    requires AllFit(GrantRows(orderId, ps[..i], expiresAt, url))
    requires AllFit([MacRow(orderId, ps[i], expiresAt, url), WindowsRow(orderId, ps[i], expiresAt, url)])
    ensures GrantRows(orderId, ps[..i + 1], expiresAt, url)
      == GrantRows(orderId, ps[..i], expiresAt, url) + Written([MacRow(orderId, ps[i], expiresAt, url), WindowsRow(orderId, ps[i], expiresAt, url)])
    ensures AllFit(GrantRows(orderId, ps[..i + 1], expiresAt, url))
    ensures Links(ps[..i + 1], url) == Links(ps[..i], url) + [DownloadLink(ps[i].name, url(ps[i], MacOS), url(ps[i], Windows))]
    ensures base + GrantRows(orderId, ps[..i], expiresAt, url) + Written([MacRow(orderId, ps[i], expiresAt, url), WindowsRow(orderId, ps[i], expiresAt, url)])
      == base + GrantRows(orderId, ps[..i + 1], expiresAt, url)
  {
    var done := GrantRows(orderId, ps[..i], expiresAt, url);
    var pair := [MacRow(orderId, ps[i], expiresAt, url), WindowsRow(orderId, ps[i], expiresAt, url)];
    LoopStep(orderId, ps, i, expiresAt, url);
    AllFitAppend(done, pair);
    AppendAssoc(base, done, Written(pair));
  }

  /** Where an insert of plugin i throws: what is written of the whole block is
      the block of the plugins before it and what is written of its pair, and
      not every plugin fits. */
  lemma LoopStops(base: seq<DownloadRow>, orderId: nat, ps: seq<PluginJson.Plugin>, i: nat, expiresAt: int, url: UrlMaker)
    requires i < |ps|
    requires AllFit(GrantRows(orderId, ps[..i], expiresAt, url))
    requires !AllFit([MacRow(orderId, ps[i], expiresAt, url), WindowsRow(orderId, ps[i], expiresAt, url)])
    ensures Written(GrantRows(orderId, ps, expiresAt, url))
      == GrantRows(orderId, ps[..i], expiresAt, url) + Written([MacRow(orderId, ps[i], expiresAt, url), WindowsRow(orderId, ps[i], expiresAt, url)])
    ensures !GrantsFit(ps)
    ensures base + GrantRows(orderId, ps[..i], expiresAt, url) + Written([MacRow(orderId, ps[i], expiresAt, url), WindowsRow(orderId, ps[i], expiresAt, url)])
      == base + Written(GrantRows(orderId, ps, expiresAt, url))
  {
    var rows := GrantRows(orderId, ps, expiresAt, url);
    var done := GrantRows(orderId, ps[..i], expiresAt, url);
    var pair := [MacRow(orderId, ps[i], expiresAt, url), WindowsRow(orderId, ps[i], expiresAt, url)];
    LoopStep(orderId, ps, i, expiresAt, url);
    GrantRowsPrefix(orderId, ps, i + 1, expiresAt, url);
    WrittenStopsAt(rows, done, pair, 2 * i + 2);
    GrantsFitRows(orderId, ps, expiresAt, url);
    AppendAssoc(base, done, Written(pair));
  }

  /** Where the loop stops at the pair after `done`: what is written of the
      whole block is `done` and what is written of the pair. */
  lemma WrittenStopsAt(rows: seq<DownloadRow>, done: seq<DownloadRow>, pair: seq<DownloadRow>, n: nat)
    requires AllFit(done) && !AllFit(pair)
    requires n <= |rows| && rows[..n] == done + pair
    ensures Written(rows) == done + Written(pair) && !AllFit(rows)
  {
    assert rows == done + pair + rows[n..];
    AppendAssoc(done, pair, rows[n..]);
    WrittenAfterFitting(done, pair + rows[n..]);
    WrittenStops(pair, rows[n..]);
    var k :| 0 <= k < |pair| && !RowFits(pair[k]);
    assert rows[|done| + k] == pair[k];
  }

  lemma AllFitAppend(a: seq<DownloadRow>, b: seq<DownloadRow>)
    requires AllFit(a) && AllFit(b)
    ensures AllFit(a + b)
  {
  }

  /** After the old grants of an order are deleted and a new block is written,
      the order's grants are exactly the rows of the block that were written... */
  lemma RegrantOwn(downloads: seq<DownloadRow>, orderId: nat, ps: seq<PluginJson.Plugin>, expiresAt: int, url: UrlMaker)
    ensures GrantsOf(Filter(downloads, (d: DownloadRow) => d.orderId != orderId) + Written(GrantRows(orderId, ps, expiresAt, url)), orderId)
      == Written(GrantRows(orderId, ps, expiresAt, url))
  {
    var kept := Filter(downloads, (d: DownloadRow) => d.orderId != orderId);
    var block := Written(GrantRows(orderId, ps, expiresAt, url));
    var mine := (d: DownloadRow) => d.orderId == orderId;
    FilterAppend(kept, block, mine);
    FilterNone(kept, mine);
    WrittenOwner(orderId, ps, expiresAt, url);
    forall k | 0 <= k < |block|
      ensures mine(block[k])
    {
      assert block[k].orderId == orderId;
    }
    FilterAll(block, mine);
  }

  /** ...and every other order keeps exactly the grants it had. */
  lemma RegrantOthers(downloads: seq<DownloadRow>, orderId: nat, ps: seq<PluginJson.Plugin>, expiresAt: int, url: UrlMaker, other: nat)
    requires other != orderId
    ensures GrantsOf(Filter(downloads, (d: DownloadRow) => d.orderId != orderId) + Written(GrantRows(orderId, ps, expiresAt, url)), other)
      == GrantsOf(downloads, other)
  {
    var notMine := (d: DownloadRow) => d.orderId != orderId;
    var kept := Filter(downloads, notMine);
    var block := Written(GrantRows(orderId, ps, expiresAt, url));
    var theirs := (d: DownloadRow) => d.orderId == other;
    FilterAppend(kept, block, theirs);
    WrittenOwner(orderId, ps, expiresAt, url);
    FilterNone(block, theirs);
    FilterOfFilter(downloads, notMine, theirs);
  }

  /** An order that did not exist has no grants before its block is written,
      so afterwards its grants are exactly the rows of the block written. */
  lemma FreshOrderGrants(orders: seq<OrderRow>, downloads: seq<DownloadRow>, orderId: nat,
                         ps: seq<PluginJson.Plugin>, expiresAt: int, url: UrlMaker)
    requires GrantsReferenceOrders(orders, downloads) && !OrderExists(orders, orderId)
    ensures GrantsOf(downloads + Written(GrantRows(orderId, ps, expiresAt, url)), orderId) == Written(GrantRows(orderId, ps, expiresAt, url))
  {
    var block := Written(GrantRows(orderId, ps, expiresAt, url));
    var mine := (d: DownloadRow) => d.orderId == orderId;
    FilterAppend(downloads, block, mine);
    FilterNone(downloads, mine);
    WrittenOwner(orderId, ps, expiresAt, url);
    forall k | 0 <= k < |block|
      ensures mine(block[k])
    {
      assert block[k].orderId == orderId;
    }
    FilterAll(block, mine);
  }

  /** Filtering with a weaker test first does not change the result. */
  lemma {:induction false} FilterOfFilter(s: seq<DownloadRow>, p: DownloadRow -> bool, q: DownloadRow -> bool)
    requires forall d :: q(d) ==> p(d)
    ensures Filter(Filter(s, p), q) == Filter(s, q)
  {
    if s != [] {
      FilterOfFilter(s[1..], p, q);
    }
  }
}
