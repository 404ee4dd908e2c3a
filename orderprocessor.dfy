/** processOrder, the fulfilment shared by the Stripe and PayPal paths: issue a
    VocalFelt key when the order contains plugin '7', save the order, write two
    grants per plugin and return the links. The confirmation email is sent
    inside a try/catch that swallows every failure, so it has no effect on the
    result or on the tables and is not modelled. */
module OrderProcessor {
  import opened Wrappers
  import opened Text
  import opened Seqs
  import opened Store
  import opened Grants
  import License
  import PluginJson

  datatype Provider = Stripe | PayPal

  /** The `payment_provider` column value. */
  function ProviderName(p: Provider): (s: string)
    ensures s == "stripe" || s == "paypal"
  {
    match p
    case Stripe => "stripe"
    case PayPal => "paypal"
  }

  datatype ProcessResult = ProcessResult(orderId: nat, downloadLinks: seq<DownloadLink>, licenseKey: Option<string>)

  /** `plugins.some((plugin) => plugin.id === id)`. */
  predicate HasPlugin(plugins: seq<PluginJson.Plugin>, id: string)
  {
    exists i :: 0 <= i < |plugins| && plugins[i].id == id
  }

  /** The id of VocalFelt, the one plugin sold with a license key. */
  const VocalFeltId := "7"

  /** The license key of an order: a fresh VocalFelt key from `draw` exactly when
      the order contains VocalFelt. */
  function LicenseFor(plugins: seq<PluginJson.Plugin>, draw: License.Draw): (k: Option<string>)
    ensures k.Some? <==> HasPlugin(plugins, VocalFeltId)
    ensures k.Some? ==> License.IsValid(License.VocalFelt, k.value)
    ensures k.Some? ==> !License.IsValid(License.TapeBloom, k.value)
  {
    if HasPlugin(plugins, VocalFeltId) then
      var key := License.Generate(License.VocalFelt, draw.p1, draw.p2, draw.p3);
      License.FamiliesDisjoint(key);
      Some(key)
    else None
  }

  /** ProcessOrderParams. `email` and `amountTotal` are None where the caller
      passes `undefined` or NaN. `discountCode` is accepted by processOrder but
      never used, so it is not a field here. */
  datatype Params = Params(email: Option<string>, provider: Provider, transactionId: string,
                           amountTotal: Option<int>, plugins: seq<PluginJson.Plugin>, marketingOptIn: bool)

  /** saveOrder accepts the order: the NOT NULL email, an amount that binds as
      an INTEGER, an email and a session id that fit their VARCHAR(255)
      columns, and a session id no order has yet. */
  predicate Accepted(orders: seq<OrderRow>, p: Params)
  {
    && p.email.Some? && p.amountTotal.Some? && InInt32(p.amountTotal.value)
    && FitsColumn(p.email.value) && FitsColumn(p.transactionId) && !SessionTaken(orders, p.transactionId)
  }

  /** The row saveOrder inserts for the order under id `id`. */
  function SavedRow(id: nat, p: Params, draw: License.Draw, now: nat): OrderRow
    requires p.email.Some? && p.amountTotal.Some?
  {
    OrderRow(id, p.email.value, p.transactionId, p.amountTotal.value, PluginJson.Serialize(p.plugins),
             p.marketingOptIn, LicenseFor(p.plugins, draw), None, Some(ProviderName(p.provider)), now)
  }

  /** The three parts of the store after processOrder, as functions of the
      store before it: one new order and the rows of its grant block written
      before any insert throws, or nothing when saveOrder throws (the SERIAL
      counter still moves when the amount bound). */
  function OrdersAfter(orders: seq<OrderRow>, next: nat, p: Params, draw: License.Draw, now: nat): seq<OrderRow>
  {
    if Accepted(orders, p) then orders + [SavedRow(next, p, draw, now)] else orders
  }

  function DownloadsAfter(orders: seq<OrderRow>, downloads: seq<DownloadRow>, next: nat, p: Params,
                          appUrl: Option<string>, now: nat): seq<DownloadRow>
  {
    if Accepted(orders, p) then downloads + Written(GrantRows(next, p.plugins, ExpiresAt(now), SignedUrls(appUrl, next, now)))
    else downloads
  }

  function NextAfter(next: nat, p: Params): nat
  {
    if p.amountTotal.Some? && InInt32(p.amountTotal.value) then next + 1 else next
  }

  /** processOrder. It returns None where saveOrder or a saveDownloadLink
      throws. `draw` stands for the three random segments and `now` for the
      clock. */
  method ProcessOrder(db: Db, p: Params, draw: License.Draw, appUrl: Option<string>, now: nat)
    returns (r: Option<ProcessResult>)
    requires db.Valid()
    modifies db
    ensures db.Valid()
    ensures r.Some? <==> Accepted(old(db.orders), p) && GrantsFit(p.plugins)
    ensures r.Some? ==>
      && r.value.orderId == old(db.nextOrderId) && !OrderExists(old(db.orders), r.value.orderId)
      && r.value.downloadLinks == Links(p.plugins, SignedUrls(appUrl, r.value.orderId, now))
      && r.value.licenseKey == LicenseFor(p.plugins, draw)
    ensures db.orders == OrdersAfter(old(db.orders), old(db.nextOrderId), p, draw, now)
    ensures db.downloads == DownloadsAfter(old(db.orders), old(db.downloads), old(db.nextOrderId), p, appUrl, now)
    ensures db.nextOrderId == NextAfter(old(db.nextOrderId), p)
  {
    var licenseKey := LicenseFor(p.plugins, draw);
    var orderId := db.SaveOrder(p.email, p.transactionId, p.amountTotal, p.plugins, p.marketingOptIn, licenseKey,
                                Some(ProviderName(p.provider)), now);
    if orderId.None? {
      return None;
    }
    assert OrderExists(db.orders, orderId.value) by {
      assert db.orders[|db.orders| - 1].id == orderId.value;
    }
    var links := WriteGrants(db, appUrl, orderId.value, p.plugins, now);
    if links.None? {
      return None;
    }
    r := Some(ProcessResult(orderId.value, links.value, licenseKey));
  }

  /** A second processOrder with a transaction id already on file fails at
      saveOrder: nothing is inserted and no grant is written. */
  lemma DuplicateTransactionRejected(orders: seq<OrderRow>, downloads: seq<DownloadRow>, next: nat, p: Params,
                                     draw: License.Draw, appUrl: Option<string>, now: nat)
    requires SessionTaken(orders, p.transactionId)
    ensures OrdersAfter(orders, next, p, draw, now) == orders
    ensures DownloadsAfter(orders, downloads, next, p, appUrl, now) == downloads
  {
  }

  /** After processOrder saves the order, its grants are the rows of its block
      written before any insert threw, and when every plugin fits, exactly two
      per plugin in cart order; no earlier grant can name an order id that did
      not exist. */
  lemma ProcessedOrderGrants(orders: seq<OrderRow>, downloads: seq<DownloadRow>, next: nat, p: Params,
                             appUrl: Option<string>, now: nat)
    requires GrantsReferenceOrders(orders, downloads) && !OrderExists(orders, next) && Accepted(orders, p)
    ensures GrantsOf(DownloadsAfter(orders, downloads, next, p, appUrl, now), next)
      == Written(GrantRows(next, p.plugins, ExpiresAt(now), SignedUrls(appUrl, next, now)))
    ensures GrantsFit(p.plugins) ==>
      (GrantsOf(DownloadsAfter(orders, downloads, next, p, appUrl, now), next)
       == GrantRows(next, p.plugins, ExpiresAt(now), SignedUrls(appUrl, next, now)))
  {
    FreshOrderGrants(orders, downloads, next, p.plugins, ExpiresAt(now), SignedUrls(appUrl, next, now));
    GrantsFitRows(next, p.plugins, ExpiresAt(now), SignedUrls(appUrl, next, now));
  }
}
