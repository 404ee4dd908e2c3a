/** POST /api/regenerate-links: replace every grant of one order with a fresh
    block (two rows per plugin of the stored plugin list) expiring three days
    from now. An insert that throws leaves the rows written until then and
    answers 500. */
module Regenerate {
  import opened Wrappers
  import opened Seqs
  import opened Store
  import opened Grants
  import PluginJson

  datatype Reply = Regenerated(expiresAt: int) | Status(code: nat, error: string)

  const IdRequired := "Order ID is required"
  const OrderNotFound := "Order not found"
  const Failed := "Failed to regenerate download links"

  /** What the route decides before it writes. */
  datatype Plan = Refuse(code: nat, error: string) | Rewrite(orderId: nat, plugins: seq<PluginJson.Plugin>)

  /** `!orderId` (absent or 0) gives 400; an id outside the INTEGER range makes
      the SELECT throw (500); no row gives 404; stored plugins that JSON.parse
      rejects throw before the DELETE (500). */
  function Decide(orders: seq<OrderRow>, orderId: Option<int>): (p: Plan)
    ensures orderId.None? || orderId == Some(0) ==> p == Refuse(400, IdRequired)
    ensures p.Rewrite? ==> orderId == Some(p.orderId) && OrderExists(orders, p.orderId)
    ensures p.Rewrite? ==> exists i :: (0 <= i < |orders| && orders[i].id == p.orderId
      && PluginJson.Parse(orders[i].plugins) == Some(p.plugins))
    ensures orderId.Some? && orderId.value != 0 && InInt32(orderId.value) && !OrderExists(orders, orderId.value) ==>
      p == Refuse(404, OrderNotFound)
  {
    if orderId.None? || orderId.value == 0 then Refuse(400, IdRequired)
    else if !InInt32(orderId.value) then Refuse(500, Failed)
    else match FindOrder(orders, orderId.value)
      case None => Refuse(404, OrderNotFound)
      case Some(order) =>
        match PluginJson.Parse(order.plugins)
        case None => Refuse(500, Failed)
        case Some(plugins) => Rewrite(order.id, plugins)
  }

  /** POST /api/regenerate-links. */
  method RegenerateLinks(db: Db, orderId: Option<int>, appUrl: Option<string>, now: nat) returns (reply: Reply)
    requires db.Valid()
    modifies db
    ensures db.Valid()
    ensures db.orders == old(db.orders) && db.nextOrderId == old(db.nextOrderId)
    ensures match Decide(old(db.orders), orderId)
      case Refuse(code, error) => reply == Status(code, error) && db.downloads == old(db.downloads)
      case Rewrite(id, plugins) =>
        && reply == (if GrantsFit(plugins) then Regenerated(ExpiresAt(now)) else Status(500, Failed))
        && db.downloads == Filter(old(db.downloads), (d: DownloadRow) => d.orderId != id)
                           + Written(GrantRows(id, plugins, ExpiresAt(now), SignedUrls(appUrl, id, now)))
  {
    var plan := Decide(db.orders, orderId);
    if plan.Refuse? {
      return Status(plan.code, plan.error);
    }
    db.DeleteDownloadsOf(plan.orderId);
    var links := WriteGrants(db, appUrl, plan.orderId, plan.plugins, now);
    if links.None? {
      return Status(500, Failed);
    }
    reply := Regenerated(ExpiresAt(now));
  }

  /** An order saved with a plugin list regenerates exactly that list. */
  lemma StoredPluginsRegenerate(orders: seq<OrderRow>, id: nat, plugins: seq<PluginJson.Plugin>)
    requires KeysUnique(orders) && 0 < id && InInt32(id)
    requires exists i :: 0 <= i < |orders| && orders[i].id == id && orders[i].plugins == PluginJson.Serialize(plugins)
    ensures Decide(orders, Some(id)) == Rewrite(id, plugins)
  {
    var i :| 0 <= i < |orders| && orders[i].id == id && orders[i].plugins == PluginJson.Serialize(plugins);
    var order := FindOrder(orders, id).value;
    var j :| 0 <= j < |orders| && orders[j] == order;
    assert i == j;
  }
}
