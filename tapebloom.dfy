/** POST /api/admin/generate-tapebloom-license: issue a replacement TapeBloom
    key for the newest order of an email that holds TapeBloom (plugin "4"),
    store it on that order and mail it to the customer. */
module TapeBloomRoute {
  import opened Wrappers
  import opened Seqs
  import opened Text
  import opened Store
  import License
  import PluginJson
  import OrdersRoute

  datatype Reply = Issued(licenseKey: string) | Status(code: nat, error: string)

  const EmailRequired := "Valid email address is required"
  const NoPurchase := "No TapeBloom purchase found for this email address"
  const Failed := "Failed to generate license"

  /** The text `plugins LIKE '%"id":"4"%'` looks for. */
  const TapeBloomPattern := "\"id\":\"4\""

  function OrderCreatedAt(o: OrderRow): int
  {
    o.createdAt
  }

  /** `WHERE email = .. AND plugins LIKE '%"id":"4"%'`: the comparison is exact,
      with no case folding. */
  predicate HoldsTapeBloom(o: OrderRow, email: string)
  {
    o.email == email && Contains(o.plugins, TapeBloomPattern)
  }

  /** `ORDER BY created_at DESC LIMIT 1` over the matching orders. */
  function Newest(orders: seq<OrderRow>, email: string): Option<OrderRow>
  {
    var matching := Filter(orders, (o: OrderRow) => HoldsTapeBloom(o, email));
    if matching == [] then None else Some(SortDesc(matching, OrderCreatedAt)[0])
  }

  /** What the route decides before it writes. */
  datatype Plan = Refuse(code: nat, error: string) | Rekey(orderId: nat)

  /** `!email || !email.includes('@')` gives 400; no TapeBloom order gives 404;
      otherwise the newest such order is re-keyed. A body whose `email` is not a
      string is modelled as an absent email. */
  function Decide(orders: seq<OrderRow>, email: Option<string>): (p: Plan)
    ensures email.None? || '@' !in email.value ==> p == Refuse(400, EmailRequired)
    ensures p.Rekey? ==> email.Some? && '@' in email.value
  {
    if email.None? || '@' !in email.value then Refuse(400, EmailRequired)
    else match Newest(orders, email.value)
      case None => Refuse(404, NoPurchase)
      case Some(o) => Rekey(o.id)
  }

  /** POST /api/admin/generate-tapebloom-license. The UPDATE happens before the
      mail is sent, so a send call that throws (`sendFails`) still leaves the
      new key stored while the reply is 500. A send that returns, whatever it
      returns, counts as sent. */
  method GenerateTapeBloomLicense(db: Db, email: Option<string>, draw: License.Draw, sendFails: bool)
    returns (reply: Reply)
    requires db.Valid()
    modifies db
    ensures db.Valid()
    ensures db.downloads == old(db.downloads) && db.nextOrderId == old(db.nextOrderId)
    ensures match Decide(old(db.orders), email)
      case Refuse(code, error) => reply == Status(code, error) && db.orders == old(db.orders)
      case Rekey(id) =>
        && db.orders == WithTapeBloomKey(old(db.orders), id, OrdersRoute.TapeBloomKey(draw))
        && reply == (if sendFails then Status(500, Failed) else Issued(OrdersRoute.TapeBloomKey(draw)))
  {
    var plan := Decide(db.orders, email);
    if plan.Refuse? {
      return Status(plan.code, plan.error);
    }
    var key := OrdersRoute.TapeBloomKey(draw);
    db.UpdateTapeBloomLicenseKey(plan.orderId, key);
    if sendFails {
      return Status(500, Failed);
    }
    reply := Issued(key);
  }

  /** The order picked is a TapeBloom order of that email, none newer exists,
      and there is one exactly when some order matches. */
  lemma NewestIsLatestMatch(orders: seq<OrderRow>, email: string)
    ensures Newest(orders, email).None? <==> forall i :: 0 <= i < |orders| ==> !HoldsTapeBloom(orders[i], email)
    ensures Newest(orders, email).Some? ==>
      var o := Newest(orders, email).value;
      && o in orders && HoldsTapeBloom(o, email)
      && forall i :: 0 <= i < |orders| && HoldsTapeBloom(orders[i], email) ==> orders[i].createdAt <= o.createdAt
  {
    var p := (o: OrderRow) => HoldsTapeBloom(o, email);
    var matching := Filter(orders, p);
    if matching == [] {
      assert forall i :: 0 <= i < |orders| && p(orders[i]) ==> orders[i] in matching;
    } else {
      FilterSortHead(orders, p, OrderCreatedAt);
    }
  }

  /** An order saved with TapeBloom among its plugins is found for its email. */
  lemma PurchaseFound(orders: seq<OrderRow>, email: string, i: nat, ps: seq<PluginJson.Plugin>, j: nat)
    requires '@' in email
    requires i < |orders| && orders[i].email == email && orders[i].plugins == PluginJson.Serialize(ps)
    requires j < |ps| && ps[j].id == "4"
    ensures Decide(orders, Some(email)).Rekey?
  {
    PluginJson.SerializeContainsTapeBloom(ps, j);
    assert HoldsTapeBloom(orders[i], email);
    NewestIsLatestMatch(orders, email);
  }

  /** The chosen order is a row of the table. */
  lemma ChosenOrderExists(orders: seq<OrderRow>, email: Option<string>)
    requires Decide(orders, email).Rekey?
    ensures exists i :: 0 <= i < |orders| && orders[i].id == Decide(orders, email).orderId
  {
    NewestIsLatestMatch(orders, email.value);
    var o := Newest(orders, email.value).value;
    var i :| 0 <= i < |orders| && orders[i] == o;
    assert orders[i].id == Decide(orders, email).orderId;
  }

  /** Re-keying stores the new key on the chosen order, which exists, and
      leaves every other order as it was. */
  lemma RekeyOnlyTouchesChosenOrder(orders: seq<OrderRow>, email: Option<string>, id: nat, key: string)
    requires Decide(orders, email) == Rekey(id)
    ensures exists i :: 0 <= i < |orders| && WithTapeBloomKey(orders, id, key)[i] == orders[i].(tapeBloomKey := Some(key))
    ensures forall k :: 0 <= k < |orders| && orders[k].id != id ==> WithTapeBloomKey(orders, id, key)[k] == orders[k]
  {
    ChosenOrderExists(orders, email);
    var i :| 0 <= i < |orders| && orders[i].id == id;
    assert WithTapeBloomKey(orders, id, key)[i] == orders[i].(tapeBloomKey := Some(key));
  }
}
