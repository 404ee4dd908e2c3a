/** POST /api/free-download: a zero-amount order claimed with an email address.
    Validation, then the order insert, then two grants per plugin, then the
    confirmation email. Unlike processOrder the send is not guarded, so a
    send call that throws turns into a 500 after everything has been written;
    so does an
    insert that throws, after what was written before it. */
module FreeDownload {
  import opened Wrappers
  import opened Text
  import opened Store
  import opened Grants
  import PluginJson

  datatype Reply =
    | Sent
    | Status(code: nat, error: string)
    | ServerError

  const TooMany := "Too many requests. Please try again later."
  const InvalidEmail := "Invalid email address"
  const CartEmpty := "Cart is empty"

  /** `free_${Date.now()}_${suffix}`, `suffix` standing for the random base-36 tail. */
  function FreeSessionId(now: nat, suffix: string): (sid: string)
    ensures IsPrefix("free_", sid)
  {
    var sid := "free_" + (NatToString(now) + ("_" + suffix));
    assert sid[..5] == "free_";
    sid
  }

  /** The request's `cartItems`: None when it is not an array; otherwise one
      entry per item, None where reading `item.plugin.id` throws (an item, or
      its `plugin`, that is null or missing). */
  type Cart = Option<seq<Option<PluginJson.Plugin>>>

  /** The checks before anything is written: the rate limit, then the email
      (missing, not a string, or failing the pattern), then the cart (not an
      array, or empty). None when the request passes them; the items
      themselves are not looked at. */
  function Screen(allowed: bool, email: Option<string>, cartItems: Cart): (r: Option<Reply>)
    ensures r.None? <==> allowed && email.Some? && EmailPattern(email.value) && cartItems.Some? && cartItems.value != []
    ensures r.Some? ==> r.value.Status? && r.value.code in {400, 429}
  {
    if !allowed then Some(Status(429, TooMany))
    else if email.None? || email.value == "" || !EmailPattern(email.value) then Some(Status(400, InvalidEmail))
    else if cartItems.None? || cartItems.value == [] then Some(Status(400, CartEmpty))
    else None
  }

  /** `cartItems.map(item => ({id: item.plugin.id, name: item.plugin.name}))`:
      the plugins in cart order, or None when some item throws. */
  function CartPlugins(items: seq<Option<PluginJson.Plugin>>): (r: Option<seq<PluginJson.Plugin>>)
    ensures r.Some? <==> forall i :: 0 <= i < |items| ==> items[i].Some?
    ensures r.Some? ==> |r.value| == |items| && forall i :: 0 <= i < |items| ==> r.value[i] == items[i].value
  {
    if items == [] then Some([])
    else if items[0].None? then None
    else
      var rest := CartPlugins(items[1..]);
      assert forall i :: 1 <= i < |items| ==> items[i] == items[1..][i - 1];
      if rest.None? then None else Some([items[0].value] + rest.value)
  }

  /** saveOrder accepts the free order: the email and the generated session id
      fit their VARCHAR(255) columns and no order has that session id yet. */
  predicate OrderSaved(orders: seq<OrderRow>, email: string, sessionId: string)
  {
    FitsColumn(email) && FitsColumn(sessionId) && !SessionTaken(orders, sessionId)
  }

  /** POST /api/free-download. `allowed` is the rate limiter's verdict, `email`
      and `cartItems` are None when the body's value is not a string or not an
      array (see Cart), `marketingOptIn` is the body's value after `|| false`, `sendOk`
      whether the send call returned without throwing (the value it returns is
      never inspected). */
  method Claim(db: Db, allowed: bool, email: Option<string>, cartItems: Cart,
               marketingOptIn: bool, suffix: string, appUrl: Option<string>, now: nat, sendOk: bool)
    returns (reply: Reply)
    requires db.Valid()
    modifies db
    ensures db.Valid()
    ensures Screen(allowed, email, cartItems).Some? ==>
      reply == Screen(allowed, email, cartItems).value && db.orders == old(db.orders)
      && db.downloads == old(db.downloads) && db.nextOrderId == old(db.nextOrderId)
    ensures Screen(allowed, email, cartItems).None? && CartPlugins(cartItems.value).None? ==>
      reply == ServerError && db.orders == old(db.orders) && db.downloads == old(db.downloads)
      && db.nextOrderId == old(db.nextOrderId)
    ensures Screen(allowed, email, cartItems).None? && CartPlugins(cartItems.value).Some?
            && !OrderSaved(old(db.orders), email.value, FreeSessionId(now, suffix)) ==>
      reply == ServerError && db.orders == old(db.orders) && db.downloads == old(db.downloads)
      && db.nextOrderId == old(db.nextOrderId) + 1
    ensures Screen(allowed, email, cartItems).None? && CartPlugins(cartItems.value).Some?
            && OrderSaved(old(db.orders), email.value, FreeSessionId(now, suffix)) ==>
      var id := old(db.nextOrderId);
      var plugins := CartPlugins(cartItems.value).value;
      && !OrderExists(old(db.orders), id)
      && db.orders == old(db.orders) + [OrderRow(id, email.value, FreeSessionId(now, suffix), 0,
           PluginJson.Serialize(plugins), marketingOptIn, None, None, None, now)]
      && db.downloads == old(db.downloads) + Written(GrantRows(id, plugins, ExpiresAt(now), SignedUrls(appUrl, id, now)))
      && db.nextOrderId == id + 1
      && reply == if GrantsFit(plugins) && sendOk then Sent else ServerError
  {
    var refusal := Screen(allowed, email, cartItems);
    if refusal.Some? {
      return refusal.value;
    }
    var plugins := CartPlugins(cartItems.value);
    if plugins.None? {
      return ServerError;
    }
    var freeSessionId := FreeSessionId(now, suffix);
    var orderId := db.SaveOrder(email, freeSessionId, Some(0), plugins.value, marketingOptIn, None, None, now);
    if orderId.None? {
      return ServerError;
    }
    assert OrderExists(db.orders, orderId.value) by {
      assert db.orders[|db.orders| - 1].id == orderId.value;
    }
    var downloadLinks := WriteGrants(db, appUrl, orderId.value, plugins.value, now);
    if downloadLinks.None? {
      return ServerError;
    }
    reply := if sendOk then Sent else ServerError;
  }

  /** An email the route accepts has exactly one '@' and no whitespace. */
  lemma AcceptedEmailShape(allowed: bool, email: Option<string>, cartItems: Cart)
    requires Screen(allowed, email, cartItems).None?
    ensures forall i :: 0 <= i < |email.value| ==> !IsJsSpace(email.value[i])
    ensures exists k :: (0 < k < |email.value| && email.value[k] == '@'
      && forall i :: 0 <= i < |email.value| && email.value[i] == '@' ==> i == k)
  {
    EmailPatternShape(email.value);
  }
}
