/** GET /api/orders?email=...: the customer's orders, newest first, after
    backfilling a TapeBloom key into every order that bought TapeBloom (id '4')
    but has no key yet. The loop updates the returned list in place and the
    orders table row by row. */
module OrdersRoute {
  import opened Wrappers
  import opened Text
  import opened Store
  import License
  import PluginJson
  import OrderProcessor
  import Seqs

  const TapeBloomId := "4"

  datatype Reply = Found(orders: seq<OrderView>, count: nat) | Status(code: nat, error: string)

  const EmailRequired := "Email is required"
  const InvalidEmail := "Invalid email address"

  /** A key column value JavaScript treats as true: present and non-empty. */
  predicate Truthy(key: Option<string>)
  {
    key.Some? && key.value != ""
  }

  /** `JSON.parse(order.plugins || '[]')`; None where JSON.parse throws. The
      empty text is answered directly with the empty list that '[]' parses to. */
  function StoredPlugins(text: string): Option<seq<PluginJson.Plugin>>
  {
    if text == "" then Some([]) else PluginJson.Parse(text)
  }

  /** The shortcut for the empty text agrees with parsing '[]'. */
  lemma StoredPluginsDefault(text: string)
    ensures StoredPlugins(text) == PluginJson.Parse(if text == "" then "[]" else text)
  {
  }

  /** The order's stored plugin list parses and contains TapeBloom. */
  predicate HasTapeBloom(v: OrderView)
  {
    match StoredPlugins(v.plugins)
    case None => false
    case Some(ps) => OrderProcessor.HasPlugin(ps, TapeBloomId)
  }

  predicate NeedsKey(v: OrderView)
  {
    !Truthy(v.tapeBloomKey) && HasTapeBloom(v)
  }

  /** `generateTapeBloomLicense()` from the three drawn segments. */
  function TapeBloomKey(d: License.Draw): (k: string)
    ensures k != ""
  {
    License.Generate(License.TapeBloom, d.p1, d.p2, d.p3)
  }

  /** The key is one the TapeBloom validator accepts. */
  lemma TapeBloomKeyValid(d: License.Draw)
    ensures License.IsValid(License.TapeBloom, TapeBloomKey(d))
  {
  }

  /** One order after its turn of the loop. */
  function Fill(v: OrderView, d: License.Draw): OrderView
  {
    if NeedsKey(v) then v.(tapeBloomKey := Some(TapeBloomKey(d))) else v
  }

  /** The list the route returns; `draw(i)` is the key material drawn at
      iteration i. */
  function Backfilled(views: seq<OrderView>, draw: nat -> License.Draw): (r: seq<OrderView>)
    ensures |r| == |views|
    ensures forall i :: 0 <= i < |views| ==> r[i] == Fill(views[i], draw(i))
  {
    seq(|views|, i requires 0 <= i < |views| => Fill(views[i], draw(i)))
  }

  /** Every TapeBloom order ends up with a key, each new key is a valid
      TapeBloom key that replaces nothing else, and an order that had a key, or
      has no TapeBloom (or plugins JSON.parse rejects), is returned as it was. */
  lemma BackfilledKeys(views: seq<OrderView>, draw: nat -> License.Draw)
    ensures var r := Backfilled(views, draw);
      && (forall i :: 0 <= i < |views| && HasTapeBloom(views[i]) ==> Truthy(r[i].tapeBloomKey))
      && (forall i :: 0 <= i < |views| && (Truthy(views[i].tapeBloomKey) || !HasTapeBloom(views[i])) ==> r[i] == views[i])
      && (forall i :: 0 <= i < |views| && r[i] != views[i] ==>
            r[i] == views[i].(tapeBloomKey := r[i].tapeBloomKey)
            && r[i].tapeBloomKey.Some? && License.IsValid(License.TapeBloom, r[i].tapeBloomKey.value))
  {
    var r := Backfilled(views, draw);
    forall i | 0 <= i < |views|
      ensures HasTapeBloom(views[i]) ==> Truthy(r[i].tapeBloomKey)
      ensures Truthy(views[i].tapeBloomKey) || !HasTapeBloom(views[i]) ==> r[i] == views[i]
      ensures r[i] != views[i] ==> (r[i] == views[i].(tapeBloomKey := r[i].tapeBloomKey)
            && r[i].tapeBloomKey.Some? && License.IsValid(License.TapeBloom, r[i].tapeBloomKey.value))
    {
      assert r[i] == Fill(views[i], draw(i));
      TapeBloomKeyValid(draw(i));
    }
  }

  /** The orders table after the first n iterations of the loop. */
  function Rekeyed(orders: seq<OrderRow>, views: seq<OrderView>, draw: nat -> License.Draw, n: nat): (r: seq<OrderRow>)
    requires n <= |views|
    ensures |r| == |orders|
  {
    if n == 0 then orders
    else
      var before := Rekeyed(orders, views, draw, n - 1);
      var v := views[n - 1];
      if NeedsKey(v) then WithTapeBloomKey(before, v.id, TapeBloomKey(draw(n - 1))) else before
  }

  /** Only the key column of an order changes, always to a valid TapeBloom key. */
  lemma {:induction false} RekeyedKeysOnly(orders: seq<OrderRow>, views: seq<OrderView>, draw: nat -> License.Draw, n: nat)
    requires n <= |views|
    ensures var r := Rekeyed(orders, views, draw, n);
      forall k :: 0 <= k < |orders| ==>
        r[k].(tapeBloomKey := orders[k].tapeBloomKey) == orders[k]
        && (r[k].tapeBloomKey != orders[k].tapeBloomKey ==>
              r[k].tapeBloomKey.Some? && License.IsValid(License.TapeBloom, r[k].tapeBloomKey.value))
  {
    if n > 0 {
      RekeyedKeysOnly(orders, views, draw, n - 1);
      var key := TapeBloomKey(draw(n - 1));
      TapeBloomKeyValid(draw(n - 1));
      KeyStepKeysOnly(orders, Rekeyed(orders, views, draw, n - 1), views[n - 1].id, key);
    }
  }

  /** One more stored key keeps the changes to valid keys in the key column. */
  lemma KeyStepKeysOnly(orders: seq<OrderRow>, before: seq<OrderRow>, id: int, key: string)
    requires |before| == |orders| && License.IsValid(License.TapeBloom, key)
    requires forall k :: 0 <= k < |orders| ==>
      before[k].(tapeBloomKey := orders[k].tapeBloomKey) == orders[k]
      && (before[k].tapeBloomKey != orders[k].tapeBloomKey ==>
            before[k].tapeBloomKey.Some? && License.IsValid(License.TapeBloom, before[k].tapeBloomKey.value))
    ensures var r := WithTapeBloomKey(before, id, key);
      forall k :: 0 <= k < |orders| ==>
        r[k].(tapeBloomKey := orders[k].tapeBloomKey) == orders[k]
        && (r[k].tapeBloomKey != orders[k].tapeBloomKey ==>
              r[k].tapeBloomKey.Some? && License.IsValid(License.TapeBloom, r[k].tapeBloomKey.value))
  {
  }

  /** An order that no needing view of the first n names is left as it was. */
  lemma {:induction false} RekeyedUntouched(orders: seq<OrderRow>, views: seq<OrderView>, draw: nat -> License.Draw, n: nat)
    requires n <= |views|
    ensures var r := Rekeyed(orders, views, draw, n);
      forall k :: 0 <= k < |orders| && (forall i :: 0 <= i < n && NeedsKey(views[i]) ==> views[i].id != orders[k].id) ==>
        r[k] == orders[k]
  {
    if n > 0 {
      RekeyedUntouched(orders, views, draw, n - 1);
    }
  }

  /** Only the key column of an order changes, always to a valid TapeBloom key,
      and only for an order that some needing view of the first n names. */
  lemma RekeyedShape(orders: seq<OrderRow>, views: seq<OrderView>, draw: nat -> License.Draw, n: nat)
    requires n <= |views|
    ensures var r := Rekeyed(orders, views, draw, n);
      && (forall k :: 0 <= k < |orders| ==>
           r[k].(tapeBloomKey := orders[k].tapeBloomKey) == orders[k]
           && (r[k].tapeBloomKey != orders[k].tapeBloomKey ==>
                 r[k].tapeBloomKey.Some? && License.IsValid(License.TapeBloom, r[k].tapeBloomKey.value)))
      && (forall k :: 0 <= k < |orders| && (forall i :: 0 <= i < n && NeedsKey(views[i]) ==> views[i].id != orders[k].id) ==>
           r[k] == orders[k])
  {
    RekeyedKeysOnly(orders, views, draw, n);
    RekeyedUntouched(orders, views, draw, n);
  }

  /** One turn of the loop: a key is generated, stored and written into the
      returned order exactly when the order needs one. */
  method FillOne(db: Db, order: OrderView, d: License.Draw) returns (filled: OrderView)
    requires db.Valid()
    modifies db
    ensures db.Valid()
    ensures db.downloads == old(db.downloads) && db.nextOrderId == old(db.nextOrderId)
    ensures filled == Fill(order, d)
    ensures db.orders == if NeedsKey(order) then WithTapeBloomKey(old(db.orders), order.id, TapeBloomKey(d)) else old(db.orders)
  {
    filled := order;
    if !Truthy(order.tapeBloomKey) {
      var plugins := StoredPlugins(order.plugins);
      if plugins.Some? && OrderProcessor.HasPlugin(plugins.value, TapeBloomId) {
        var newLicenseKey := TapeBloomKey(d);
        db.UpdateTapeBloomLicenseKey(order.id, newLicenseKey);
        filled := order.(tapeBloomKey := Some(newLicenseKey));
      }
    }
  }

  /** The `for (const order of orders)` loop. */
  method Backfill(db: Db, views: seq<OrderView>, draw: nat -> License.Draw) returns (orders: seq<OrderView>)
    requires db.Valid()
    modifies db
    ensures db.Valid()
    ensures db.downloads == old(db.downloads) && db.nextOrderId == old(db.nextOrderId)
    ensures orders == Backfilled(views, draw)
    ensures db.orders == Rekeyed(old(db.orders), views, draw, |views|)
  {
    orders := views;
    ghost var target := Backfilled(views, draw);
    var i := 0;
    while i < |orders|
      invariant 0 <= i <= |orders| == |views|
      invariant Seqs.DoneUpTo(orders, target, views, i)
      invariant db.Valid() && db.downloads == old(db.downloads) && db.nextOrderId == old(db.nextOrderId)
      invariant db.orders == Rekeyed(old(db.orders), views, draw, i)
    {
      var filled := FillOne(db, orders[i], draw(i));
      Seqs.DoneOneMore(orders, target, views, i, filled);
      orders := orders[i := filled];
      i := i + 1;
    }
    Seqs.DoneAll(orders, target, views);
  }

  /** GET /api/orders. `draw` supplies the random segments of each iteration. */
  method ListOrders(db: Db, email: Option<string>, draw: nat -> License.Draw) returns (reply: Reply)
    requires db.Valid()
    modifies db
    ensures db.Valid()
    ensures db.downloads == old(db.downloads) && db.nextOrderId == old(db.nextOrderId)
    ensures email.None? || email == Some("") ==> reply == Status(400, EmailRequired) && db.orders == old(db.orders)
    ensures email.Some? && email.value != "" && !EmailPattern(email.value) ==>
      reply == Status(400, InvalidEmail) && db.orders == old(db.orders)
    ensures email.Some? && EmailPattern(email.value) ==>
      var views := OrdersByEmail(old(db.orders), old(db.downloads), email.value);
      && reply == Found(Backfilled(views, draw), |views|)
      && |views| == Seqs.Count(old(db.orders), HasEmail(email.value))
      && db.orders == Rekeyed(old(db.orders), views, draw, |views|)
  {
    if email.None? || email.value == "" {
      return Status(400, EmailRequired);
    }
    if !EmailPattern(email.value) {
      return Status(400, InvalidEmail);
    }
    var orders := db.GetOrdersByEmail(email.value);
    orders := Backfill(db, orders, draw);
    reply := Found(orders, |orders|);
  }
}
