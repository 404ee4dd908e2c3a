/** The PayPal routes: the webhook (app/api/paypal/webhooks/route.ts) and the
    capture endpoint (app/api/paypal/capture-order/route.ts). Both decode the
    order metadata PayPal hands back in `custom_id` and pass it to processOrder.
    JSON.parse, the signature check, the capture call and the order-details call
    are inputs: `parse` maps a text to its value (None where it throws), and the
    PayPal answers are given as parsed values (None where the call throws). */
module PayPal {
  import opened Wrappers
  import opened Text
  import opened Seqs
  import opened Store
  import opened Json
  import opened OrderProcessor
  import License
  import PluginJson
  import Grants

  type Plugin = PluginJson.Plugin
  type JsonParser = string -> Option<Value>

  const CompletedEvent: string := "PAYMENT.CAPTURE.COMPLETED"

  // ---------------------------------------------------------------- metadata

  /** PLUGIN_NAMES[id] || `Plugin ${id}`. */
  function PluginName(id: string): string
  {
    if id == "1" then "Cassette Vibe"
    else if id == "2" then "Pretty Pretty Princess Sparkle"
    else if id == "3" then "Space Bass Butt"
    else if id == "4" then "Tape Bloom"
    else if id == "5" then "Tapeworm"
    else if id == "bundle" then "Complete Bundle"
    else "Plugin " + id
  }

  function Named(id: string): Plugin
  {
    PluginJson.Plugin(id, PluginName(id))
  }

  /** The text an id of the compressed list stands for wherever the order uses
      it: PLUGIN_NAMES indexing, template literals and the SQL parameter all
      turn a numeric id into its decimal text. None for other JSON values. */
  function IdText(v: Value): (r: Option<string>)
    ensures r.Some? <==> v.Str? || v.Number?
    ensures v.Str? ==> r == Some(v.s)
    ensures v.Number? ==> r.Some? && ParseInt(r.value) == Some(v.n)
  {
    match v
    case Str(s) => Some(s)
    case Number(n) => Some(IntToString(n))
    case _ => None
  }

  /** `p.map(id => ({id, name}))` over a list of string or numeric ids; None
      when an id is some other value. */
  function CompressedPlugins(items: seq<Value>): (r: Option<seq<Plugin>>)
    ensures r.Some? <==> forall i :: 0 <= i < |items| ==> IdText(items[i]).Some?
    ensures r.Some? ==> |r.value| == |items|
    ensures r.Some? ==> forall i :: 0 <= i < |items| ==> r.value[i] == Named(IdText(items[i]).value)
  {
    if items == [] then Some([])
    else if IdText(items[0]).None? then None
    else
      var rest := CompressedPlugins(items[1..]);
      assert forall i :: 1 <= i < |items| ==> items[i] == items[1..][i - 1];
      if rest.None? then None else Some([Named(IdText(items[0]).value)] + rest.value)
  }

  /** One legacy `{id, name}` entry as processOrder uses it: `plugin.id` and
      `plugin.name` go into the signed URL, the `+ '-windows'` and
      `+ ' (Windows)'` concatenations and the SQL parameters, all of which see a
      number as its decimal text. None when either member is missing or of
      another JSON type. */
  function LegacyEntry(v: Value): (r: Option<Plugin>)
    ensures r.Some? <==>
      && Get(v, "id").Some? && IdText(Get(v, "id").value).Some?
      && Get(v, "name").Some? && IdText(Get(v, "name").value).Some?
    ensures r.Some? ==>
      r.value.id == IdText(Get(v, "id").value).value && r.value.name == IdText(Get(v, "name").value).value
  {
    var id, name := Get(v, "id"), Get(v, "name");
    if id.None? || name.None? then None
    else match (IdText(id.value), IdText(name.value))
      case (Some(i), Some(n)) => Some(PluginJson.Plugin(i, n))
      case _ => None
  }

  /** The legacy `plugins` list, entry by entry; None when an entry is not an
      `{id, name}` pair of strings or numbers (processOrder would throw on it). */
  function LegacyList(items: seq<Value>): (r: Option<seq<Plugin>>)
    ensures r.Some? <==> forall i :: 0 <= i < |items| ==> LegacyEntry(items[i]).Some?
    ensures r.Some? ==> |r.value| == |items|
    ensures r.Some? ==> forall i :: 0 <= i < |items| ==> r.value[i] == LegacyEntry(items[i]).value
  {
    if items == [] then Some([])
    else if LegacyEntry(items[0]).None? then None
    else
      var rest := LegacyList(items[1..]);
      assert forall i :: 1 <= i < |items| ==> items[i] == items[1..][i - 1];
      if rest.None? then None else Some([LegacyEntry(items[0]).value] + rest.value)
  }

  /** A legacy entry `{"id": n, "name": name}` is the plugin named by the
      decimal text of n, as processOrder's concatenations and SQL parameters
      see it; `{"id": 4, "name": "Tape Bloom"}` is the TapeBloom plugin "4". */
  lemma LegacyNumericId(n: int, name: string)
    ensures LegacyEntry(Object([("id", Number(n)), ("name", Str(name))])) == Some(PluginJson.Plugin(IntToString(n), name))
    ensures LegacyEntry(Object([("id", Number(4)), ("name", Str("Tape Bloom"))])) == Some(PluginJson.Plugin("4", "Tape Bloom"))
  {
    IdAndName(Number(n), Str(name));
    LegacyPair(Object([("id", Number(n)), ("name", Str(name))]), Number(n), Str(name), IntToString(n), name);
    IdAndName(Number(4), Str("Tape Bloom"));
    PluginNames("4");
    LegacyPair(Object([("id", Number(4)), ("name", Str("Tape Bloom"))]), Number(4), Str("Tape Bloom"), "4", "Tape Bloom");
  }

  lemma LegacyPair(v: Value, id: Value, name: Value, i: string, n: string)
    requires Get(v, "id") == Some(id) && Get(v, "name") == Some(name)
    requires IdText(id) == Some(i) && IdText(name) == Some(n)
    ensures LegacyEntry(v) == Some(PluginJson.Plugin(i, n))
  {
  }

  lemma IdAndName(id: Value, name: Value)
    ensures Get(Object([("id", id), ("name", name)]), "id") == Some(id)
    ensures Get(Object([("id", id), ("name", name)]), "name") == Some(name)
  {
    var ms := [("id", id), ("name", name)];
    assert |"name"| != |"id"|;
    assert ms[|ms| - 1] == ("name", name);
    assert ms[..|ms| - 1] == [("id", id)];
    assert Lookup([("id", id)], "id") == Some(id);
  }

  function LegacyPlugins(v: Option<Value>): Option<seq<Plugin>>
  {
    match v
    case Some(Array(items)) => LegacyList(items)
    case _ => None
  }

  /** The email processOrder receives: a string, or None where it is undefined
      or null and the NOT NULL constraint throws. */
  function EmailOf(v: Option<Value>): Option<string>
  {
    match v
    case Some(Str(s)) => Some(s)
    case _ => None
  }

  /** `x === true || x === 'true'`. */
  predicate IsTrue(v: Option<Value>)
  {
    v == Some(Bool(true)) || v == Some(Str("true"))
  }

  /** `metadata.e || metadata.email`. */
  function WebhookEmail(md: Value): Option<string>
  {
    var e := Get(md, "e");
    EmailOf(if Truthy(e) then e else Get(md, "email"))
  }

  /** `metadata.m !== undefined ? metadata.m === 1 : metadata.marketingOptIn`,
      then `=== true || === 'true'`. */
  predicate WebhookOptIn(md: Value)
  {
    var m := Get(md, "m");
    if m.Some? then m == Some(Number(1)) else IsTrue(Get(md, "marketingOptIn"))
  }

  /** A truthy `p` is the compressed id list; otherwise the legacy `plugins`. */
  function WebhookPlugins(md: Value): Option<seq<Plugin>>
  {
    var p := Get(md, "p");
    if Truthy(p) then
      (if p.value.Array? then CompressedPlugins(p.value.items) else None)
    else LegacyPlugins(Get(md, "plugins"))
  }

  /** `parseInt(String(v))` for the values an amount can take. */
  function ParseIntOf(v: Value): Option<int>
  {
    match v
    case Str(s) => ParseInt(s)
    case Number(n) => Some(n)
    case _ => None
  }

  const ZeroText: string := "0"

  /** `parseInt(value || '0') * 100`; None stands for NaN. A missing or falsy
      amount is 0 cents, and any amount is a whole number of dollars in cents. */
  function AmountCents(value: Option<Value>): (r: Option<int>)
    ensures !Truthy(value) ==> r == Some(0)
    ensures r.Some? ==> r.value % 100 == 0
    ensures value.Some? && value.value.Number? ==> r == Some(value.value.n * 100)
  {
    var v := if Truthy(value) then value.value else Str(ZeroText);
    var parsed := ParseIntOf(v);
    ZeroCents(v, parsed);
    if parsed.None? then None
    else
      var c := parsed.value * 100;
      WholeCents(parsed.value, c);
      Some(c)
  }

  lemma ZeroCents(v: Value, parsed: Option<int>)
    requires parsed == ParseIntOf(v)
    ensures v == Str(ZeroText) ==> parsed == Some(0)
  {
    ParseIntPrefix(ZeroText, []);
    assert ZeroText + [] == ZeroText;
  }

  lemma WholeCents(n: int, c: int)
    requires c == n * 100
    ensures c % 100 == 0
  {
  }

  /** `custom_id` of the first purchase unit, when it is a non-empty string. */
  function CustomData(details: Value): Option<string>
  {
    var units := Get(details, "purchase_units");
    var first := if units.Some? && units.value.Array? && |units.value.items| > 0 then Some(units.value.items[0]) else None;
    match Member(first, "custom_id")
    case Some(Str(s)) => if s != "" then Some(s) else None
    case _ => None
  }

  // ---------------------------------------------------------------- the webhook

  /** `resource.supplementary_data?.related_ids?.order_id`, when it is a
      non-empty string. */
  function RelatedOrderId(resource: Option<Value>): (id: Option<string>)
    ensures id.Some? ==> id.value != ""
  {
    match Member(Member(Member(resource, "supplementary_data"), "related_ids"), "order_id")
    case Some(Str(s)) => if s != "" then Some(s) else None
    case _ => None
  }

  datatype WebhookReply = Received | VerificationFailed

  /** What one webhook delivery does: nothing, a 400, or one processOrder call. */
  datatype WebhookPlan = Ignore | Reject | Process(params: Params)

  /** The processOrder arguments a completed capture builds from its metadata:
      the compressed fields where present, the legacy ones otherwise; None
      where `plugins.length` or the `map` over `p` throws. */
  function WebhookParams(md: Value, orderId: string, amount: Option<int>): (p: Option<Params>)
    ensures p.Some? ==> p.value.provider == PayPal && p.value.transactionId == orderId && p.value.amountTotal == amount
  {
    match WebhookPlugins(md)
    case None => None
    case Some(plugins) => Some(Params(WebhookEmail(md), PayPal, orderId, amount, plugins, WebhookOptIn(md)))
  }

  /** The PAYMENT.CAPTURE.COMPLETED case: skip when the payload names no order,
      when that order is already on file or when its metadata is missing. */
  function PlanCompleted(orders: seq<OrderRow>, resource: Option<Value>, parse: JsonParser,
                         details: Option<Value>): (plan: WebhookPlan)
    ensures plan != Reject
    ensures plan.Process? ==>
      && plan.params.provider == PayPal
      && RelatedOrderId(resource) == Some(plan.params.transactionId)
      && !SessionTaken(orders, plan.params.transactionId)
  {
    var orderId := RelatedOrderId(resource);
    if orderId.None? || FindSession(orders, orderId.value).Some? || details.None? then Ignore
    else match CustomData(details.value)
      case None => Ignore
      case Some(text) =>
        match parse(text)
        case None => Ignore
        case Some(md) =>
          match WebhookParams(md, orderId.value, AmountCents(Member(Member(resource, "amount"), "value")))
          case None => Ignore
          case Some(p) => Process(p)
  }

  /** The webhook's decisions, in the order the handler takes them. Every path
      that breaks out of the switch or throws ends in Ignore; a signature check
      that throws (None) is caught like any other error and answered
      "received". */
  function PlanWebhook(orders: seq<OrderRow>, allowed: bool, body: string, parse: JsonParser,
                       verified: Option<bool>, details: Option<Value>): (plan: WebhookPlan)
    ensures plan == Reject <==> allowed && parse(body).Some? && verified == Some(false)
    ensures verified.None? ==> plan == Ignore
    ensures plan.Process? ==>
      && allowed && verified == Some(true) && parse(body).Some?
      && Get(parse(body).value, "event_type") == Some(Str(CompletedEvent))
      && plan.params.provider == PayPal
      && plan.params.transactionId != ""
      && !SessionTaken(orders, plan.params.transactionId)
  {
    if !allowed then Ignore
    else match parse(body)
      case None => Ignore
      case Some(event) =>
        if verified.None? then Ignore
        else if !verified.value then Reject
        else if Get(event, "event_type") != Some(Str(CompletedEvent)) then Ignore
        else PlanCompleted(orders, Get(event, "resource"), parse, details)
  }

  /** POST /api/paypal/webhooks. `allowed` is the rate limiter's answer,
      `verified` the signature check's (None where verifyPayPalWebhook throws)
      and `details` getPayPalOrderDetails'. */
  method Webhook(db: Db, allowed: bool, body: string, parse: JsonParser, verified: Option<bool>,
                 details: Option<Value>, draw: License.Draw, appUrl: Option<string>, now: nat)
    returns (reply: WebhookReply)
    requires db.Valid()
    modifies db
    ensures db.Valid()
    ensures var plan := PlanWebhook(old(db.orders), allowed, body, parse, verified, details);
      && reply == (if plan == Reject then VerificationFailed else Received)
      && (plan.Process? ==>
            && db.orders == OrdersAfter(old(db.orders), old(db.nextOrderId), plan.params, draw, now)
            && db.downloads == DownloadsAfter(old(db.orders), old(db.downloads), old(db.nextOrderId), plan.params, appUrl, now)
            && db.nextOrderId == NextAfter(old(db.nextOrderId), plan.params))
      && (!plan.Process? ==>
            db.orders == old(db.orders) && db.downloads == old(db.downloads) && db.nextOrderId == old(db.nextOrderId))
  {
    var plan := PlanWebhook(db.orders, allowed, body, parse, verified, details);
    reply := if plan == Reject then VerificationFailed else Received;
    if plan.Process? {
      var _ := ProcessOrder(db, plan.params, draw, appUrl, now);
    }
  }

  /** Compressed metadata: a truthy `e` is the email, a present `m` decides the
      opt-in by `m === 1` alone, and `p` names the plugins in order through
      PLUGIN_NAMES, with `Plugin <id>` for an id the table lacks. */
  lemma CompressedMetadata(md: Value, email: string, m: Value, ids: seq<string>)
    requires Get(md, "e") == Some(Str(email)) && email != ""
    requires Get(md, "m") == Some(m)
    requires Get(md, "p") == Some(Array(Map(ids, (id: string) => Str(id))))
    ensures WebhookEmail(md) == Some(email)
    ensures WebhookOptIn(md) <==> m == Number(1)
    ensures WebhookPlugins(md) == Some(Map(ids, Named))
  {
    CompressedIds(ids);
  }

  lemma {:induction false} CompressedIds(ids: seq<string>)
    ensures CompressedPlugins(Map(ids, (id: string) => Str(id))) == Some(Map(ids, Named))
  {
    if ids != [] {
      var items := Map(ids, (id: string) => Str(id));
      assert items[1..] == Map(ids[1..], (id: string) => Str(id));
      CompressedIds(ids[1..]);
      assert Map(ids, Named) == [Named(ids[0])] + Map(ids[1..], Named);
    }
  }

  /** The names PLUGIN_NAMES gives, and the fallback for other ids. */
  lemma PluginNames(id: string)
    ensures Named("4") == PluginJson.Plugin("4", "Tape Bloom")
    ensures IdText(Number(4)) == Some("4")
    ensures Named("bundle") == PluginJson.Plugin("bundle", "Complete Bundle")
    ensures id !in {"1", "2", "3", "4", "5", "bundle"} ==> Named(id).name == "Plugin " + id
  {
  }

  /** Without a truthy `m` or `e` the legacy fields decide: the email falls back
      to `email`, the opt-in to `marketingOptIn` read strictly. */
  lemma LegacyMetadata(md: Value)
    requires !Truthy(Get(md, "e")) && Get(md, "m").None? && !Truthy(Get(md, "p"))
    ensures WebhookEmail(md) == EmailOf(Get(md, "email"))
    ensures WebhookOptIn(md) <==> IsTrue(Get(md, "marketingOptIn"))
    ensures WebhookPlugins(md) == LegacyPlugins(Get(md, "plugins"))
  {
  }

  /** parseInt keeps the whole dollars only: "<dollars>.<cents>" gives
      100 * dollars, the cents dropped. */
  lemma WholeDollars(dollars: string, cents: string)
    requires dollars != [] && AllDigits(dollars)
    ensures AmountCents(Some(Str(dollars + "." + cents))) == Some(DigitsValue(dollars) * 100)
  {
    var v := dollars + "." + cents;
    assert v == dollars + ("." + cents);
    assert v[0] == dollars[0];
    ParseIntPrefix(dollars, "." + cents);
  }

  /** An absent or empty amount counts as `'0'`: a zero-cent order. */
  lemma MissingAmountIsZero()
    ensures AmountCents(None) == Some(0) && AmountCents(Some(Str(""))) == Some(0)
  {
    AbsentAmount(None);
    AbsentAmount(Some(Str("")));
  }

  lemma AbsentAmount(value: Option<Value>)
    requires !Truthy(value)
    ensures AmountCents(value) == Some(0)
  {
    ZeroTextIsZero();
    TextAmount(ZeroText, 0);
    FallbackAmount(value);
  }

  lemma FallbackAmount(value: Option<Value>)
    requires !Truthy(value)
    ensures AmountCents(value) == (match ParseIntOf(Str(ZeroText)) case Some(n) => Some(n * 100) case None => None)
  {
  }

  lemma TextAmount(t: string, n: int)
    requires ParseInt(t) == Some(n)
    ensures ParseIntOf(Str(t)) == Some(n)
  {
  }

  lemma ZeroTextIsZero()
    ensures ParseInt(ZeroText) == Some(0)
  {
    assert ZeroText + [] == ZeroText && AllDigits(ZeroText);
    ParseIntPrefix(ZeroText, []);
  }

  /** A delivery for an order already on file leaves the store as it was,
      whatever the event carries. */
  lemma WebhookReplayIgnored(orders: seq<OrderRow>, allowed: bool, body: string, parse: JsonParser,
                             verified: Option<bool>, details: Option<Value>, event: Value, orderId: string)
    requires parse(body) == Some(event)
    requires Member(Member(Member(Get(event, "resource"), "supplementary_data"), "related_ids"), "order_id") == Some(Str(orderId))
    requires SessionTaken(orders, orderId)
    ensures !PlanWebhook(orders, allowed, body, parse, verified, details).Process?
  {
    ReplayNotProcessed(orders, Get(event, "resource"), parse, details, orderId);
  }

  lemma ReplayNotProcessed(orders: seq<OrderRow>, resource: Option<Value>, parse: JsonParser,
                           details: Option<Value>, orderId: string)
    requires Member(Member(Member(resource, "supplementary_data"), "related_ids"), "order_id") == Some(Str(orderId))
    requires SessionTaken(orders, orderId)
    ensures !PlanCompleted(orders, resource, parse, details).Process?
  {
  }

  /** A verified completed capture for an order not yet on file, whose
      metadata decodes, reaches processOrder with provider `paypal` and the
      related PayPal order id as its transaction id. */
  lemma WebhookProcessesNewCapture(orders: seq<OrderRow>, body: string, parse: JsonParser, details: Value,
                                   event: Value, orderId: string, text: string, md: Value)
    requires parse(body) == Some(event) && Get(event, "event_type") == Some(Str(CompletedEvent))
    requires RelatedOrderId(Get(event, "resource")) == Some(orderId) && !SessionTaken(orders, orderId)
    requires CustomData(details) == Some(text) && parse(text) == Some(md)
    requires WebhookPlugins(md).Some?
    ensures var amount := AmountCents(Member(Member(Get(event, "resource"), "amount"), "value"));
      PlanWebhook(orders, true, body, parse, Some(true), Some(details)) == Process(WebhookParams(md, orderId, amount).value)
  {
    CompletedNewOrder(orders, Get(event, "resource"), parse, details, orderId, text, md);
  }

  lemma CompletedNewOrder(orders: seq<OrderRow>, resource: Option<Value>, parse: JsonParser, details: Value,
                          orderId: string, text: string, md: Value)
    requires RelatedOrderId(resource) == Some(orderId) && !SessionTaken(orders, orderId)
    requires CustomData(details) == Some(text) && parse(text) == Some(md)
    requires WebhookPlugins(md).Some?
    ensures var amount := AmountCents(Member(Member(resource, "amount"), "value"));
      PlanCompleted(orders, resource, parse, Some(details)) == Process(WebhookParams(md, orderId, amount).value)
  {
    var amount := AmountCents(Member(Member(resource, "amount"), "value"));
    SessionAbsent(orders, orderId);
    ParamsPresent(md, orderId, amount);
  }

  lemma SessionAbsent(orders: seq<OrderRow>, orderId: string)
    requires !SessionTaken(orders, orderId)
    ensures FindSession(orders, orderId) == None
  {
  }

  lemma ParamsPresent(md: Value, orderId: string, amount: Option<int>)
    requires WebhookPlugins(md).Some?
    ensures WebhookParams(md, orderId, amount) == Some(Params(WebhookEmail(md), PayPal, orderId, amount, WebhookPlugins(md).value, WebhookOptIn(md)))
  {
  }

  /** Events other than a completed capture never reach processOrder. */
  lemma OtherEventsOnlyLog(orders: seq<OrderRow>, allowed: bool, body: string, parse: JsonParser,
                           verified: Option<bool>, details: Option<Value>, eventType: string)
    requires parse(body).Some? && Get(parse(body).value, "event_type") == Some(Str(eventType))
    requires eventType != CompletedEvent
    ensures PlanWebhook(orders, allowed, body, parse, verified, details) == (if allowed && verified == Some(false) then Reject else Ignore)
  {
  }

  // ---------------------------------------------------------------- capture-order

  const TooMany: string := "Too many requests. Please try again later."
  const InvalidOrderId: string := "Invalid order ID"
  const CaptureFailed: string := "Payment capture failed. Please try again."
  const MetadataMissing: string := "Order metadata missing"

  /** `{success, orderId}`, an error with its status, or the 500 carrying the
      message of whatever was thrown. */
  datatype CaptureReply = Captured(orderId: nat) | Status(code: nat, error: string) | Thrown

  datatype CapturePlan = Stop(reply: CaptureReply) | Submit(params: Params)

  /** `captureData.purchase_units?.[0]?.payments?.captures?.[0]?.amount?.value`. */
  function CaptureAmountValue(capture: Value): Option<Value>
  {
    var units := Get(capture, "purchase_units");
    var unit := if units.Some? && units.value.Array? && |units.value.items| > 0 then Some(units.value.items[0]) else None;
    var caps := Member(Member(unit, "payments"), "captures");
    var cap := if caps.Some? && caps.value.Array? && |caps.value.items| > 0 then Some(caps.value.items[0]) else None;
    Member(Member(cap, "amount"), "value")
  }

  /** The processOrder arguments the capture route builds from the legacy
      fields `email`, `marketingOptIn` and `plugins`; None where
      `plugins.length` throws. */
  function CaptureParams(md: Value, orderId: string, amount: Option<int>): (p: Option<Params>)
    ensures p.Some? ==> p.value.provider == PayPal && p.value.transactionId == orderId && p.value.amountTotal == amount
  {
    match LegacyPlugins(Get(md, "plugins"))
    case None => None
    case Some(plugins) => Some(Params(EmailOf(Get(md, "email")), PayPal, orderId, amount, plugins, IsTrue(Get(md, "marketingOptIn"))))
  }

  /** The capture route's decisions up to the processOrder call. Destructuring
      `{ orderID }` out of a `null` body throws; out of any other value it
      reads the member, or undefined. */
  function PlanCapture(allowed: bool, body: string, parse: JsonParser,
                       capture: Option<Value>, details: Option<Value>): (plan: CapturePlan)
    ensures !allowed ==> plan == Stop(Status(429, TooMany))
    ensures allowed && (parse(body).None? || parse(body) == Some(Null)) ==> plan == Stop(Thrown)
    ensures plan.Submit? ==>
      && allowed && parse(body).Some?
      && Get(parse(body).value, "orderID") == Some(Str(plan.params.transactionId))
      && plan.params.transactionId != ""
      && capture.Some? && Get(capture.value, "status") == Some(Str("COMPLETED"))
      && plan.params.provider == PayPal
    ensures plan.Stop? ==> !plan.reply.Captured?
  {
    if !allowed then Stop(Status(429, TooMany))
    else match parse(body)
      case None => Stop(Thrown)
      case Some(Null) => Stop(Thrown)
      case Some(req) =>
        var orderId := Get(req, "orderID");
        if !orderId.Some? || !orderId.value.Str? || orderId.value.s == "" then Stop(Status(400, InvalidOrderId))
        else if capture.None? then Stop(Thrown)
        else if Get(capture.value, "status") != Some(Str("COMPLETED")) then Stop(Status(400, CaptureFailed))
        else if details.None? then Stop(Thrown)
        else match CustomData(details.value)
          case None => Stop(Status(500, MetadataMissing))
          case Some(text) =>
            match parse(text)
            case None => Stop(Thrown)
            case Some(md) =>
              match CaptureParams(md, orderId.value.s, AmountCents(CaptureAmountValue(capture.value)))
              case None => Stop(Thrown)
              case Some(p) => Submit(p)
  }

  /** POST /api/paypal/capture-order. `capture` is capturePayPalOrder's answer
      and `details` getPayPalOrderDetails'. */
  method Capture(db: Db, allowed: bool, body: string, parse: JsonParser, capture: Option<Value>,
                 details: Option<Value>, draw: License.Draw, appUrl: Option<string>, now: nat)
    returns (reply: CaptureReply)
    requires db.Valid()
    modifies db
    ensures db.Valid()
    ensures match PlanCapture(allowed, body, parse, capture, details)
      case Stop(r) =>
        reply == r && db.orders == old(db.orders) && db.downloads == old(db.downloads) && db.nextOrderId == old(db.nextOrderId)
      case Submit(p) =>
        && reply == (if Accepted(old(db.orders), p) && Grants.GrantsFit(p.plugins) then Captured(old(db.nextOrderId)) else Thrown)
        && db.orders == OrdersAfter(old(db.orders), old(db.nextOrderId), p, draw, now)
        && db.downloads == DownloadsAfter(old(db.orders), old(db.downloads), old(db.nextOrderId), p, appUrl, now)
        && db.nextOrderId == NextAfter(old(db.nextOrderId), p)
  {
    var plan := PlanCapture(allowed, body, parse, capture, details);
    if plan.Stop? {
      return plan.reply;
    }
    var r := ProcessOrder(db, plan.params, draw, appUrl, now);
    reply := if r.Some? then Captured(r.value.orderId) else Thrown;
  }

  /** The capture route reads only the legacy fields: compressed members added
      to the metadata change nothing it submits. */
  lemma CaptureIgnoresCompressed(ms: seq<(string, Value)>, extra: seq<(string, Value)>, orderId: string, amount: Option<int>)
    requires forall i :: 0 <= i < |extra| ==> extra[i].0 in {"e", "m", "d", "p"}
    ensures CaptureParams(Object(ms + extra), orderId, amount) == CaptureParams(Object(ms), orderId, amount)
  {
    LookupAppendOther(ms, extra, "email");
    LookupAppendOther(ms, extra, "marketingOptIn");
    LookupAppendOther(ms, extra, "plugins");
  }

  /** A capture that PayPal did not complete is refused before any metadata is
      read, and the store is untouched. */
  lemma IncompleteCaptureRefused(body: string, parse: JsonParser, capture: Value, details: Option<Value>, orderId: string)
    requires parse(body).Some? && Get(parse(body).value, "orderID") == Some(Str(orderId)) && orderId != ""
    requires Get(capture, "status") != Some(Str("COMPLETED"))
    ensures PlanCapture(true, body, parse, Some(capture), details) == Stop(Status(400, CaptureFailed))
  {
  }
}
