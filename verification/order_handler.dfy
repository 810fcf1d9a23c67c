/** The serverless order handler: the method gate, the empty-cart check, the
    per-item sanitisation and the totals of the order it forwards. The request
    body arrives already decoded; the webhook call and the clock are inputs. */
module OrderHandler {
  import opened JsValues
  import opened Cart
  import opened Storage

  /** The `items` property of the decoded body. */
  datatype ItemsField = Absent | NotArray | Listed(entries: seq<RawEntry>)

  /** The properties of the decoded body the handler reads. An absent
      `subtotal` or `totalItems` reads as `Num(0)`, an absent string as "". */
  datatype OrderFields = OrderFields(
    items: ItemsField, subtotal: Numeric, totalItems: Numeric, orderNote: string, submittedAt: string)

  /** The result of `JSON.parse`. A primitive or an array reads as an object
      without any of the properties (`NoFields`). */
  datatype Parsed = Unparsable | NullValue | Object(fields: OrderFields)

  /** `event.body`: missing (or empty) bodies are parsed as `'{}'`. */
  datatype Body = NoBody | Text(parsed: Parsed)

  const NoFields := OrderFields(Absent, Num(0), Num(0), "", "")

  /** An item as forwarded: only these five properties survive. */
  datatype SanitisedItem = SanitisedItem(id: string, name: string, quantity: int, price: int, notes: string)

  datatype Order = Order(
    items: seq<SanitisedItem>, subtotal: int, totalItems: int, orderNote: string, submittedAt: string)

  /** What the webhook call did, when a webhook URL is configured. */
  datatype WebhookResult = Threw | Responded(ok: bool, status: int, statusText: string)

  datatype WebhookReport = WebhookReport(status: int, statusText: string)

  /** The handler's reply, one constructor per status code it can return. */
  datatype Reply =
    | MethodNotAllowed
    | CartEmpty
    | Failed
    | Accepted(order: Order, forwarded: bool, webhookResponse: Option<WebhookReport>)

  function StatusCode(r: Reply): int {
    match r
    case MethodNotAllowed => 405
    case CartEmpty => 400
    case Failed => 500
    case Accepted(_, _, _) => 200
  }

  /** Where the partner ordering portal lives; every accepted reply carries it. */
  const RedirectUrl := "https://order.sakuraramen208.com/"

  /** Parsing throws, or destructuring `null` throws. */
  predicate Unreadable(body: Body) {
    body.Text? && !body.parsed.Object?
  }

  function FieldsOf(body: Body): OrderFields
    requires !Unreadable(body)
  {
    if body.NoBody? then NoFields else body.parsed.fields
  }

  /** The body carries a non-empty `items` array. */
  predicate HasItems(body: Body) {
    !Unreadable(body) && FieldsOf(body).items.Listed? && |FieldsOf(body).items.entries| > 0
  }

  /** Every element of the `items` array is readable (none is `null`). */
  predicate ItemsReadable(body: Body)
    requires HasItems(body)
  {
    !HasNull(FieldsOf(body).items.entries)
  }

  /** One element of `items.map(...)`: `id` and `name` pass through, the
      numbers are coerced with a fallback of 0, `notes` defaults to "" and
      every other property is dropped. */
  function SanitiseItem(raw: RawItem): (r: SanitisedItem)
    ensures r.id == raw.id && r.name == raw.name && r.notes == raw.notes
    ensures raw.quantity.Num? ==> r.quantity == raw.quantity.value
    ensures raw.price.Num? ==> r.price == raw.price.value
    ensures raw.quantity.NaN? ==> r.quantity == 0
    ensures raw.price.NaN? ==> r.price == 0
  {
    SanitisedItem(raw.id, raw.name, OrDefault(raw.quantity, 0), OrDefault(raw.price, 0), raw.notes)
  }

  /** `items.map(...)`, which throws on a `null` element. */
  function Sanitise(entries: seq<RawEntry>): (r: Option<seq<SanitisedItem>>)
    ensures r.None? <==> HasNull(entries)
    ensures r.Some? ==> |r.value| == |entries|
    ensures r.Some? ==> forall k :: 0 <= k < |entries| ==> r.value[k] == SanitiseItem(entries[k].fields)
  {
    if |entries| == 0 then Some([])
    else
      match entries[0]
      case NullEntry => None
      case Record(raw) =>
        match Sanitise(entries[1..])
        case None => None
        case Some(rest) => Some([SanitiseItem(raw)] + rest)
  }

  /** The fallback `totalItems`: the left fold of sanitised quantities. */
  function QuantitySum(items: seq<SanitisedItem>): int {
    if |items| == 0 then 0 else QuantitySum(items[..|items| - 1]) + items[|items| - 1].quantity
  }

  /** Non-negative quantities give a non-negative fallback total. */
  lemma {:induction false} QuantitySumNonNegative(items: seq<SanitisedItem>)
    requires forall k :: 0 <= k < |items| ==> items[k].quantity >= 0
    ensures QuantitySum(items) >= 0
    decreases |items|
  {
    if |items| > 0 {
      QuantitySumNonNegative(items[..|items| - 1]);
    }
  }

  /** The order payload built from the body's properties. */
  function BuildOrder(f: OrderFields, items: seq<SanitisedItem>, now: string): (o: Order)
    ensures o.items == items && o.orderNote == f.orderNote
    ensures f.subtotal.Num? ==> o.subtotal == f.subtotal.value
    ensures f.subtotal.NaN? ==> o.subtotal == 0
    ensures f.totalItems.Num? && f.totalItems.value != 0 ==> o.totalItems == f.totalItems.value
    ensures f.totalItems.NaN? || f.totalItems == Num(0) ==> o.totalItems == QuantitySum(items)
    ensures f.submittedAt != "" ==> o.submittedAt == f.submittedAt
    ensures f.submittedAt == "" ==> o.submittedAt == now
  {
    Order(items, OrDefault(f.subtotal, 0), OrDefault(f.totalItems, QuantitySum(items)), f.orderNote,
          if f.submittedAt != "" then f.submittedAt else now)
  }

  /** The webhook step: `forwarded` is the response's `ok`, and the report is
      kept only when a response arrived. */
  function Forward(order: Order, webhook: Option<WebhookResult>): (r: Reply)
    ensures r.Accepted? && r.order == order
    ensures r.forwarded <==> webhook.Some? && webhook.value.Responded? && webhook.value.ok
    ensures r.webhookResponse.Some? <==> webhook.Some? && webhook.value.Responded?
    ensures r.webhookResponse.Some? ==> r.webhookResponse.value.status == webhook.value.status
  {
    match webhook
    case None => Accepted(order, false, None)
    case Some(Threw) => Accepted(order, false, None)
    case Some(Responded(ok, status, text)) => Accepted(order, ok, Some(WebhookReport(status, text)))
  }

  /** `handler`. `webhook` is `None` when no webhook URL is configured and
      otherwise what the call to it did; `now` is the current time as an ISO
      string. */
  function Handle(httpMethod: string, body: Body, webhook: Option<WebhookResult>, now: string): (r: Reply)
    ensures StatusCode(r) == 405 <==> httpMethod != "POST"
    ensures StatusCode(r) == 500 <==>
      httpMethod == "POST" && (Unreadable(body) || (HasItems(body) && !ItemsReadable(body)))
    ensures StatusCode(r) == 400 <==> httpMethod == "POST" && !Unreadable(body) && !HasItems(body)
    ensures StatusCode(r) == 200 <==> httpMethod == "POST" && HasItems(body) && ItemsReadable(body)
    ensures r.Accepted? ==>
      && !Unreadable(body)
      && FieldsOf(body).items.Listed?
      && Sanitise(FieldsOf(body).items.entries) == Some(r.order.items)
      && r.order == BuildOrder(FieldsOf(body), r.order.items, now)
      && |r.order.items| == |FieldsOf(body).items.entries|
      && (r.forwarded <==> webhook.Some? && webhook.value.Responded? && webhook.value.ok)
  {
    if httpMethod != "POST" then MethodNotAllowed
    else if Unreadable(body) then Failed
    else
      var f := FieldsOf(body);
      if !f.items.Listed? || |f.items.entries| == 0 then CartEmpty
      else
        match Sanitise(f.items.entries)
        case None => Failed
        case Some(items) => Forward(BuildOrder(f, items, now), webhook)
  }

  /** The webhook decides only `forwarded` and the report: the status and the
      order built are the same whatever the call did, or whether a URL is set. */
  lemma WebhookNeverChangesStatus(httpMethod: string, body: Body, w1: Option<WebhookResult>, w2: Option<WebhookResult>, now: string)
    ensures StatusCode(Handle(httpMethod, body, w1, now)) == StatusCode(Handle(httpMethod, body, w2, now))
    ensures Handle(httpMethod, body, w1, now).Accepted? ==>
            Handle(httpMethod, body, w1, now).order == Handle(httpMethod, body, w2, now).order
  {
  }

  /** An item as a client would send it again after sanitisation. */
  function Resend(x: SanitisedItem): RawItem {
    RawItem(x.id, x.name, "", Num(x.price), Num(x.quantity), x.notes)
  }

  /** Sanitisation is a fixpoint: sanitising an already sanitised item changes
      nothing. */
  lemma SanitiseItemIdempotent(raw: RawItem)
    ensures SanitiseItem(Resend(SanitiseItem(raw))) == SanitiseItem(raw)
  {
  }

  /** The fallback sum agrees with the cart's item count when the quantities
      agree line by line. */
  lemma {:induction false} SumsAgree(items: seq<SanitisedItem>, cart: seq<Item>)
    requires |items| == |cart|
    requires forall k :: 0 <= k < |items| ==> items[k].quantity == cart[k].quantity
    ensures QuantitySum(items) == ItemCount(cart)
  {
    if |items| > 0 {
      var n := |items| - 1;
      SumsAgree(items[..n], cart[..n]);
    }
  }

  /** The body the checkout button posts: the order summary of the cart, its
      items in the stored form, plus the note and a timestamp. */
  function CheckoutFields(cart: seq<Item>, orderNote: string, submittedAt: string): OrderFields {
    OrderFields(Listed(Persist(cart)), Num(Subtotal(cart)), Num(ItemCount(cart)), orderNote, submittedAt)
  }

  /** End to end: a non-empty cart checked out through the handler is
      accepted, with every line's id, name, quantity, price and notes intact
      and the totals equal to the cart's own, whatever the webhook did. */
  lemma CheckoutAccepted(cart: seq<Item>, orderNote: string, submittedAt: string, webhook: Option<WebhookResult>, now: string)
    requires |cart| > 0
    ensures var r := Handle("POST", Text(Object(CheckoutFields(cart, orderNote, submittedAt))), webhook, now);
            && r.Accepted?
            && |r.order.items| == |cart|
            && (forall k :: 0 <= k < |cart| ==>
                  var x := r.order.items[k];
                  x.id == cart[k].id && x.name == cart[k].name && x.quantity == cart[k].quantity
                  && x.price == cart[k].price && x.notes == cart[k].notes)
            && r.order.subtotal == Subtotal(cart)
            && r.order.totalItems == ItemCount(cart)
            && r.order.orderNote == orderNote
            && (submittedAt != "" ==> r.order.submittedAt == submittedAt)
  {
    var f := CheckoutFields(cart, orderNote, submittedAt);
    CheckoutHandled(f, cart, webhook, now);
    SanitisePersisted(cart);
    SumsAgree(Sanitise(Persist(cart)).value, cart);
  }

  /** Sanitising the stored form of a cart keeps every line's id, name,
      quantity, price and notes. */
  lemma SanitisePersisted(cart: seq<Item>)
    ensures Sanitise(Persist(cart)).Some?
    ensures var items := Sanitise(Persist(cart)).value;
            && |items| == |cart|
            && forall k :: 0 <= k < |cart| ==>
                 items[k] == SanitisedItem(cart[k].id, cart[k].name, cart[k].quantity, cart[k].price, cart[k].notes)
  {
  }

  /** A body carrying the stored form of a non-empty cart passes every check:
      the reply is the forwarded order built from the sanitised items. */
  lemma CheckoutHandled(f: OrderFields, cart: seq<Item>, webhook: Option<WebhookResult>, now: string)
    requires |cart| > 0 && f.items == Listed(Persist(cart))
    ensures Sanitise(Persist(cart)).Some?
    ensures Handle("POST", Text(Object(f)), webhook, now)
            == Forward(BuildOrder(f, Sanitise(Persist(cart)).value, now), webhook)
    ensures Handle("POST", Text(Object(f)), webhook, now).Accepted?
    ensures Handle("POST", Text(Object(f)), webhook, now).order == BuildOrder(f, Sanitise(Persist(cart)).value, now)
  {
  }

  /** A client that leaves `totalItems` out still gets the cart's item count:
      the handler falls back to the sum of the sanitised quantities. */
  lemma CheckoutWithoutTotals(cart: seq<Item>, webhook: Option<WebhookResult>, now: string)
    requires |cart| > 0
    ensures var f := CheckoutFields(cart, "", "").(totalItems := Num(0));
            var r := Handle("POST", Text(Object(f)), webhook, now);
            r.Accepted? && r.order.totalItems == ItemCount(cart) && r.order.submittedAt == now
  {
    var f := CheckoutFields(cart, "", "").(totalItems := Num(0));
    CheckoutHandled(f, cart, webhook, now);
    SanitisePersisted(cart);
    var items := Sanitise(Persist(cart)).value;
    SumsAgree(items, cart);
    var o := BuildOrder(f, items, now);
    assert o.totalItems == ItemCount(cart) && o.submittedAt == now;
    assert Forward(o, webhook).order == o;
  }
}
