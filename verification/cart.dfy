/** The cart state of the cart store: an ordered list of line items keyed by
    id, the pure transition behind each mutating operation, and the derived
    totals. Prices are integer cents. */
module Cart {
  import opened JsValues
  import Slug

  datatype Item = Item(id: string, name: string, description: string, price: int, quantity: int, notes: string)

  /** The argument object of `addItemToCart`. Missing strings are "", and a
      missing quantity is `None`, which the destructuring default turns into 1. */
  datatype AddRequest = AddRequest(
    id: string, name: string, description: string, price: Numeric, quantity: Option<int>, notes: string)

  /** The second argument of `updateCartItemQuantity` after `Number(...)`. */
  datatype QuantityInput = NotANumber | Quantity(value: real)

  predicate HasId(cart: seq<Item>, id: string) {
    exists i :: 0 <= i < |cart| && cart[i].id == id
  }

  /** No two line items share an id. */
  predicate UniqueIds(cart: seq<Item>) {
    forall i, j :: 0 <= i < |cart| && 0 <= j < |cart| && i != j ==> cart[i].id != cart[j].id
  }

  /** The state invariant the store keeps: unique ids, named items, and
      quantities of at least one. */
  predicate WellFormed(cart: seq<Item>) {
    && UniqueIds(cart)
    && forall i :: 0 <= i < |cart| ==> cart[i].name != "" && cart[i].quantity >= 1
  }

  /** `cartState.find(item => item.id === id)`, as the index of the first match. */
  function Find(cart: seq<Item>, id: string): (r: Option<nat>)
    ensures r.Some? ==> r.value < |cart| && cart[r.value].id == id
    ensures r.Some? ==> forall j :: 0 <= j < r.value ==> cart[j].id != id
    ensures r.None? <==> !HasId(cart, id)
  {
    if |cart| == 0 then None
    else if cart[0].id == id then Some(0)
    else match Find(cart[1..], id)
      case None => None
      case Some(k) => Some(k + 1)
  }

  lemma FindUnique(cart: seq<Item>, id: string, i: nat)
    requires UniqueIds(cart) && i < |cart| && cart[i].id == id
    ensures Find(cart, id) == Some(i)
  {
  }

  function RequestedQuantity(req: AddRequest): int {
    req.quantity.GetOr(1)
  }

  /** `Number(price) || 0`. */
  function RequestedPrice(req: AddRequest): int {
    OrDefault(req.price, 0)
  }

  /** The id an add request resolves to. */
  function RequestedId(req: AddRequest): string {
    Slug.ResolveId(req.name, RequestedPrice(req), req.id)
  }

  /** `addItemToCart`: a nameless request changes nothing; a request whose id
      is already in the cart merges into that line; any other request
      appends a new line. */
  function AddItem(cart: seq<Item>, req: AddRequest): (r: seq<Item>)
    ensures req.name == "" ==> r == cart
    ensures req.name != "" ==> HasId(r, RequestedId(req))
    ensures req.name != "" && HasId(cart, RequestedId(req)) ==>
      var i := Find(cart, RequestedId(req)).value;
      && |r| == |cart|
      && r[i].quantity == cart[i].quantity + RequestedQuantity(req)
      && r[i].notes == (if req.notes != "" then req.notes else cart[i].notes)
      && r[i] == cart[i].(quantity := r[i].quantity, notes := r[i].notes)
      && forall j :: 0 <= j < |r| && j != i ==> r[j] == cart[j]
    ensures req.name != "" && !HasId(cart, RequestedId(req)) ==>
      && |r| == |cart| + 1
      && r[..|cart|] == cart
      && r[|cart|] == Item(RequestedId(req), req.name, req.description, RequestedPrice(req), RequestedQuantity(req), req.notes)
  {
    if req.name == "" then cart
    else
      var id := RequestedId(req);
      match Find(cart, id)
      case Some(i) =>
        var merged := cart[i].(
          quantity := cart[i].quantity + RequestedQuantity(req),
          notes := if req.notes != "" then req.notes else cart[i].notes);
        cart[i := merged]
      case None =>
        var added := cart + [Item(id, req.name, req.description, RequestedPrice(req), RequestedQuantity(req), req.notes)];
        assert added[|cart|].id == id;
        added
  }

  /** `removeCartItem`: keeps, in order, exactly the items with another id. */
  function Remove(cart: seq<Item>, id: string): (r: seq<Item>)
    ensures !HasId(r, id)
    ensures |r| <= |cart|
    ensures !HasId(cart, id) ==> r == cart
  {
    if |cart| == 0 then []
    else (if cart[0].id == id then [] else [cart[0]]) + Remove(cart[1..], id)
  }

  /** `updateCartItemQuantity`: an unknown id changes nothing, NaN or a value
      below one removes the item, anything else stores its floor. */
  function UpdateQuantity(cart: seq<Item>, id: string, q: QuantityInput): (r: seq<Item>)
    ensures !HasId(cart, id) ==> r == cart
    ensures HasId(cart, id) && (q.NotANumber? || q.value < 1.0) ==> r == Remove(cart, id)
    ensures HasId(cart, id) && q.Quantity? && q.value >= 1.0 ==>
      var i := Find(cart, id).value;
      && |r| == |cart|
      && r[i].quantity >= 1
      && r[i].quantity as real <= q.value < r[i].quantity as real + 1.0
      && r[i] == cart[i].(quantity := r[i].quantity)
      && forall j :: 0 <= j < |r| && j != i ==> r[j] == cart[j]
  {
    match Find(cart, id)
    case None => cart
    case Some(i) =>
      if q.NotANumber? || q.value < 1.0 then Remove(cart, id)
      else cart[i := cart[i].(quantity := q.value.Floor)]
  }

  /** `setCartItemNote`: overwrites the notes of the found item verbatim. */
  function SetNote(cart: seq<Item>, id: string, note: string): (r: seq<Item>)
    ensures !HasId(cart, id) ==> r == cart
    ensures HasId(cart, id) ==>
      var i := Find(cart, id).value;
      && |r| == |cart|
      && r[i].notes == note
      && r[i] == cart[i].(notes := note)
      && forall j :: 0 <= j < |r| && j != i ==> r[j] == cart[j]
  {
    match Find(cart, id)
    case None => cart
    case Some(i) => cart[i := cart[i].(notes := note)]
  }

  /** `getCartItemCount`: the left fold of quantities. */
  function ItemCount(cart: seq<Item>): int {
    if |cart| == 0 then 0 else ItemCount(cart[..|cart| - 1]) + cart[|cart| - 1].quantity
  }

  /** `getCartSubtotal`: the left fold of price times quantity. */
  function Subtotal(cart: seq<Item>): int {
    if |cart| == 0 then 0
    else Subtotal(cart[..|cart| - 1]) + cart[|cart| - 1].price * cart[|cart| - 1].quantity
  }

  datatype Summary = Summary(items: seq<Item>, subtotal: int, totalItems: int)

  /** `getOrderSummary`: one pass over the snapshot accumulating both sums. */
  method OrderSummary(cart: seq<Item>) returns (s: Summary)
    ensures s.items == cart
    ensures s.subtotal == Subtotal(cart)
    ensures s.totalItems == ItemCount(cart)
  {
    var subtotal, totalItems := 0, 0;
    var k := 0;
    while k < |cart|
      invariant 0 <= k <= |cart|
      invariant subtotal == Subtotal(cart[..k])
      invariant totalItems == ItemCount(cart[..k])
    {
      assert cart[..k + 1][..k] == cart[..k];
      subtotal := subtotal + cart[k].price * cart[k].quantity;
      totalItems := totalItems + cart[k].quantity;
      k := k + 1;
    }
    assert cart[..k] == cart;
    s := Summary(cart, subtotal, totalItems);
  }
}
