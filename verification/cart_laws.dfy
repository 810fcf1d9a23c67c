/** Properties of the cart transitions: what each operation does to the
    totals, which operations keep the state invariant, and how repeated
    adds and removals compose. */
module CartLaws {
  import opened JsValues
  import opened Cart
  import Slug

  lemma {:induction false} ItemCountAppend(a: seq<Item>, b: seq<Item>)
    ensures ItemCount(a + b) == ItemCount(a) + ItemCount(b)
    decreases |b|
  {
    if |b| == 0 {
      assert a + b == a;
    } else {
      assert (a + b)[..|a + b| - 1] == a + b[..|b| - 1];
      ItemCountAppend(a, b[..|b| - 1]);
    }
  }

  lemma {:induction false} SubtotalAppend(a: seq<Item>, b: seq<Item>)
    ensures Subtotal(a + b) == Subtotal(a) + Subtotal(b)
    decreases |b|
  {
    if |b| == 0 {
      assert a + b == a;
    } else {
      assert (a + b)[..|a + b| - 1] == a + b[..|b| - 1];
      SubtotalAppend(a, b[..|b| - 1]);
    }
  }

  /** When every line holds at least one piece, the count is at least the
      number of lines. */
  lemma {:induction false} CountCoversLines(cart: seq<Item>)
    requires forall k :: 0 <= k < |cart| ==> cart[k].quantity >= 1
    ensures ItemCount(cart) >= |cart|
    decreases |cart|
  {
    if |cart| > 0 {
      CountCoversLines(cart[..|cart| - 1]);
    }
  }

  /** Non-negative prices and quantities give a non-negative subtotal. */
  lemma {:induction false} SubtotalNonNegative(cart: seq<Item>)
    requires forall k :: 0 <= k < |cart| ==> cart[k].price >= 0 && cart[k].quantity >= 0
    ensures Subtotal(cart) >= 0
    decreases |cart|
  {
    if |cart| > 0 {
      var last := cart[|cart| - 1];
      SubtotalNonNegative(cart[..|cart| - 1]);
      assert last.price * last.quantity >= 0;
    }
  }

  lemma SingleTotals(x: Item)
    ensures ItemCount([x]) == x.quantity
    ensures Subtotal([x]) == x.price * x.quantity
  {
    assert [x][..0] == [];
  }

  /** Replacing one line changes the totals by exactly that line's difference. */
  lemma TotalsAfterReplace(cart: seq<Item>, r: seq<Item>, i: nat)
    requires i < |cart| == |r|
    requires forall j :: 0 <= j < |r| && j != i ==> r[j] == cart[j]
    ensures ItemCount(r) == ItemCount(cart) - cart[i].quantity + r[i].quantity
    ensures Subtotal(r) == Subtotal(cart) - cart[i].price * cart[i].quantity + r[i].price * r[i].quantity
  {
    CountAfterReplace(cart, r, i);
    SubtotalAfterReplace(cart, r, i);
  }

  lemma {:induction false} CountAfterReplace(cart: seq<Item>, r: seq<Item>, i: nat)
    requires i < |cart| == |r|
    requires forall j :: 0 <= j < |r| && j != i ==> r[j] == cart[j]
    ensures ItemCount(r) == ItemCount(cart) - cart[i].quantity + r[i].quantity
    decreases |cart|
  {
    var n := |cart|;
    if i == n - 1 {
      assert r[..n - 1] == cart[..n - 1];
    } else {
      assert r[n - 1] == cart[n - 1];
      CountAfterReplace(cart[..n - 1], r[..n - 1], i);
    }
  }

  lemma {:induction false} SubtotalAfterReplace(cart: seq<Item>, r: seq<Item>, i: nat)
    requires i < |cart| == |r|
    requires forall j :: 0 <= j < |r| && j != i ==> r[j] == cart[j]
    ensures Subtotal(r) == Subtotal(cart) - cart[i].price * cart[i].quantity + r[i].price * r[i].quantity
    decreases |cart|
  {
    var n := |cart|;
    var c', r' := cart[..n - 1], r[..n - 1];
    assert Subtotal(r) == Subtotal(r') + r[n - 1].price * r[n - 1].quantity;
    assert Subtotal(cart) == Subtotal(c') + cart[n - 1].price * cart[n - 1].quantity;
    if i == n - 1 {
      assert r' == c';
    } else {
      assert r[n - 1] == cart[n - 1];
      assert r'[i] == r[i] && c'[i] == cart[i];
      SubtotalAfterReplace(c', r', i);
    }
  }

  /** A named add raises the item count by the requested quantity and the
      subtotal by that quantity at the price of the line it lands on (a merge
      keeps the stored price, whatever price the request carried). */
  lemma AddItemTotals(cart: seq<Item>, req: AddRequest)
    requires req.name != ""
    ensures var r := AddItem(cart, req);
            var i := Find(r, RequestedId(req)).value;
            && ItemCount(r) == ItemCount(cart) + RequestedQuantity(req)
            && Subtotal(r) == Subtotal(cart) + r[i].price * RequestedQuantity(req)
  {
    var id := RequestedId(req);
    var r := AddItem(cart, req);
    if HasId(cart, id) {
      var i := Find(cart, id).value;
      MergeTotals(cart, r, i, RequestedQuantity(req));
      assert Find(r, id) == Some(i);
    } else {
      AppendTotals(cart, r[|cart|]);
      assert r == cart + [r[|cart|]];
      assert Find(r, id) == Some(|cart|);
    }
  }

  lemma MergeTotals(cart: seq<Item>, r: seq<Item>, i: nat, q: int)
    requires i < |cart| == |r|
    requires r[i].quantity == cart[i].quantity + q && r[i].price == cart[i].price
    requires forall j :: 0 <= j < |r| && j != i ==> r[j] == cart[j]
    ensures ItemCount(r) == ItemCount(cart) + q
    ensures Subtotal(r) == Subtotal(cart) + r[i].price * q
  {
    TotalsAfterReplace(cart, r, i);
    RaiseLine(Subtotal(r), Subtotal(cart), cart[i].price, cart[i].quantity, r[i].price, r[i].quantity, q);
  }

  /** Re-pricing one line that went from `a` to `b == a + q` pieces at an
      unchanged price. */
  lemma RaiseLine(after: int, before: int, p: int, a: int, p': int, b: int, q: int)
    requires after == before - p * a + p' * b
    requires p' == p && b == a + q
    ensures after == before + p * q
  {
    MulDistributes(p, a, q);
  }

  lemma MulDistributes(p: int, a: int, b: int)
    ensures p * (a + b) == p * a + p * b
  {
  }

  lemma AppendTotals(cart: seq<Item>, x: Item)
    ensures ItemCount(cart + [x]) == ItemCount(cart) + x.quantity
    ensures Subtotal(cart + [x]) == Subtotal(cart) + x.price * x.quantity
  {
    ItemCountAppend(cart, [x]);
    SubtotalAppend(cart, [x]);
    SingleTotals(x);
  }

  /** Adding never creates a second line with an existing id. */
  lemma AddKeepsIdsUnique(cart: seq<Item>, req: AddRequest)
    requires UniqueIds(cart)
    ensures UniqueIds(AddItem(cart, req))
  {
    var r := AddItem(cart, req);
    if req.name != "" && !HasId(cart, RequestedId(req)) {
      forall i, j | 0 <= i < |r| && 0 <= j < |r| && i != j
        ensures r[i].id != r[j].id
      {
        if i < |cart| && j < |cart| {
        } else if i == |cart| {
          assert r[j] == cart[j];
        } else {
          assert r[i] == cart[i];
        }
      }
    }
  }

  /** Adding keeps the store invariant when the caller asks for at least one
      piece; `addItemToCart` itself never checks the quantity. */
  lemma AddKeepsWellFormed(cart: seq<Item>, req: AddRequest)
    requires WellFormed(cart)
    requires RequestedQuantity(req) >= 1
    ensures WellFormed(AddItem(cart, req))
  {
    AddKeepsIdsUnique(cart, req);
  }

  /** A non-positive requested quantity can take a merged line below one:
      the store invariant rests on the callers. */
  lemma AddCanBreakQuantityFloor()
    ensures var cart := [Item("gyoza", "Gyoza", "", 600, 1, "")];
            var req := AddRequest("gyoza", "Gyoza", "", Num(600), Some(-1), "");
            !WellFormed(AddItem(cart, req))
  {
    var cart := [Item("gyoza", "Gyoza", "", 600, 1, "")];
    var req := AddRequest("gyoza", "Gyoza", "", Num(600), Some(-1), "");
    assert RequestedId(req) == "gyoza";
    assert Find(cart, "gyoza") == Some(0);
  }

  /** The cart after a sequence of adds, applied in order. */
  function AddAll(cart: seq<Item>, reqs: seq<AddRequest>): seq<Item> {
    if |reqs| == 0 then cart else AddItem(AddAll(cart, reqs[..|reqs| - 1]), reqs[|reqs| - 1])
  }

  function TotalRequested(reqs: seq<AddRequest>): int {
    if |reqs| == 0 then 0 else TotalRequested(reqs[..|reqs| - 1]) + RequestedQuantity(reqs[|reqs| - 1])
  }

  /** The last non-empty note among the requests, or "" when there is none. */
  function LastNote(reqs: seq<AddRequest>): string {
    if |reqs| == 0 then ""
    else if reqs[|reqs| - 1].notes != "" then reqs[|reqs| - 1].notes
    else LastNote(reqs[..|reqs| - 1])
  }

  /** Adds that resolve to one new id build a single line whose quantity is
      the sum of the requested quantities (merge, not overwrite) and whose
      notes are the last non-empty note; the rest of the cart is untouched. */
  lemma {:induction false} RepeatedAddsAccumulate(cart: seq<Item>, reqs: seq<AddRequest>, id: string)
    requires |reqs| > 0
    requires !HasId(cart, id)
    requires forall k :: 0 <= k < |reqs| ==> reqs[k].name != "" && RequestedId(reqs[k]) == id
    ensures var r := AddAll(cart, reqs);
            && |r| == |cart| + 1
            && r[..|cart|] == cart
            && r[|cart|].id == id
            && r[|cart|].name == reqs[0].name
            && r[|cart|].description == reqs[0].description
            && r[|cart|].price == RequestedPrice(reqs[0])
            && r[|cart|].quantity == TotalRequested(reqs)
            && r[|cart|].notes == LastNote(reqs)
    decreases |reqs|
  {
    var n := |reqs|;
    var init := reqs[..n - 1];
    assert AddAll(cart, reqs) == AddItem(AddAll(cart, init), reqs[n - 1]);
    if n == 1 {
      assert init == [];
    } else {
      assert init[0] == reqs[0];
      RepeatedAddsAccumulate(cart, init, id);
      MergeIntoLast(cart, AddAll(cart, init), reqs[n - 1], id);
    }
  }

  /** A named add whose id is that of the line appended after `cart` merges
      into that line and leaves `cart` in front of it untouched. */
  lemma MergeIntoLast(cart: seq<Item>, prev: seq<Item>, req: AddRequest, id: string)
    requires !HasId(cart, id)
    requires |prev| == |cart| + 1 && prev[..|cart|] == cart && prev[|cart|].id == id
    requires req.name != "" && RequestedId(req) == id
    ensures var r := AddItem(prev, req);
            && |r| == |prev|
            && r[..|cart|] == cart
            && r[|cart|] == prev[|cart|].(
                 quantity := prev[|cart|].quantity + RequestedQuantity(req),
                 notes := if req.notes != "" then req.notes else prev[|cart|].notes)
  {
    assert forall j :: 0 <= j < |cart| ==> prev[j] == prev[..|cart|][j] == cart[j];
    assert Find(prev, id) == Some(|cart|);
    var r := AddItem(prev, req);
    assert r[..|cart|] == prev[..|cart|];
  }

  /** Removal distributes over concatenation, so it keeps the relative order
      of the remaining items. */
  lemma {:induction false} RemoveDistributes(a: seq<Item>, b: seq<Item>, id: string)
    ensures Remove(a + b, id) == Remove(a, id) + Remove(b, id)
    decreases |a|
  {
    if |a| == 0 {
      assert a + b == b;
    } else {
      assert (a + b)[1..] == a[1..] + b;
      RemoveDistributes(a[1..], b, id);
    }
  }

  /** In a cart with unique ids, removing a present id cuts out exactly its line. */
  lemma RemoveFromUnique(cart: seq<Item>, id: string)
    requires UniqueIds(cart) && HasId(cart, id)
    ensures var i := Find(cart, id).value;
            Remove(cart, id) == cart[..i] + cart[i + 1..]
  {
    var i := Find(cart, id).value;
    NoIdAfterUnique(cart, i);
    CutOut(cart, i, id);
  }

  lemma NoIdAfterUnique(cart: seq<Item>, i: nat)
    requires UniqueIds(cart) && i < |cart|
    ensures !HasId(cart[i + 1..], cart[i].id)
  {
    var post := cart[i + 1..];
    forall k | 0 <= k < |post|
      ensures post[k].id != cart[i].id
    {
      assert post[k] == cart[i + 1 + k];
    }
  }

  lemma CutOut(cart: seq<Item>, i: nat, id: string)
    requires i < |cart| && cart[i].id == id
    requires forall j :: 0 <= j < i ==> cart[j].id != id
    requires !HasId(cart[i + 1..], id)
    ensures Remove(cart, id) == cart[..i] + cart[i + 1..]
  {
    var pre, post := cart[..i], cart[i + 1..];
    var rest := [cart[i]] + post;
    assert cart == pre + rest;
    RemoveDistributes(pre, rest, id);
    RemoveDistributes([cart[i]], post, id);
    assert !HasId(pre, id);
    RemoveSingle(cart[i], id);
    assert Remove(rest, id) == post;
  }

  lemma RemoveSingle(x: Item, id: string)
    ensures Remove([x], id) == if x.id == id then [] else [x]
  {
    assert [x][1..] == [];
  }

  /** Removing a line drops exactly its quantity and its amount from the totals. */
  lemma RemoveTotals(cart: seq<Item>, id: string)
    requires UniqueIds(cart) && HasId(cart, id)
    ensures var i := Find(cart, id).value;
            && ItemCount(Remove(cart, id)) == ItemCount(cart) - cart[i].quantity
            && Subtotal(Remove(cart, id)) == Subtotal(cart) - cart[i].price * cart[i].quantity
  {
    var i := Find(cart, id).value;
    RemoveFromUnique(cart, id);
    var pre, x, post := cart[..i], cart[i], cart[i + 1..];
    SpliceCount(pre, x, post);
    SpliceSubtotal(pre, x, post);
    assert ItemCount(cart) == ItemCount(pre + [x] + post) && Subtotal(cart) == Subtotal(pre + [x] + post) by {
      assert cart == pre + [x] + post;
    }
  }

  /** The totals of a cart with one line spliced in. */
  lemma SpliceCount(pre: seq<Item>, x: Item, post: seq<Item>)
    ensures ItemCount(pre + [x] + post) == ItemCount(pre + post) + x.quantity
  {
    ItemCountAppend(pre + [x], post);
    ItemCountAppend(pre, [x]);
    ItemCountAppend(pre, post);
    SingleTotals(x);
  }

  lemma SpliceSubtotal(pre: seq<Item>, x: Item, post: seq<Item>)
    ensures Subtotal(pre + [x] + post) == Subtotal(pre + post) + x.price * x.quantity
  {
    SubtotalAppend(pre + [x], post);
    SubtotalAppend(pre, [x]);
    SubtotalAppend(pre, post);
    SingleTotals(x);
  }

  lemma RemoveKeepsWellFormed(cart: seq<Item>, id: string)
    requires WellFormed(cart)
    ensures WellFormed(Remove(cart, id))
  {
    if HasId(cart, id) {
      RemoveFromUnique(cart, id);
      CutKeepsWellFormed(cart, Find(cart, id).value);
    }
  }

  /** Cutting one line out of a well-formed cart leaves it well formed. */
  lemma CutKeepsWellFormed(cart: seq<Item>, i: nat)
    requires WellFormed(cart) && i < |cart|
    ensures WellFormed(cart[..i] + cart[i + 1..])
  {
    var r := cart[..i] + cart[i + 1..];
    assert forall a :: 0 <= a < |r| ==> r[a] == cart[if a < i then a else a + 1];
    forall a, b | 0 <= a < |r| && 0 <= b < |r| && a != b
      ensures r[a].id != r[b].id
    {
      var a' := if a < i then a else a + 1;
      var b' := if b < i then b else b + 1;
      assert r[a] == cart[a'] && r[b] == cart[b'];
    }
  }

  lemma UpdateQuantityKeepsWellFormed(cart: seq<Item>, id: string, q: QuantityInput)
    requires WellFormed(cart)
    ensures WellFormed(UpdateQuantity(cart, id, q))
  {
    if HasId(cart, id) {
      if q.NotANumber? || q.value < 1.0 {
        RemoveKeepsWellFormed(cart, id);
      } else {
        var r := UpdateQuantity(cart, id, q);
        var i := Find(cart, id).value;
        assert forall j :: 0 <= j < |r| ==> r[j].id == cart[j].id && r[j].name == cart[j].name;
      }
    }
  }

  /** Setting a valid quantity changes the count by the difference between the
      new floor and the old quantity. */
  lemma UpdateQuantityTotals(cart: seq<Item>, id: string, q: QuantityInput)
    requires HasId(cart, id) && q.Quantity? && q.value >= 1.0
    ensures var i := Find(cart, id).value;
            var r := UpdateQuantity(cart, id, q);
            ItemCount(r) == ItemCount(cart) - cart[i].quantity + r[i].quantity
  {
    var i := Find(cart, id).value;
    var r := UpdateQuantity(cart, id, q);
    TotalsAfterReplace(cart, r, i);
  }

  lemma SetNoteKeepsWellFormed(cart: seq<Item>, id: string, note: string)
    requires WellFormed(cart)
    ensures WellFormed(SetNote(cart, id, note))
  {
    var r := SetNote(cart, id, note);
    assert forall j :: 0 <= j < |r| ==> r[j].id == cart[j].id && r[j].name == cart[j].name && r[j].quantity == cart[j].quantity;
  }

  /** Notes never affect the totals. */
  lemma SetNoteKeepsTotals(cart: seq<Item>, id: string, note: string)
    ensures ItemCount(SetNote(cart, id, note)) == ItemCount(cart)
    ensures Subtotal(SetNote(cart, id, note)) == Subtotal(cart)
  {
    if HasId(cart, id) {
      var i := Find(cart, id).value;
      TotalsAfterReplace(cart, SetNote(cart, id, note), i);
    }
  }

  /** The last note written wins. */
  lemma SetNoteLastWriteWins(cart: seq<Item>, id: string, a: string, b: string)
    ensures SetNote(SetNote(cart, id, a), id, b) == SetNote(cart, id, b)
  {
    if HasId(cart, id) {
      var mid := SetNote(cart, id, a);
      var i := Find(cart, id).value;
      assert mid[i].id == id;
      assert Find(mid, id) == Some(i);
    }
  }

  /** Two named adds that resolve to the same id leave a single line holding
      both quantities and the later non-empty note. */
  lemma TwoAddsMerge(a: AddRequest, b: AddRequest)
    requires a.name != "" && b.name != "" && RequestedId(a) == RequestedId(b)
    ensures AddItem(AddItem([], a), b) ==
      [Item(RequestedId(a), a.name, a.description, RequestedPrice(a),
            RequestedQuantity(a) + RequestedQuantity(b), if b.notes != "" then b.notes else a.notes)]
  {
    var first := AddItem([], a);
    assert first == [Item(RequestedId(a), a.name, a.description, RequestedPrice(a), RequestedQuantity(a), a.notes)];
    assert Find(first, RequestedId(b)) == Some(0);
  }

  /** Adding "Tonkotsu Ramen" at 14.50 once and then twice more leaves one line,
      `tonkotsu-ramen-1450`, with quantity three. */
  lemma TonkotsuScenario()
    ensures var first := AddRequest("", "Tonkotsu Ramen", "", Num(1450), None, "");
            var second := AddRequest("", "Tonkotsu Ramen", "", Num(1450), Some(2), "");
            AddItem(AddItem([], first), second) == [Item("tonkotsu-ramen-1450", "Tonkotsu Ramen", "", 1450, 3, "")]
  {
    var first := AddRequest("", "Tonkotsu Ramen", "", Num(1450), None, "");
    var second := AddRequest("", "Tonkotsu Ramen", "", Num(1450), Some(2), "");
    Slug.TonkotsuRamenId();
    assert RequestedId(first) == "tonkotsu-ramen-1450";
    assert RequestedId(second) == "tonkotsu-ramen-1450";
    TwoAddsMerge(first, second);
  }

  /** Adding "Miso Ramen" and then setting its quantity to zero empties the cart. */
  lemma MisoScenario()
    ensures var req := AddRequest("", "Miso Ramen", "", Num(1300), None, "");
            var cart := AddItem([], req);
            var after := UpdateQuantity(cart, RequestedId(req), Quantity(0.0));
            after == [] && ItemCount(after) == 0
  {
    var req := AddRequest("", "Miso Ramen", "", Num(1300), None, "");
    var id := RequestedId(req);
    var cart := AddItem([], req);
    assert cart[0].id == id;
    assert |cart| == 1;
    assert Remove(cart, id) == [] + Remove(cart[1..], id);
  }
}
