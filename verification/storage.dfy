/** The persisted form of the cart: the JSON array written under the storage
    key, and the normalisation `loadFromStorage` applies when reading it back.
    JSON text is not modelled; a payload is the already-decoded value. */
module Storage {
  import opened JsValues
  import opened Cart

  /** An object element of the stored array. A primitive element reads as an
      object whose fields are all missing. */
  datatype RawItem = RawItem(
    id: string, name: string, description: string, price: Numeric, quantity: Numeric, notes: string)

  /** An element of the stored array; reading a property of `null` throws. */
  datatype RawEntry = NullEntry | Record(fields: RawItem)

  /** What the storage key holds: nothing (or storage unavailable), a value
      that does not parse or is not an array, or an array. */
  datatype Payload = Missing | Malformed | Entries(entries: seq<RawEntry>)

  /** The per-element defaults of `loadFromStorage`. */
  function Normalise(raw: RawItem): (x: Item)
    ensures x.id == raw.id && x.name == raw.name && x.description == raw.description && x.notes == raw.notes
    ensures raw.price.Num? ==> x.price == raw.price.value
    ensures raw.price.NaN? ==> x.price == 0
    ensures raw.quantity.Num? && raw.quantity.value != 0 ==> x.quantity == raw.quantity.value
    ensures raw.quantity.NaN? || raw.quantity == Num(0) ==> x.quantity == 1
  {
    Item(raw.id, raw.name, raw.description, OrDefault(raw.price, 0), OrDefault(raw.quantity, 1), raw.notes)
  }

  predicate HasNull(entries: seq<RawEntry>) {
    exists k :: 0 <= k < |entries| && entries[k].NullEntry?
  }

  /** Normalises every element and keeps the named ones, or fails when an
      element is `null` (the exception is caught and the whole load yields []). */
  function LoadEntries(entries: seq<RawEntry>): (r: Option<seq<Item>>)
    ensures r.None? <==> HasNull(entries)
    ensures r.Some? ==> |r.value| <= |entries|
    ensures r.Some? ==> forall k :: 0 <= k < |r.value| ==> r.value[k].name != "" && r.value[k].quantity != 0
  {
    if |entries| == 0 then Some([])
    else
      match entries[0]
      case NullEntry => None
      case Record(raw) =>
        match LoadEntries(entries[1..])
        case None => None
        case Some(rest) => Some(if raw.name != "" then [Normalise(raw)] + rest else rest)
  }

  /** One stored element: a `null` fails the load, a nameless record is
      dropped, a named one is normalised. */
  lemma LoadEntriesSingle(e: RawEntry)
    ensures e.NullEntry? ==> LoadEntries([e]).None?
    ensures e.Record? ==>
      LoadEntries([e]) == Some(if e.fields.name != "" then [Normalise(e.fields)] else [])
  {
    assert [e][1..] == [];
    if e.Record? {
      var head: seq<Item> := if e.fields.name != "" then [Normalise(e.fields)] else [];
      assert head + [] == head;
    }
  }

  /** Loading works element by element: the load of two stored arrays joined
      is the two loads joined, and fails when either fails. */
  lemma {:induction false} LoadEntriesAppend(a: seq<RawEntry>, b: seq<RawEntry>)
    ensures LoadEntries(a + b) ==
      if LoadEntries(a).Some? && LoadEntries(b).Some? then Some(LoadEntries(a).value + LoadEntries(b).value)
      else None
    decreases |a|
  {
    if |a| == 0 {
      assert a + b == b;
      if LoadEntries(b).Some? {
        assert [] + LoadEntries(b).value == LoadEntries(b).value;
      }
    } else {
      assert (a + b)[0] == a[0];
      assert (a + b)[1..] == a[1..] + b;
      LoadEntriesAppend(a[1..], b);
      if a[0].Record? && LoadEntries(a[1..]).Some? && LoadEntries(b).Some? {
        var head := if a[0].fields.name != "" then [Normalise(a[0].fields)] else [];
        assert head + (LoadEntries(a[1..]).value + LoadEntries(b).value)
            == (head + LoadEntries(a[1..]).value) + LoadEntries(b).value;
      }
    }
  }

  /** `loadFromStorage`: never fails; anything unusable gives the empty cart. */
  function Load(p: Payload): (r: seq<Item>)
    ensures p.Missing? || p.Malformed? ==> r == []
    ensures p.Entries? && HasNull(p.entries) ==> r == []
    ensures p.Entries? && !HasNull(p.entries) ==> Some(r) == LoadEntries(p.entries)
    ensures forall k :: 0 <= k < |r| ==> r[k].name != "" && r[k].quantity != 0
  {
    match p
    case Missing => []
    case Malformed => []
    case Entries(entries) => LoadEntries(entries).GetOr([])
  }

  function Encode(x: Item): RawItem {
    RawItem(x.id, x.name, x.description, Num(x.price), Num(x.quantity), x.notes)
  }

  /** `persistToStorage`: the array `JSON.stringify(cartState)` writes, as it
      decodes again. */
  function Persist(cart: seq<Item>): (r: seq<RawEntry>)
    ensures |r| == |cart| && !HasNull(r)
  {
    seq(|cart|, k requires 0 <= k < |cart| => Record(Encode(cart[k])))
  }

  /** The named items of a cart, in order. */
  function NamedOnly(cart: seq<Item>): seq<Item> {
    if |cart| == 0 then []
    else (if cart[0].name != "" then [cart[0]] else []) + NamedOnly(cart[1..])
  }

  /** Persisting and reloading gives back the cart minus its nameless items,
      as long as no quantity is zero (a zero quantity reloads as 1). */
  lemma {:induction false} PersistThenLoad(cart: seq<Item>)
    requires forall k :: 0 <= k < |cart| ==> cart[k].quantity != 0
    ensures Load(Entries(Persist(cart))) == NamedOnly(cart)
    decreases |cart|
  {
    if |cart| > 0 {
      assert Persist(cart)[1..] == Persist(cart[1..]);
      PersistThenLoad(cart[1..]);
      assert Normalise(Encode(cart[0])) == cart[0];
    }
  }

  /** The round trip is exact precisely for carts whose items all have names
      and nonzero quantities. */
  lemma RoundTrip(cart: seq<Item>)
    ensures Load(Entries(Persist(cart))) == cart <==>
            forall k :: 0 <= k < |cart| ==> cart[k].name != "" && cart[k].quantity != 0
  {
    if forall k :: 0 <= k < |cart| ==> cart[k].name != "" && cart[k].quantity != 0 {
      PersistThenLoad(cart);
      NamedOnlyKeepsNamed(cart);
    }
  }

  lemma {:induction false} NamedOnlyKeepsNamed(cart: seq<Item>)
    requires forall k :: 0 <= k < |cart| ==> cart[k].name != ""
    ensures NamedOnly(cart) == cart
    decreases |cart|
  {
    if |cart| > 0 {
      NamedOnlyKeepsNamed(cart[1..]);
      assert cart == [cart[0]] + cart[1..];
    }
  }

  /** Every cart the store keeps survives a reload unchanged. */
  lemma WellFormedRoundTrip(cart: seq<Item>)
    requires WellFormed(cart)
    ensures Load(Entries(Persist(cart))) == cart
  {
    RoundTrip(cart);
  }

  /** Loading normalises once and for all: writing back what was loaded and
      loading again yields the same cart. */
  lemma LoadIsIdempotent(p: Payload)
    ensures Load(Entries(Persist(Load(p)))) == Load(p)
  {
    RoundTrip(Load(p));
  }

  /** Loading does not de-duplicate ids: a stored array with the same id twice
      loads into a cart that breaks id uniqueness. */
  lemma LoadKeepsDuplicateIds()
    ensures var raw := RawItem("gyoza", "Gyoza", "", Num(600), Num(1), "");
            !UniqueIds(Load(Entries([Record(raw), Record(raw)])))
  {
    var raw := RawItem("gyoza", "Gyoza", "", Num(600), Num(1), "");
    var one := [Record(raw)];
    LoadCons(raw, []);
    assert [Record(raw)] + [] == one;
    LoadCons(raw, one);
    assert [Record(raw)] + one == [Record(raw), Record(raw)];
    var loaded := Load(Entries([Record(raw), Record(raw)]));
    assert loaded == [Normalise(raw)] + [Normalise(raw)];
    assert loaded[0].id == loaded[1].id;
  }

  lemma LoadCons(raw: RawItem, rest: seq<RawEntry>)
    requires raw.name != "" && !HasNull(rest)
    ensures LoadEntries([Record(raw)] + rest) == Some([Normalise(raw)] + LoadEntries(rest).value)
  {
    assert ([Record(raw)] + rest)[1..] == rest;
  }

  /** Loading does not restore the quantity floor either: a stored negative
      quantity is truthy and is kept. */
  lemma LoadKeepsNegativeQuantity()
    ensures var raw := RawItem("gyoza", "Gyoza", "", Num(600), Num(-2), "");
            Load(Entries([Record(raw)])) == [Item("gyoza", "Gyoza", "", 600, -2, "")]
  {
    var raw := RawItem("gyoza", "Gyoza", "", Num(600), Num(-2), "");
    LoadCons(raw, []);
    assert [Record(raw)] + [] == [Record(raw)];
  }
}
