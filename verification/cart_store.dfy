/** The cart store as a whole: the lazily initialised cart, the storage
    collaborator and the subscriber registry. Every exported operation of the
    store is a function from the store to an outcome; callbacks are
    identified by tokens and their execution is not modelled. */
module CartStore {
  import opened JsValues
  import opened Cart
  import Storage

  /** The storage collaborator: unavailable (no window, or local storage
      throws), or holding a payload under the cart key. */
  datatype Backend = Unavailable | Available(payload: Storage.Payload)

  /** A registered callback, by identity. */
  type Token = nat

  datatype Store = Store(initialized: bool, cart: seq<Item>, subscribers: set<Token>, backend: Backend)

  /** What an operation produces: the next store, the snapshot it hands out,
      and the subscribers it called with that snapshot. */
  datatype Outcome = Outcome(store: Store, snapshot: seq<Item>, notified: set<Token>)

  /** A store at the start of a page load, before its first access. */
  function Fresh(backend: Backend): Store {
    Store(false, [], {}, backend)
  }

  function LoadFrom(backend: Backend): seq<Item> {
    match backend
    case Unavailable => []
    case Available(p) => Storage.Load(p)
  }

  /** The backend after `persistToStorage` wrote `cart`. */
  function Written(backend: Backend, cart: seq<Item>): Backend {
    match backend
    case Unavailable => Unavailable
    case Available(_) => Available(Storage.Entries(Storage.Persist(cart)))
  }

  /** `ensureInitialized`: loads from storage on first access only. */
  function EnsureInitialized(s: Store): (r: Store)
    ensures r.initialized && r.subscribers == s.subscribers && r.backend == s.backend
    ensures s.initialized ==> r == s
    ensures !s.initialized ==> r.cart == LoadFrom(s.backend)
  {
    if s.initialized then s else s.(initialized := true, cart := LoadFrom(s.backend))
  }

  /** A mutation: store the new cart, persist it, then call every subscriber
      with a snapshot of it. */
  function Commit(s: Store, cart: seq<Item>): Outcome {
    Outcome(s.(cart := cart, backend := Written(s.backend, cart)), cart, s.subscribers)
  }

  /** A return of the current snapshot that neither persists nor notifies. */
  function Quiet(s: Store): Outcome {
    Outcome(s, s.cart, {})
  }

  /** `initializeCartStorage`: initialise, write back the normalised cart and notify. */
  function InitializeCartStorage(s: Store): (o: Outcome)
    ensures o.store.initialized && o.notified == s.subscribers == o.store.subscribers
    ensures o.snapshot == o.store.cart == GetCart(s).snapshot
    ensures s.initialized ==> o.snapshot == s.cart
    ensures !s.initialized ==> o.snapshot == LoadFrom(s.backend)
    ensures o.store.backend == Written(s.backend, o.snapshot)
  {
    var s1 := EnsureInitialized(s);
    Commit(s1, s1.cart)
  }

  /** `getCart`: the snapshot, initialising on first access. */
  function GetCart(s: Store): (o: Outcome)
    ensures o.store.initialized && o.notified == {} && o.store.backend == s.backend
    ensures o.store.cart == o.snapshot && o.store.subscribers == s.subscribers
    ensures o.snapshot == (if s.initialized then s.cart else LoadFrom(s.backend))
  {
    Quiet(EnsureInitialized(s))
  }

  /** `addItemToCart`. */
  function AddItemToCart(s: Store, req: AddRequest): (o: Outcome)
    ensures o.store.initialized && o.snapshot == o.store.cart
    ensures o.store.subscribers == s.subscribers
    ensures req.name == "" ==> o.notified == {} && o.store.backend == s.backend
    ensures req.name != "" ==> o.notified == s.subscribers && o.store.backend == Written(s.backend, o.snapshot)
    ensures o.snapshot == AddItem(GetCart(s).snapshot, req)
  {
    var s1 := EnsureInitialized(s);
    if req.name == "" then Quiet(s1) else Commit(s1, AddItem(s1.cart, req))
  }

  /** `removeCartItem`: always persists and notifies, even for an absent id. */
  function RemoveCartItem(s: Store, id: string): (o: Outcome)
    ensures o.store.initialized && o.snapshot == o.store.cart
    ensures o.notified == s.subscribers == o.store.subscribers
    ensures o.store.backend == Written(s.backend, o.snapshot)
    ensures o.snapshot == Remove(GetCart(s).snapshot, id)
  {
    var s1 := EnsureInitialized(s);
    Commit(s1, Remove(s1.cart, id))
  }

  /** `updateCartItemQuantity`: an unknown id returns quietly, an invalid
      quantity goes through `removeCartItem`. */
  function UpdateCartItemQuantity(s: Store, id: string, q: QuantityInput): (o: Outcome)
    ensures o.store.initialized && o.snapshot == o.store.cart
    ensures o.store.subscribers == s.subscribers
    ensures !HasId(GetCart(s).snapshot, id) ==> o.notified == {} && o.store.backend == s.backend
    ensures HasId(GetCart(s).snapshot, id) ==> o.notified == s.subscribers && o.store.backend == Written(s.backend, o.snapshot)
    ensures HasId(GetCart(s).snapshot, id) && (q.NotANumber? || q.value < 1.0) ==> o == RemoveCartItem(s, id)
    ensures o.snapshot == UpdateQuantity(GetCart(s).snapshot, id, q)
  {
    var s1 := EnsureInitialized(s);
    if !HasId(s1.cart, id) then Quiet(s1)
    else if q.NotANumber? || q.value < 1.0 then RemoveCartItem(s1, id)
    else Commit(s1, UpdateQuantity(s1.cart, id, q))
  }

  /** `setCartItemNote`. */
  function SetCartItemNote(s: Store, id: string, note: string): (o: Outcome)
    ensures o.store.initialized && o.snapshot == o.store.cart
    ensures o.store.subscribers == s.subscribers
    ensures !HasId(GetCart(s).snapshot, id) ==> o.notified == {} && o.store.backend == s.backend
    ensures HasId(GetCart(s).snapshot, id) ==> o.notified == s.subscribers && o.store.backend == Written(s.backend, o.snapshot)
    ensures o.snapshot == SetNote(GetCart(s).snapshot, id, note)
  {
    var s1 := EnsureInitialized(s);
    if !HasId(s1.cart, id) then Quiet(s1) else Commit(s1, SetNote(s1.cart, id, note))
  }

  /** `clearCart`. */
  function ClearCart(s: Store): (o: Outcome)
    ensures o.store.initialized && o.snapshot == o.store.cart == []
    ensures o.notified == s.subscribers == o.store.subscribers
    ensures o.store.backend == Written(s.backend, [])
    ensures ItemCount(o.snapshot) == 0 && Subtotal(o.snapshot) == 0
  {
    var s1 := EnsureInitialized(s);
    Commit(s1, [])
  }

  /** `subscribeToCart`: a non-function callback (`None`) is ignored without
      initialising; otherwise the callback is registered and called at once
      with the current snapshot. */
  function SubscribeToCart(s: Store, callback: Option<Token>): (o: Outcome)
    ensures callback.None? ==> o.store == s && o.notified == {}
    ensures callback.Some? ==>
      && o.store.initialized
      && o.store.backend == s.backend
      && o.store.subscribers == s.subscribers + {callback.value}
      && o.notified == {callback.value}
      && o.snapshot == o.store.cart == GetCart(s).snapshot
  {
    match callback
    case None => Outcome(s, [], {})
    case Some(t) =>
      var s1 := EnsureInitialized(s);
      Outcome(s1.(subscribers := s1.subscribers + {t}), s1.cart, {t})
  }

  /** The function `subscribeToCart` returns: drops the callback again. */
  function Unsubscribe(s: Store, t: Token): (r: Store)
    ensures t !in r.subscribers
    ensures r.subscribers == s.subscribers - {t}
    ensures r.cart == s.cart && r.initialized == s.initialized && r.backend == s.backend
  {
    s.(subscribers := s.subscribers - {t})
  }

  datatype Reading = Reading(store: Store, value: int)

  /** `getCartItemCount`, recomputed from a fresh snapshot. */
  function GetCartItemCount(s: Store): (r: Reading)
    ensures r.store == GetCart(s).store
    ensures r.value == ItemCount(GetCart(s).snapshot)
  {
    var o := GetCart(s);
    Reading(o.store, ItemCount(o.snapshot))
  }

  /** `getCartSubtotal`, recomputed from a fresh snapshot. */
  function GetCartSubtotal(s: Store): (r: Reading)
    ensures r.store == GetCart(s).store
    ensures r.value == Subtotal(GetCart(s).snapshot)
  {
    var o := GetCart(s);
    Reading(o.store, Subtotal(o.snapshot))
  }

  datatype SummaryReading = SummaryReading(store: Store, summary: Summary)

  /** `getOrderSummary`: one snapshot with the totals the two separate
      readers would report for it. */
  function GetOrderSummary(s: Store): (r: SummaryReading)
    ensures r.store == GetCart(s).store
    ensures r.summary.items == GetCart(s).snapshot
    ensures r.summary.subtotal == GetCartSubtotal(s).value
    ensures r.summary.totalItems == GetCartItemCount(s).value
  {
    var o := GetCart(s);
    SummaryReading(o.store, Summary(o.snapshot, Subtotal(o.snapshot), ItemCount(o.snapshot)))
  }

  /** One call into the store. */
  datatype Op =
    | Initialize
    | Read
    | Add(req: AddRequest)
    | SetQuantity(id: string, q: QuantityInput)
    | RemoveItem(id: string)
    | Note(id: string, note: string)
    | Clear
    | Subscribe(callback: Option<Token>)
    | Unsubscribe(token: Token)

  function Apply(s: Store, op: Op): Outcome {
    match op
    case Initialize => InitializeCartStorage(s)
    case Read => GetCart(s)
    case Add(req) => AddItemToCart(s, req)
    case SetQuantity(id, q) => UpdateCartItemQuantity(s, id, q)
    case RemoveItem(id) => RemoveCartItem(s, id)
    case Note(id, note) => SetCartItemNote(s, id, note)
    case Clear => ClearCart(s)
    case Subscribe(callback) => SubscribeToCart(s, callback)
    case Unsubscribe(t) => Outcome(Unsubscribe(s, t), [], {})
  }

  /** The store after a sequence of calls. */
  function Run(s: Store, ops: seq<Op>): Store {
    if |ops| == 0 then s else Apply(Run(s, ops[..|ops| - 1]), ops[|ops| - 1]).store
  }

  /** Every subscriber called along a sequence of calls. */
  function NotifiedDuring(s: Store, ops: seq<Op>): set<Token> {
    if |ops| == 0 then {}
    else NotifiedDuring(s, ops[..|ops| - 1]) + Apply(Run(s, ops[..|ops| - 1]), ops[|ops| - 1]).notified
  }

  /** The store invariant: the cart in memory (or, before the first access,
      the cart storage would load) is well formed, and once initialised the
      stored copy reloads to exactly the cart in memory. */
  ghost predicate Valid(s: Store) {
    && (if s.initialized then WellFormed(s.cart) else WellFormed(LoadFrom(s.backend)))
    && (s.initialized && s.backend.Available? ==> LoadFrom(s.backend) == s.cart)
  }

  /** The calls that persist the cart and call every subscriber, judged
      against the cart they find: a named add, a change or note for an id in
      the cart, any removal, a clear, and initialisation. */
  predicate Commits(cart: seq<Item>, op: Op) {
    match op
    case Initialize => true
    case Add(req) => req.name != ""
    case SetQuantity(id, _) => HasId(cart, id)
    case RemoveItem(_) => true
    case Note(id, _) => HasId(cart, id)
    case Clear => true
    case _ => false
  }

  /** The callers' side of the invariant: an add asks for at least one piece. */
  predicate Allowed(op: Op) {
    op.Add? ==> RequestedQuantity(op.req) >= 1
  }
}
