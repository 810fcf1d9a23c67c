/** Properties of the cart store over sequences of calls: the invariant every
    exported operation keeps, persistence across a page reload, and the
    subscriber discipline. */
module StoreLaws {
  import opened JsValues
  import opened Cart
  import opened CartStore
  import Storage
  import CartLaws

  /** Tokens an operation may add to the registry. */
  function Added(op: Op): set<Token> {
    if op.Subscribe? && op.callback.Some? then {op.callback.value} else {}
  }

  /** Committing a well-formed cart keeps the invariant: the stored copy
      reloads to exactly that cart. */
  lemma CommitKeepsValid(s: Store, cart: seq<Item>)
    requires s.initialized && WellFormed(cart)
    ensures Valid(Commit(s, cart).store)
  {
    if s.backend.Available? {
      Storage.WellFormedRoundTrip(cart);
    }
  }

  /** Every exported operation keeps the store invariant, provided adds ask
      for at least one piece. */
  lemma ApplyKeepsValid(s: Store, op: Op)
    requires Valid(s) && Allowed(op)
    ensures Valid(Apply(s, op).store)
  {
    var s1 := EnsureInitialized(s);
    assert Valid(s1) && WellFormed(s1.cart);
    match op
    case Initialize => CommitKeepsValid(s1, s1.cart);
    case Read =>
    case Add(req) =>
      if req.name != "" {
        CartLaws.AddKeepsWellFormed(s1.cart, req);
        CommitKeepsValid(s1, AddItem(s1.cart, req));
      }
    case SetQuantity(id, q) =>
      if HasId(s1.cart, id) {
        CartLaws.RemoveKeepsWellFormed(s1.cart, id);
        CartLaws.UpdateQuantityKeepsWellFormed(s1.cart, id, q);
        CommitKeepsValid(s1, Remove(s1.cart, id));
        CommitKeepsValid(s1, UpdateQuantity(s1.cart, id, q));
      }
    case RemoveItem(id) =>
      CartLaws.RemoveKeepsWellFormed(s1.cart, id);
      CommitKeepsValid(s1, Remove(s1.cart, id));
    case Note(id, note) =>
      if HasId(s1.cart, id) {
        CartLaws.SetNoteKeepsWellFormed(s1.cart, id, note);
        CommitKeepsValid(s1, SetNote(s1.cart, id, note));
      }
    case Clear => CommitKeepsValid(s1, []);
    case Subscribe(callback) =>
    case Unsubscribe(t) =>
  }

  /** The invariant holds after any sequence of allowed calls. */
  lemma {:induction false} RunKeepsValid(s: Store, ops: seq<Op>)
    requires Valid(s)
    requires forall k :: 0 <= k < |ops| ==> Allowed(ops[k])
    ensures Valid(Run(s, ops))
  {
    if |ops| > 0 {
      var prefix := ops[..|ops| - 1];
      RunKeepsValid(s, prefix);
      ApplyKeepsValid(Run(s, prefix), ops[|ops| - 1]);
    }
  }

  /** Persistence across a page reload: after any sequence of allowed calls
      on a store whose storage held a well-formed cart, a fresh store over
      the same storage sees exactly the cart the old one held. */
  lemma ReloadSeesLastCart(backend: Backend, ops: seq<Op>)
    requires WellFormed(LoadFrom(backend))
    requires forall k :: 0 <= k < |ops| ==> Allowed(ops[k])
    ensures var s := Run(Fresh(backend), ops);
            s.initialized && s.backend.Available? ==> GetCart(Fresh(s.backend)).snapshot == s.cart
  {
    RunKeepsValid(Fresh(backend), ops);
  }

  /** The cart handed out is always well formed. */
  lemma SnapshotsAreWellFormed(backend: Backend, ops: seq<Op>, op: Op)
    requires WellFormed(LoadFrom(backend))
    requires forall k :: 0 <= k < |ops| ==> Allowed(ops[k])
    requires Allowed(op) && !op.Unsubscribe? && op != Subscribe(None)
    ensures WellFormed(Apply(Run(Fresh(backend), ops), op).snapshot)
  {
    var s := Run(Fresh(backend), ops);
    RunKeepsValid(Fresh(backend), ops);
    ApplyKeepsValid(s, op);
    SnapshotIsCart(s, op);
  }

  /** Every call but an unsubscription or an ignored subscription leaves the
      store initialised and hands out the cart it holds. */
  lemma SnapshotIsCart(s: Store, op: Op)
    requires !op.Unsubscribe? && op != Subscribe(None)
    ensures Apply(s, op).store.initialized
    ensures Apply(s, op).snapshot == Apply(s, op).store.cart
  {
  }

  /** An operation only calls callbacks that were registered or that it
      registers itself, and only registers the token it was given. */
  lemma ApplyTouchesRegistered(s: Store, op: Op)
    ensures Apply(s, op).notified <= s.subscribers + Added(op)
    ensures Apply(s, op).store.subscribers <= s.subscribers + Added(op)
  {
  }

  /** Once a callback is unsubscribed it is never called again, and stays
      unregistered, until it subscribes afresh. */
  lemma {:induction false} UnsubscribedStaysSilent(s: Store, t: Token, ops: seq<Op>)
    requires t !in s.subscribers
    requires forall k :: 0 <= k < |ops| ==> ops[k] != Subscribe(Some(t))
    ensures t !in NotifiedDuring(s, ops)
    ensures t !in Run(s, ops).subscribers
  {
    if |ops| > 0 {
      var prefix := ops[..|ops| - 1];
      UnsubscribedStaysSilent(s, t, prefix);
      ApplyTouchesRegistered(Run(s, prefix), ops[|ops| - 1]);
    }
  }

  /** A registered callback stays registered through any sequence of calls
      that does not unsubscribe it; reads in particular never drop it. */
  lemma {:induction false} SubscriberStaysRegistered(s: Store, t: Token, ops: seq<Op>)
    requires t in s.subscribers
    requires forall k :: 0 <= k < |ops| ==> ops[k] != Unsubscribe(t)
    ensures t in Run(s, ops).subscribers
  {
    if |ops| > 0 {
      SubscriberStaysRegistered(s, t, ops[..|ops| - 1]);
    }
  }

  /** A registered callback is called by exactly the calls that commit a
      change, and by its own re-registration; reads, quiet no-ops and
      other subscriptions leave it alone. */
  lemma SubscriberHearsCommits(s: Store, t: Token, op: Op)
    requires t in s.subscribers
    ensures t in Apply(s, op).notified <==> Commits(GetCart(s).snapshot, op) || op == Subscribe(Some(t))
  {
  }

  /** Initialising twice hands out the same cart and leaves the same storage. */
  lemma InitializeIsIdempotent(s: Store)
    ensures var o1 := InitializeCartStorage(s);
            var o2 := InitializeCartStorage(o1.store);
            o2.snapshot == o1.snapshot && o2.store == o1.store
  {
  }

  /** A named add raises the count reported afterwards by the requested
      quantity, whether it merged or appended. */
  lemma AddRaisesCount(s: Store, req: AddRequest)
    requires req.name != ""
    ensures GetCartItemCount(AddItemToCart(s, req).store).value
            == GetCartItemCount(s).value + RequestedQuantity(req)
  {
    CartLaws.AddItemTotals(GetCart(s).snapshot, req);
  }

  /** Removing an item lowers the count reported afterwards by its quantity. */
  lemma RemoveLowersCount(s: Store, id: string)
    requires Valid(s) && HasId(GetCart(s).snapshot, id)
    ensures var cart := GetCart(s).snapshot;
            GetCartItemCount(RemoveCartItem(s, id).store).value
            == GetCartItemCount(s).value - cart[Find(cart, id).value].quantity
  {
    CartLaws.RemoveTotals(GetCart(s).snapshot, id);
  }
}
