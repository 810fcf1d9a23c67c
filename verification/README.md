# Sakura Ramen cart store and order handler, in Dafny

This project models the two parts of the Sakura Ramen site that hold real
logic:

- **The cart store** (`src/utils/cartLogic.js`). It keeps a list of cart line
  items, loads it lazily from local storage on first access, and writes it
  back after every change. It calls every registered subscriber with a fresh
  snapshot after each change. It derives a line item's id from the dish name
  and price when no id is given, and computes the item count, the subtotal
  and the order summary.
- **The order handler** (`netlify/functions/sendOrderToExternal.js`). It
  accepts the checkout POST, rejects other methods and empty carts, and
  sanitises every line item. It computes the order's totals and reports
  whether the configured webhook accepted the order.

The model is purely functional. A cart is a `seq<Item>`, and every exported
store operation is a function of a `Store` value. A mutation, `getCart` and
`subscribeToCart` return an `Outcome`: the next store, the snapshot handed
back, and the set of subscribers called. The count and subtotal readers
return a `Reading` and `getOrderSummary` a `SummaryReading` (the next store
and the value read), and the function `subscribeToCart` hands back returns
the next `Store`. The storage collaborator is a field of the store. It
either holds the decoded payload under the cart key or is unavailable.
Callbacks are identified by tokens. The handler is one function from the
HTTP method, the decoded body, the webhook's behaviour and the current time
to a reply.

Modules, one per component:

| file | module | models |
|---|---|---|
| `js_values.dfy` | `JsValues` | `Option`, and JavaScript's `Number(x) \|\| d` coercion (`Numeric`, `OrDefault`) |
| `slug.dfy` | `Slug` | `normaliseId`: the slug of a name, the price suffix, and decimal rendering |
| `cart.dfy` | `Cart` | line items and the pure cart transitions: find, add/merge, remove, set quantity, set note, totals |
| `cart_laws.dfy` | `CartLaws` | laws of those transitions: totals, the uniqueness and well-formedness invariant, worked scenarios |
| `storage.dfy` | `Storage` | `loadFromStorage` normalisation, `persistToStorage` encoding, the round trip |
| `cart_store.dfy` | `CartStore` | the store itself: lazy initialisation, persist-then-notify, subscribers, the exported API |
| `store_laws.dfy` | `StoreLaws` | the store invariant over any sequence of calls, reloads, and the subscriber discipline |
| `order_handler.dfy` | `OrderHandler` | the serverless handler: status codes, sanitisation, totals, forwarding |

Representation choices:

- **Prices** are integer cents. `Math.round(price * 100)` in the id suffix is
  therefore the price itself.
- **Numbers read from JSON** are `Numeric = NaN | Num(int)`, so `Number(x) || d`
  is `OrDefault(x, d)`.
- **Quantities given to `updateCartItemQuantity`** are `NotANumber` or a real
  number, and `Math.floor` is the real number's floor.
- **A missing string property** reads as `""`, which is falsy in JavaScript
  as `undefined` is.
- **`null` array elements** are modelled explicitly, because reading a
  property of `null` throws. In `loadFromStorage` the exception empties the
  whole cart. In the handler it becomes status 500.

Behaviours of the code the model makes explicit:

- **Malformed stored elements.** A `null` element of the stored array throws
  inside `map`, and the catch turns the whole load into the empty cart; no
  element is skipped on its own (`Storage.LoadEntries`, `Storage.Load`).
- **Storage availability.** The code probes local storage before every read
  and write. The model fixes availability for the lifetime of a `Store`,
  which agrees with the code whenever availability does not change between
  calls.
- **Persistence round trip.** A stored quantity of 0 reloads as 1
  (`Number(q) || 1`) and a nameless line is filtered out on reload.
  `Storage.RoundTrip` states exactly when writing then reading gives the
  cart back.
- **Quantity floor.** `addItemToCart` never checks the requested quantity.
  A negative or zero quantity can therefore bring a line's quantity below 1
  (`CartLaws.AddCanBreakQuantityFloor`). The store invariant is proved for
  callers that add at least one piece, which is what the site's UI does.
- **Duplicate ids.** `loadFromStorage` does not remove duplicate ids
  (`Storage.LoadKeepsDuplicateIds`). The store invariant therefore assumes
  that the stored cart was well formed when the page loaded.

## Model

| member | source | states |
|---|---|---|
| `Slug.Collapse` | src/utils/cartLogic.js:88 | lower-casing and replacing each run of non-`[a-z0-9]` characters by one dash yields only `[a-z0-9-]` characters, never two dashes in a row, and no leading dash when a run was already open |
| `Slug.TrimEnd` | src/utils/cartLogic.js:88 | the `-$` half of the trim drops a trailing dash and nothing else: the input is the result, or the result followed by one dash exactly when the input ended in a dash; the result is a well-shaped slug |
| `Slug.MakeSlug` | src/utils/cartLogic.js:88 | the slug of any name is in slug shape: `[a-z0-9]` words joined by single dashes, with no dash at either end (its content is stated by `Slug.SlugOfAnyName`) |
| `Slug.SlugKeepsAlnums` | src/utils/cartLogic.js:88 | the slug keeps exactly the name's letters and digits, lower-cased and in order |
| `Slug.CollapseKeepsAlnums` | src/utils/cartLogic.js:88 | collapsing runs neither loses nor adds a letter or digit |
| `Slug.CollapseFixesSlugs` | src/utils/cartLogic.js:88 | a string already in slug shape passes through the collapsing step unchanged |
| `Slug.CollapseWord` | src/utils/cartLogic.js:88 | a word of letters and digits comes out of the collapsing step lower-cased, and closes any open separator run |
| `Slug.CollapseGap` | src/utils/cartLogic.js:88 | a separator run of any length becomes exactly one dash, or nothing when a run is already open |
| `Slug.CollapseLayout` | src/utils/cartLogic.js:88 | a name read as separator runs and words collapses to an optional leading dash, the lower-cased words joined by single dashes, and an optional trailing dash |
| `Slug.TrimmedCollapse` | src/utils/cartLogic.js:88 | when the collapsed name is an optional dash, a core with no dash at either end, and an optional dash, the slug is exactly that core |
| `Slug.SlugJoinsWords` | src/utils/cartLogic.js:88 | the slug of a laid-out name is its lower-cased words joined by single dashes |
| `Slug.LayOut` | src/utils/cartLogic.js:88 | every name splits into non-empty words of letters and digits separated by non-empty separator runs, with optional runs at either end |
| `Slug.SlugOfAnyName` | src/utils/cartLogic.js:88 | for every name there are words and separator runs that spell it, and its slug is those words, lower-cased, joined by single dashes |
| `Slug.JoinShape` | src/utils/cartLogic.js:88 | non-empty slug words joined by dashes give a non-empty string with no dash at either end |
| `Slug.SlugIdempotent` | src/utils/cartLogic.js:88 | slugging a slug changes nothing |
| `Slug.NatToString` | src/utils/cartLogic.js:89 | the decimal rendering of the cents in the suffix is a non-empty string of digits with no leading zero: it starts with `0` exactly for zero |
| `Slug.PriceSuffix` | src/utils/cartLogic.js:89 | the suffix is empty exactly when the price is 0, and otherwise a dash followed by the rendered cents |
| `Slug.DigitsRoundTrip` | src/utils/cartLogic.js:89 | reading the rendered digits back gives the number |
| `Slug.IntToStringInjective` | src/utils/cartLogic.js:89 | two different cent amounts never render to the same text |
| `Slug.ResolveId` | src/utils/cartLogic.js:83-91 | a provided id is used verbatim. Otherwise the id is the slug of the name, followed by a dash and the cents when the price is nonzero, and the slug alone when it is 0 |
| `Slug.DerivedIdSeparatesPrices` | src/utils/cartLogic.js:83-91 | without a provided id, the same name at two different cent amounts gets two different ids |
| `Slug.PriceRecoverable` | src/utils/cartLogic.js:88-90 | a derived id with a positive price is the slug, a dash and digits that spell the price in cents |
| `Slug.DerivedIdParts` | src/utils/cartLogic.js:88-90 | when collapsing leaves no dash at either end, the derived id is the collapsed name, a dash and the price digits |
| `Slug.TwoWordCollapse` | src/utils/cartLogic.js:88 | two words around one space, each a leading letter or digit in any case followed by lower-case letters and digits, collapse to the two words with their first character lower-cased, joined by one dash; the general case is `Slug.SlugJoinsWords` |
| `Slug.TonkotsuRamenId` | src/utils/cartLogic.js:83-91 | "Tonkotsu Ramen" at 14.50 gets the id `tonkotsu-ramen-1450` |
| `Cart.Find` | src/utils/cartLogic.js:122 | `find` returns the first line with the id, and nothing exactly when no line has it |
| `Cart.FindUnique` | src/utils/cartLogic.js:122 | in a cart with unique ids, the line found is the only line with that id |
| `Cart.AddItem` | src/utils/cartLogic.js:113-138 | a nameless request changes nothing. An existing id gets its quantity raised by the requested amount, and its notes replaced only by non-empty notes, with every other line untouched. A new id gets one line appended with the coerced price and default quantity 1 |
| `Cart.Remove` | src/utils/cartLogic.js:168 | no line with the id survives, the cart does not grow, and an absent id leaves the cart as it was |
| `Cart.UpdateQuantity` | src/utils/cartLogic.js:145-164 | an unknown id changes nothing. Not-a-number or a value below 1 removes the line. Otherwise the line's quantity becomes the floor of the value, at least 1, and nothing else changes |
| `Cart.SetNote` | src/utils/cartLogic.js:174-181 | the found line's notes become the given note verbatim (even empty), every other field and line is kept, and an unknown id changes nothing |
| `Cart.OrderSummary` | src/utils/cartLogic.js:215-225 | the summary holds the snapshot, the sum of price times quantity and the sum of quantities |
| `CartLaws.CountCoversLines` | src/utils/cartLogic.js:105-107 | when every line holds at least one piece, the item count is at least the number of lines |
| `CartLaws.SubtotalNonNegative` | src/utils/cartLogic.js:109-111 | non-negative prices and quantities give a non-negative subtotal |
| `CartLaws.ItemCountAppend` | src/utils/cartLogic.js:105-107 | the item count of two carts joined is the sum of their counts |
| `CartLaws.SubtotalAppend` | src/utils/cartLogic.js:109-111 | the subtotal of two carts joined is the sum of their subtotals |
| `CartLaws.TotalsAfterReplace` | src/utils/cartLogic.js:105-111 | changing one line changes the count and subtotal by exactly that line's difference |
| `CartLaws.MergeTotals` | src/utils/cartLogic.js:105-111 | raising one line's quantity by `q` at an unchanged price raises the count by `q` and the subtotal by the price times `q` |
| `CartLaws.AddItemTotals` | src/utils/cartLogic.js:113-138 | a named add raises the count by the requested quantity and the subtotal by that quantity at the price of the line it lands on |
| `CartLaws.AddKeepsIdsUnique` | src/utils/cartLogic.js:122-138 | adding never creates a second line with an existing id |
| `CartLaws.AddKeepsWellFormed` | src/utils/cartLogic.js:113-138 | adding at least one piece keeps ids unique, names non-empty and quantities at least 1 |
| `CartLaws.AddCanBreakQuantityFloor` | src/utils/cartLogic.js:124-125 | adding a quantity of -1 to a line holding 1 leaves a line with quantity 0, because the requested quantity is never checked |
| `CartLaws.RepeatedAddsAccumulate` | src/utils/cartLogic.js:122-137 | any number of adds of one new id leave one line, whose quantity is the sum of the requests and whose notes are the last non-empty notes |
| `CartLaws.MergeIntoLast` | src/utils/cartLogic.js:122-131 | a named add whose id is that of the line appended last raises that line's quantity, replaces its notes only by non-empty notes, and leaves the lines in front of it untouched |
| `CartLaws.RemoveDistributes` | src/utils/cartLogic.js:168 | filtering a joined cart is joining the filtered parts |
| `CartLaws.RemoveFromUnique` | src/utils/cartLogic.js:168 | in a cart with unique ids, removing an id cuts out exactly the found line |
| `CartLaws.RemoveTotals` | src/utils/cartLogic.js:166-172 | removing a present line lowers the count and subtotal by exactly that line's share |
| `CartLaws.SpliceCount` | src/utils/cartLogic.js:105-107 | splicing one line into a cart raises the item count by exactly its quantity |
| `CartLaws.SpliceSubtotal` | src/utils/cartLogic.js:109-111 | splicing one line into a cart raises the subtotal by exactly its price times quantity |
| `CartLaws.RemoveKeepsWellFormed` | src/utils/cartLogic.js:166-172 | removing keeps ids unique, names non-empty and quantities at least 1 |
| `CartLaws.CutKeepsWellFormed` | src/utils/cartLogic.js:168 | cutting one line out of a well-formed cart leaves it well formed |
| `CartLaws.UpdateQuantityKeepsWellFormed` | src/utils/cartLogic.js:145-164 | setting a quantity keeps ids unique, names non-empty and quantities at least 1 |
| `CartLaws.UpdateQuantityTotals` | src/utils/cartLogic.js:145-164 | a valid new quantity changes the item count by exactly the difference between the new floored quantity and the old one |
| `CartLaws.SetNoteKeepsWellFormed` | src/utils/cartLogic.js:174-185 | setting a note keeps ids unique, names non-empty and quantities at least 1 |
| `CartLaws.SetNoteKeepsTotals` | src/utils/cartLogic.js:174-185 | setting a note changes neither the count nor the subtotal |
| `CartLaws.SetNoteLastWriteWins` | src/utils/cartLogic.js:181 | setting a note twice is the same as setting only the second one |
| `CartLaws.TwoAddsMerge` | src/utils/cartLogic.js:122-137 | two named adds resolving to one id leave a single line holding both quantities |
| `CartLaws.TonkotsuScenario` | src/utils/cartLogic.js:113-143 | adding "Tonkotsu Ramen" at 14.50 with no quantity and then with quantity 2 leaves one line `tonkotsu-ramen-1450` with quantity 3 |
| `CartLaws.MisoScenario` | src/utils/cartLogic.js:113-164 | adding "Miso Ramen" at 13.00 and then setting its quantity to 0 leaves the cart empty with count 0 |
| `Storage.LoadEntries` | src/utils/cartLogic.js:33-40 | reading the stored array fails exactly when an element is `null`; otherwise every loaded line has a name and a nonzero quantity, and none is invented |
| `Storage.Normalise` | src/utils/cartLogic.js:33-40 | id, name, description and notes are kept; a numeric price is kept and a non-numeric one becomes 0; a nonzero numeric quantity is kept, and a non-numeric quantity or 0 becomes 1 |
| `Storage.LoadEntriesSingle` | src/utils/cartLogic.js:33-40 | a one-element array fails to load when the element is `null`, and otherwise loads as its normalised line when it is named and as nothing when it is not |
| `Storage.LoadEntriesAppend` | src/utils/cartLogic.js:33-40 | loading two arrays joined gives the two loads joined, and fails exactly when either part fails |
| `Storage.LoadCons` | src/utils/cartLogic.js:33-40 | a named element in front of a readable array loads as its normalised line in front of that array's load |
| `Storage.NamedOnlyKeepsNamed` | src/utils/cartLogic.js:40 | filtering on the name keeps a cart whose lines are all named unchanged |
| `Storage.Load` | src/utils/cartLogic.js:17-45 | a missing, unparsable or non-array payload, or one with a `null` element, loads as the empty cart; a readable array with no `null` loads as exactly its normalised named records in order (`Storage.LoadEntries`); every loaded line has a name and a nonzero quantity |
| `Storage.Persist` | src/utils/cartLogic.js:47-57 | the written array has one object per line and no `null` |
| `Storage.PersistThenLoad` | src/utils/cartLogic.js:17-57 | with no zero quantity, writing then reading gives back exactly the named lines, in order |
| `Storage.RoundTrip` | src/utils/cartLogic.js:17-57 | writing then reading gives back the cart exactly when every line has a name and a nonzero quantity |
| `Storage.WellFormedRoundTrip` | src/utils/cartLogic.js:17-57 | every well-formed cart survives a reload unchanged |
| `Storage.LoadIsIdempotent` | src/utils/cartLogic.js:33-40 | writing back what was loaded and loading again gives the same cart |
| `Storage.LoadKeepsDuplicateIds` | src/utils/cartLogic.js:33-40 | a stored array with two elements sharing an id loads as two lines with that id |
| `Storage.LoadKeepsNegativeQuantity` | src/utils/cartLogic.js:38 | a stored negative quantity is loaded as it is, because it is truthy |
| `CartStore.EnsureInitialized` | src/utils/cartLogic.js:74-81 | the first access loads from storage, later accesses change nothing, and the subscribers and storage are untouched |
| `CartStore.InitializeCartStorage` | src/utils/cartLogic.js:93-98 | the store ends initialised and hands out the cart `getCart` would give: the cart in memory when already initialised, the loaded cart otherwise. It writes that cart back, keeps the subscribers and notifies every one of them |
| `CartStore.GetCart` | src/utils/cartLogic.js:100-103 | the snapshot is the cart in memory, or what storage loads on first access, and the store keeps it; nothing is written or notified and the registered callbacks stay registered |
| `CartStore.GetCartItemCount` | src/utils/cartLogic.js:105-107 | the count is the sum of quantities of a fresh snapshot |
| `CartStore.GetCartSubtotal` | src/utils/cartLogic.js:109-111 | the subtotal is the sum of price times quantity over a fresh snapshot |
| `CartStore.AddItemToCart` | src/utils/cartLogic.js:113-143 | a nameless request neither writes nor notifies. A named one stores the added cart, writes it, notifies every subscriber, and returns that cart |
| `CartStore.UpdateCartItemQuantity` | src/utils/cartLogic.js:145-164 | an unknown id neither writes nor notifies. An invalid quantity behaves exactly as `removeCartItem`. A known id writes the updated cart to storage and notifies every subscriber |
| `CartStore.RemoveCartItem` | src/utils/cartLogic.js:166-172 | the filtered cart is stored, written and sent to every subscriber, even when the id was absent |
| `CartStore.SetCartItemNote` | src/utils/cartLogic.js:174-185 | an unknown id neither writes nor notifies; otherwise the noted cart is stored, written to storage and sent to every subscriber |
| `CartStore.ClearCart` | src/utils/cartLogic.js:187-193 | the cart becomes empty, with count and subtotal 0, the empty cart is written to storage, and every subscriber is notified |
| `CartStore.SubscribeToCart` | src/utils/cartLogic.js:195-209 | a non-function is ignored without initialising. A function is registered and called once, at once, with the current snapshot; nothing is written to storage |
| `CartStore.Unsubscribe` | src/utils/cartLogic.js:210-212 | the returned function removes exactly that callback and nothing else |
| `CartStore.GetOrderSummary` | src/utils/cartLogic.js:215-225 | the summary's items, subtotal and total agree with `getCart`, `getCartSubtotal` and `getCartItemCount` |
| `StoreLaws.CommitKeepsValid` | src/utils/cartLogic.js:47-57 | writing a well-formed cart leaves storage that reloads to exactly that cart |
| `StoreLaws.ApplyKeepsValid` | src/utils/cartLogic.js:93-213 | every exported operation keeps the cart well formed and the stored copy equal to it |
| `StoreLaws.RunKeepsValid` | src/utils/cartLogic.js:93-213 | the invariant holds after any sequence of calls in which adds ask for at least one piece |
| `StoreLaws.ReloadSeesLastCart` | src/utils/cartLogic.js:74-81 | after any such sequence, a fresh page over the same storage sees exactly the cart the old page held |
| `StoreLaws.SnapshotsAreWellFormed` | src/utils/cartLogic.js:100-103 | every snapshot the store hands out has unique ids, named lines and quantities at least 1 |
| `StoreLaws.SnapshotIsCart` | src/utils/cartLogic.js:93-209 | every call but an unsubscription or an ignored subscription leaves the store initialised and hands out exactly the cart it holds |
| `StoreLaws.ApplyTouchesRegistered` | src/utils/cartLogic.js:59-67 | an operation calls only registered callbacks or the one it registers, and registers no other |
| `StoreLaws.UnsubscribedStaysSilent` | src/utils/cartLogic.js:195-213 | once unsubscribed, a callback is never called again until it subscribes afresh |
| `StoreLaws.SubscriberHearsCommits` | src/utils/cartLogic.js:59-67 | a registered callback is called by a call exactly when that call commits: initialisation, a named add, a quantity change or note for an id in the cart, any removal or a clear. Otherwise it is called only by its own re-registration |
| `StoreLaws.InitializeIsIdempotent` | src/utils/cartLogic.js:93-98 | for every store, including one whose storage holds duplicate ids or quantities below 1, initialising twice returns the same cart and leaves the same storage |
| `StoreLaws.SubscriberStaysRegistered` | src/utils/cartLogic.js:195-213 | a registered callback stays registered through any sequence of calls that does not unsubscribe it |
| `StoreLaws.AddRaisesCount` | src/utils/cartLogic.js:105-143 | after a named add, the reported item count has grown by the requested quantity |
| `StoreLaws.RemoveLowersCount` | src/utils/cartLogic.js:105-172 | after removing a present line, the reported item count has dropped by that line's quantity |
| `OrderHandler.SanitiseItem` | netlify/functions/sendOrderToExternal.js:22-28 | id, name and notes pass through, and quantity and price are the given numbers or 0 when not numeric |
| `OrderHandler.Sanitise` | netlify/functions/sendOrderToExternal.js:22-28 | mapping fails exactly when an element is `null`; otherwise it keeps the length and sanitises element by element |
| `OrderHandler.SanitiseItemIdempotent` | netlify/functions/sendOrderToExternal.js:22-28 | sanitising an already sanitised item changes nothing |
| `OrderHandler.BuildOrder` | netlify/functions/sendOrderToExternal.js:30-36 | the subtotal is the given number or 0. The item total is the given number when nonzero, and the sum of sanitised quantities when missing, not numeric or 0. The timestamp is the given one when non-empty and the clock's otherwise |
| `OrderHandler.QuantitySumNonNegative` | netlify/functions/sendOrderToExternal.js:33 | the fallback total (the reduce over sanitised quantities) of non-negative quantities is non-negative |
| `OrderHandler.Forward` | netlify/functions/sendOrderToExternal.js:38-58 | `forwarded` holds exactly when a webhook is configured and its response is ok; the report is present exactly when a response arrived |
| `OrderHandler.Handle` | netlify/functions/sendOrderToExternal.js:1-77 | status 405 exactly for non-POST. Status 500 exactly for an unparsable or `null` body or a `null` item. Status 400 exactly for a missing, non-array or empty `items`. Status 200 otherwise, and then the order holds exactly the sanitised `items` and is the payload built from the body's other properties and the clock |
| `OrderHandler.WebhookNeverChangesStatus` | netlify/functions/sendOrderToExternal.js:38-68 | the webhook's behaviour never changes the status code or the order built |
| `OrderHandler.SumsAgree` | netlify/functions/sendOrderToExternal.js:33 | the fallback sum of sanitised quantities equals the cart's item count when quantities agree line by line |
| `OrderHandler.SanitisePersisted` | netlify/functions/sendOrderToExternal.js:22-28 | sanitising the stored form of a cart never fails and keeps every line's id, name, quantity, price and notes |
| `OrderHandler.CheckoutHandled` | netlify/functions/sendOrderToExternal.js:8-36 | a POST body carrying the stored form of a non-empty cart is accepted, with the order built from its sanitised items |
| `OrderHandler.CheckoutAccepted` | netlify/functions/sendOrderToExternal.js:22-36 | the checkout body of any non-empty cart (src/components/Cart.js:377-384) is accepted, every line arrives intact, and the totals equal the cart's own |
| `OrderHandler.CheckoutWithoutTotals` | netlify/functions/sendOrderToExternal.js:33-35 | a checkout body without `totalItems` or a timestamp still gets the cart's item count and the handler's clock |

## Left out

- Local storage I/O, JSON text and the availability probe are not modelled. Storage is a field holding the decoded payload, or `Unavailable`. The probe runs before every access in the code; the model fixes the answer for a store's lifetime.
- A failing `setItem` (for example, a full quota) is not modelled. It is caught and logged in the code, and the model treats every write to available storage as succeeding.
- Callback execution is not modelled. Callbacks are tokens, so what a callback does, its exceptions and the per-callback isolation are out of scope. The `CustomEvent` dispatched on `window` and all console logging are left out for the same reason.
- Floating point is not modelled. Prices are integer cents, so `Math.round(price * 100)` rounding and decimal artefacts such as 1.005 are not represented. `Infinity` as a quantity is not represented either.
- `Slug.DerivedIdSeparatesPrices`: separates distinct cent amounts only. In the code two prices that round to the same cents (14.50 and 14.504) both give `tonkotsu-ramen-1450` and merge into one line; prices below a cent are not representable here.
- Unicode case mapping is not modelled. Only ASCII letters are lower-cased; a non-ASCII character that `toLowerCase` maps into `[a-z]` (such as the Kelvin sign) is treated as a separator.
- Missing properties (`undefined`) read as `""`. A stored element without an id therefore gets the id `""`, and a sanitised item without an id or name is forwarded with `""` rather than without that property.
- Non-string values in string properties (a numeric `name` or `notes`, say) are not modelled.
- `Cart.Remove`: states that the id is gone, the cart does not grow and an absent id changes nothing. That the other lines survive in order is stated separately, by `CartLaws.RemoveDistributes` and `CartLaws.RemoveFromUnique`.
- The webhook `fetch`, `process.env.ORDER_WEBHOOK_URL` and the clock are inputs to `OrderHandler.Handle`. The response headers and message texts are constants and are not modelled.
- `src/components/Cart.js`, `main.js` and `netlify/functions/get-google-maps-api-key.js` are UI glue or unrelated endpoints, and are not part of this model; only the shape of the checkout body is used, in `OrderHandler.CheckoutAccepted`.
