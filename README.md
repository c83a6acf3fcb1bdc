# ARDine order, cart and validation core in Dafny

ARDine is an AR restaurant menu. A customer scans a table's QR code, browses the menu, fills a
cart and checks out. The restaurant owner sees live orders and moves them through a lifecycle.
This project models the logic behind that flow:

- the order status state machine (`src/shared/types.ts`);
- the server-side validators for menu images, dishes and orders (`backend/validators.ts`);
- order construction and pricing (`backend/orderController.ts`);
- the in-memory store that plays the database (`database/dbClient.ts`);
- the customer's cart store (`src/stores/useCartStore.ts`);
- the ClamAV `INSTREAM` framing and reply classification (`backend/scannerClient.ts`), following
  the clamd(8) manual: a `zINSTREAM\0` command, chunks prefixed with a 4-byte big-endian
  length, and a 4-byte zero terminator;
- the bearer-token middleware in front of owner routes (`backend/authMiddleware.ts`);
- the checkout checks and totals (`src/features/customer/CustomerCartView.tsx`);
- the browser API client's URL joining, header record and error mapping
  (`src/shared/services/api.ts`).

Files:

| file | module | models |
|---|---|---|
| `wrappers.dfy` | `Wrappers` | `Option` (`null`/`undefined`) and `Result` (a thrown error) |
| `bytes.dfy` | `Bytes` | bytes, ASCII encoding, 32-bit big-endian integers |
| `strings.dfy` | `Strings` | JavaScript `trim`, `replace(/[^0-9]/g, '')`, `split`, decimal rendering |
| `ordered_maps.dfy` | `OrderedMaps` | a JavaScript `Map`, which remembers insertion order |
| `types.dfy` | `Types` | the shared entities and the status transition table |
| `validators.dfy` | `Validators` | `validateMenuImage`, `validateDishData`, `validateOrder` |
| `pricing.dfy` | `Pricing` | the `reduce` sums of price × quantity and of quantities |
| `db_client.dfy` | `Database` | class `PostgresClient` with its five `Map` fields |
| `order_controller.dfy` | `OrderController` | `createNewOrder`, `getLiveOrders`, `updateStatus` |
| `cart_store.dfy` | `CartStore` | the cart store's `items` field and actions |
| `scanner_client.dfy` | `ScannerClient` | `scanBuffer` and `pingClamAV` |
| `auth_middleware.dfy` | `AuthMiddleware` | `verifyToken` and `requireAuth` |
| `customer_cart_view.dfy` | `CustomerCartView` | `validateCustomerInfo`, totals, the order request |
| `api.dfy` | `Api` | `apiUrl`, `setAuthToken`, `restoreAuthToken`, `requestJson`'s headers and errors |

Imperative source code is modelled as classes:

- `PostgresClient`, the cart store, the scanner socket, the Express request/response pair, the
  checkout form and the API client are classes;
- their methods state their whole new state in terms of specification functions;
- the lemmas about those functions state what the source promises.

Pure code is modelled as functions with lemmas.

Money is `real`. Randomness (`Math.random()`), the clock (`Date.now()`), base64 decoding and
JWT verification are parameters.

Where the code departs from what `src/shared/types.ts` declares, the model follows the code:

- The status transition table is never consulted when a status is written. `updateStatus` and
  `updateOrderStatus` overwrite the status with whatever is requested. The model proves the
  table's properties, and separately proves that the store ignores it
  (`Database.StatusUpdateIgnoresTransitionTable`,
  `OrderController.SeededOrderCanBeReopened`).
- A new order's payment status is `Pending` for cash and `Paid` otherwise; it is not always
  `Pending`.
- `createNewOrder` takes no customer name or phone and never sets them, although the `Order`
  type declares both as required strings. The model keeps them as `Option` fields that a new
  order leaves `None`.
- The server checks an order only as `validateOrder` does. The customer's name and phone are
  checked only in the browser's checkout, as "at least 2 trimmed UTF-16 code units" and "at
  least 7 digits".

## Model

| member | source | states |
|---|---|---|
| Types.ReceivedSuccessors | src/shared/types.ts:43 | from `received` exactly `preparing` and `cancelled` are allowed |
| Types.PreparingSuccessors | src/shared/types.ts:44 | from `preparing` exactly `ready` and `cancelled` are allowed |
| Types.ReadySuccessors | src/shared/types.ts:45 | from `ready` exactly `served` and `cancelled` are allowed |
| Types.TerminalStates | src/shared/types.ts:46-47 | the terminal states are exactly `served` and `cancelled`, and they have no successor |
| Types.CancellableUntilTerminal | src/shared/types.ts:43-47 | a state can step to `cancelled` if and only if it is not terminal |
| Types.StepAdvances | src/shared/types.ts:42-48 | no state lists itself or `received` as a successor; every step strictly increases the stage |
| Types.PathAdvances | src/shared/types.ts:42-48 | along any path of allowed steps the stage grows by at least one per step |
| Types.PathsAreShortAndAcyclic | src/shared/types.ts:42-48 | every path has at most 4 states (3 steps) and never returns to its start |
| Types.LongestPath | src/shared/types.ts:43-45 | `received → preparing → ready → served` is a path, so the bound of 3 steps is reached |
| Validators.MatchDataUri | backend/validators.ts:24-26 | the regex match: a declared type from `png/jpeg/jpg/webp` whose `data:image/<t>;base64,` prefix the string has, or none when no prefix matches |
| Validators.MatchesMagicBytesIsPrefix | backend/validators.ts:17-18 | `expected.every((b, i) => buffer[i] === b)` holds exactly when the buffer starts with the expected bytes |
| Validators.DeclaresUnique | backend/validators.ts:24 | a string declares at most one image type |
| Validators.SecondFieldIsPayload | backend/validators.ts:29 | `split(',')[1]` of a declared data URI is the text after its prefix up to the next comma |
| Validators.ValidateMenuImageAcceptsExactly | backend/validators.ts:20-42 | the image is accepted exactly when it is non-empty, declares a type, has a non-empty payload, decodes to 8 to 5×1024×1024 bytes and starts with the signature of the declared type (`jpg` read as `jpeg`) |
| Validators.EmptyImageRejected | backend/validators.ts:21 | the empty string is rejected |
| Validators.UndeclaredImageRejected | backend/validators.ts:24-26 | a string without an accepted data-URI prefix is rejected |
| Validators.AcceptedImage | backend/validators.ts:5-41 | an accepted image has a payload decoding to 8 to 5 MiB bytes that begins with the png `89 50 4E 47`, jpeg `FF D8 FF` or webp `52 49 46 46` signature of its declared type, `jpg` checked as `jpeg` |
| Validators.ValidateDishDataExactly | backend/validators.ts:44-49 | a dish passes exactly when its name is present and, trimmed, at least 2 UTF-16 code units long (`length`, so a character outside the Basic Multilingual Plane counts twice), its price is a number no smaller than 0, and its category is present and non-empty |
| Validators.DishNameInCodeUnits | backend/validators.ts:45 | the name length is `trim().length`: the one-character name "🍕" (U+1F355, two code units) passes, a one-letter name does not |
| Validators.ValidateOrderRejects | backend/validators.ts:51-60 | a table number of 0 or less, or no items, is rejected; otherwise the order passes exactly when every item has a dish with an id and a positive quantity |
| Pricing.SubtotalAppend | backend/orderController.ts:16 | the sum of price × quantity over two lists is the sum of the two sums |
| Pricing.QuantityAppend | src/stores/useCartStore.ts:67-69 | the sum of quantities over two lists is the sum of the two sums |
| Pricing.SubtotalSmall | src/stores/useCartStore.ts:60-69 | the empty list sums to 0 and a single item to its line total and its quantity |
| Pricing.SubtotalNonNegative | backend/orderController.ts:16 | with no negative price and only positive quantities the subtotal is not negative and the quantity is at least the number of items |
| OrderController.OrderNumber | backend/orderController.ts:20 | `Math.floor(1000 + random * 8999)` lies between 1000 and 9998 |
| OrderController.OrderIdWellFormed | backend/orderController.ts:20 | the id is `#ORD-` followed by four digits reading back to the order number |
| OrderController.PaymentStatusFor | backend/orderController.ts:28 | `Pending` exactly for cash, never `Failed` |
| OrderController.OrderTotal | backend/orderController.ts:17 | the total is the subtotal plus 5% of it, and no smaller than a non-negative subtotal |
| OrderController.NewOrder | backend/orderController.ts:6-29 | an error "Order validation failed" exactly when `validateOrder` fails; otherwise a `received` order with the given owner, table and items, total `subtotal × 1.05`, the given timestamp and payment method, a payment status that is `pending` exactly for cash and never `failed`, and no customer name, phone or Stripe payment intent |
| OrderController.NewOrderWellFormed | backend/orderController.ts:12-29 | a created order has a positive table, at least one well-formed item and a generated id, and its total is at least its non-negative subtotal when no price is negative |
| OrderController.CreateNewOrder | backend/orderController.ts:6-32 | a rejected request stores nothing; an accepted order is stored under its owner and id, and no other table changes |
| OrderController.GetLiveOrders | backend/orderController.ts:34-36 | the user's orders, newest first |
| OrderController.UpdateStatus | backend/orderController.ts:38-40 | the requested status is written to the named order without a transition check; nothing else changes |
| OrderController.SeededOrderCanBeReopened | backend/orderController.ts:38-40 | on a freshly seeded store the demo order can be moved from `preparing` back to `received`, an edge the table does not allow |
| Database.ApplyUpdatesOverwritesPresentOnly | database/dbClient.ts:116-121 | `Object.assign` keeps every absent field, takes every present one, and applying the same update twice is the same as once |
| Database.WithOrderKeepsTablesValid | database/dbClient.ts:143-146 | storing an order under its owner keeps every order table keyed by id and owned by its user |
| Database.SortNewestFirst | database/dbClient.ts:140 | the result is ordered by timestamp, newest first, and is a permutation of the input |
| Database.InsertNewestFirst | database/dbClient.ts:140 | inserting into a newest-first list keeps it newest first and adds exactly that order |
| Database.SortNewestFirstStable | database/dbClient.ts:140 | the sort is stable: for every timestamp, the orders carrying it come out in the order the `Map` holds them |
| Database.InsertKeepsTies | database/dbClient.ts:140 | inserting an order puts it after every order already there with the same timestamp |
| Database.OlderHoldsNoTies | database/dbClient.ts:140 | a newest-first list whose first order is older than a timestamp holds no order with that timestamp |
| Database.NewestFirstOrdersAllPairs | database/dbClient.ts:140 | in a newest-first list every order is at least as new as every later one |
| Database.FindByEmail | database/dbClient.ts:133 | `find(u => u.email === email)`: the first user with that email, or none exactly when no user has it |
| Database.SingleOrderTable | database/dbClient.ts:88-101 | the seeded order table of one order is keyed by its id and owned by its user |
| Database.PostgresClient.constructor | database/dbClient.ts:13-103 | the store starts seeded: the two demo users, their credentials, configurations, three dishes each and one order each |
| Database.PostgresClient.SeedDemoData | database/dbClient.ts:24-103 | the `forEach` over the demo users fills all five maps from them |
| Database.PostgresClient.SeedUser | database/dbClient.ts:30-101 | one user's seeding: the user, the password `password123`, the configuration, the dish table and the order table |
| Database.PostgresClient.SeedTables | database/dbClient.ts:85-101 | the user's dish table is built from its dishes and its order table holds its demo order |
| Database.TableFromDishes | database/dbClient.ts:40-85 | the `forEach` over the dishes builds the same map as setting each dish under its id in order |
| Database.SeededTablesValid | database/dbClient.ts:30-102 | seeding leaves every dish and order table well formed |
| Database.SeededUsers | database/dbClient.ts:25-31 | the seeded users are listed in seeding order |
| Database.DemoOrderIsPreparing | database/dbClient.ts:89-100 | the demo order is `#ORD-7721`, owned by its user, in status `preparing`, alone in its table |
| Database.SeededOrderOwners | database/dbClient.ts:30-101 | exactly the seeded users get an order table |
| Database.SeededOrderTables | database/dbClient.ts:88-101 | each seeded user's table holds just that user's demo order |
| Database.SeededDemoOrder | database/dbClient.ts:25-101 | the demo user's seeded table holds `#ORD-7721` in status `preparing` |
| Database.PostgresClient.QueryDishes | database/dbClient.ts:105-108 | the user's dishes in insertion order; none for an unknown user |
| Database.PostgresClient.InsertDish | database/dbClient.ts:110-114 | the dish is stored under its owner and id, creating the table when missing; nothing else changes |
| Database.PostgresClient.UpdateDishStatus | database/dbClient.ts:116-121 | the partial update is applied to the named dish; nothing happens when the user or dish is absent |
| Database.PostgresClient.CreateUser | database/dbClient.ts:123-128 | a user `u_<now>` is stored and the password recorded for the email |
| Database.PostgresClient.ValidateUser | database/dbClient.ts:130-136 | none when the email is unknown or the password differs; otherwise the first stored user with that email |
| Database.PostgresClient.QueryOrders | database/dbClient.ts:138-141 | the user's orders newest first, a permutation of the stored ones; none for an unknown user |
| Database.PostgresClient.InsertOrder | database/dbClient.ts:143-147 | the order is stored under its owner and id, replacing one with that id; nothing else changes |
| Database.PostgresClient.UpdateOrderStatus | database/dbClient.ts:149-152 | the named order's status is overwritten whatever it was; nothing happens when the user or order is absent |
| Database.PostgresClient.SaveConfig | database/dbClient.ts:154-157 | the configuration replaces the user's previous one |
| Database.PostgresClient.GetConfig | database/dbClient.ts:159-161 | the saved configuration of the user, none when there is none |
| Database.InsertedOrderListed | database/dbClient.ts:140-146 | after an insert the owner's newest-first listing contains the order, the id maps to it, and other users' tables are unchanged |
| Database.InsertOrderReplacesById | database/dbClient.ts:145 | inserting a present id replaces it without growing the listing; a new id is appended |
| Database.UnknownUserHasNothing | database/dbClient.ts:106-140 | a user without a table has no dishes and no orders |
| Database.StatusUpdateTouchesOnlyStatus | database/dbClient.ts:149-152 | a status update changes only the named order's status field and no key, and is a no-op for an absent order |
| Database.StatusUpdateIgnoresTransitionTable | database/dbClient.ts:149-152 | any status can be written, such as `received`, although the table does not allow `served → received` |
| Database.StatusUpdateKeepsTableValid | database/dbClient.ts:149-152 | a status update keeps the table keyed by id and owned by its user |
| Database.DishUpdateTouchesOnlyThatDish | database/dbClient.ts:116-121 | a dish update changes only the named dish, by `Object.assign`, and is a no-op for an absent dish |
| CartStore.CartStore.constructor | src/stores/useCartStore.ts:15 | the cart starts empty |
| CartStore.CartStore.AddItem | src/stores/useCartStore.ts:17-35 | an existing dish gets the extra quantity, a new one is appended with the quantity (1 when omitted); dish ids stay unique |
| CartStore.CartStore.RemoveItem | src/stores/useCartStore.ts:37-41 | the items with that dish id are removed and the others kept in order; dish ids stay unique |
| CartStore.CartStore.UpdateQuantity | src/stores/useCartStore.ts:43-54 | a quantity of 0 or less removes the dish; a positive one replaces that dish's quantity |
| CartStore.CartStore.ClearCart | src/stores/useCartStore.ts:56-58 | the cart is empty |
| CartStore.CartStore.Total | src/stores/useCartStore.ts:60-65 | 0 for an empty cart, never negative with non-negative prices and positive quantities |
| CartStore.CartStore.ItemCount | src/stores/useCartStore.ts:67-69 | 0 for an empty cart, at least the number of items when every quantity is positive |
| CartStore.Bumped | src/stores/useCartStore.ts:23-27 | the `map` keeps the length |
| CartStore.WithQuantity | src/stores/useCartStore.ts:50-52 | the `map` keeps the length |
| CartStore.WithoutDish | src/stores/useCartStore.ts:39 | the `filter` keeps only items of other dishes, all taken from the input |
| CartStore.QuantityAtLeastLength | src/stores/useCartStore.ts:67-69 | positive quantities count at least one unit per item |
| CartStore.AddedItemsKeepsUnique | src/stores/useCartStore.ts:19-33 | adding keeps dish ids unique |
| CartStore.AddExistingDish | src/stores/useCartStore.ts:21-29 | adding a present dish changes only its item's quantity and keeps the length |
| CartStore.AddNewDish | src/stores/useCartStore.ts:31-33 | adding an absent dish appends `{dish, quantity}` at the end |
| CartStore.WithoutDishKeepsUnique | src/stores/useCartStore.ts:39 | removing keeps dish ids unique |
| CartStore.WithoutAbsentDish | src/stores/useCartStore.ts:39 | removing an absent dish changes nothing |
| CartStore.WithoutDishAppend | src/stores/useCartStore.ts:39 | the `filter` distributes over concatenation |
| CartStore.RemoveItemAt | src/stores/useCartStore.ts:39 | removing the dish at position k deletes exactly that item and keeps the order of the others |
| CartStore.UpdatePresentDish | src/stores/useCartStore.ts:49-53 | a positive update of a present dish changes only its item's quantity |
| CartStore.UpdateAbsentDish | src/stores/useCartStore.ts:49-53 | a positive update of an absent dish changes nothing |
| CartStore.ReplacedSubtotal | src/stores/useCartStore.ts:60-65 | replacing one item changes the total by the difference of line totals |
| CartStore.ReplacedQuantity | src/stores/useCartStore.ts:67-69 | replacing one item changes the count by the difference of quantities |
| CartStore.AddExistingDishSums | src/stores/useCartStore.ts:21-69 | adding q of a present dish raises the count by q and the total by its price × q |
| CartStore.AddNewDishSums | src/stores/useCartStore.ts:31-69 | adding q of a new dish raises the count by q and the total by its price × q |
| CartStore.SumsWithoutIndex | src/stores/useCartStore.ts:60-69 | dropping one item lowers the total by its line total and the count by its quantity |
| CartStore.RemoveItemSums | src/stores/useCartStore.ts:37-69 | removing a dish lowers the total by its line total and the count by its quantity |
| ScannerClient.Subarray | backend/scannerClient.ts:54 | `subarray(start, end)` clamps to the buffer and is the slice when in bounds |
| ScannerClient.ChunksFrom | backend/scannerClient.ts:52-54 | every chunk is non-empty and at most 2×1024×1024 bytes |
| ScannerClient.ChunksFramable | backend/scannerClient.ts:55-56 | every chunk length fits the 4-byte header |
| ScannerClient.ChunksCoverBuffer | backend/scannerClient.ts:53-58 | the chunks concatenated in order are the buffer |
| ScannerClient.ChunkCount | backend/scannerClient.ts:53 | the loop makes ⌈length / 2 MiB⌉ chunks |
| ScannerClient.DeframeFramed | backend/scannerClient.ts:55-63 | reading back the length-prefixed chunks up to the zero terminator gives their concatenation |
| ScannerClient.InstreamRoundTrip | backend/scannerClient.ts:49-63 | the stream starts with `zINSTREAM\0`, and deframing the rest gives back the buffer |
| ScannerClient.InstreamEnds | backend/scannerClient.ts:62-63 | the stream ends with four zero bytes; an empty buffer sends only the command and the terminator |
| ScannerClient.CommandBytes | backend/scannerClient.ts:49-97 | the bytes of `zINSTREAM\0` and `zPING\0` |
| ScannerClient.ScanSocket.constructor | backend/scannerClient.ts:39 | a fresh socket has sent nothing |
| ScannerClient.ScanSocket.Write | backend/scannerClient.ts:49 | bytes written are appended to what was sent |
| ScannerClient.ScanSocket.SendChunks | backend/scannerClient.ts:52-59 | the loop sends each chunk preceded by its big-endian length, in order |
| ScannerClient.ScanSocket.SendInstream | backend/scannerClient.ts:47-64 | the connect callback sends the command, the framed chunks and the terminator |
| ScannerClient.ScanSocket.SendPing | backend/scannerClient.ts:96-98 | the ping sends `zPING\0` |
| ScannerClient.Normalize | backend/scannerClient.ts:72 | the normalized reply has no NUL |
| ScannerClient.Classify | backend/scannerClient.ts:72-74 | the detail is the reply without NULs, trimmed, and the scan is clean exactly when that ends with `OK` |
| ScannerClient.AwaitScan | backend/scannerClient.ts:40-81 | the loop over socket events settles as the promise does: the classified accumulated reply on `end`, a connection error on `error`, a timeout error on the timer |
| ScannerClient.SettlementReadsAllData | backend/scannerClient.ts:66-80 | at the first settling event the result classifies all data received before it, or is the matching error |
| ScannerClient.OnlyDataNeverSettles | backend/scannerClient.ts:66-68 | data events alone never settle the scan |
| ScannerClient.NormalizeIdempotent | backend/scannerClient.ts:72 | normalizing twice is normalizing once, and classification ignores prior normalization |
| ScannerClient.NoNulRemoveAll | backend/scannerClient.ts:72 | removing NULs from a text without them changes nothing |
| ScannerClient.ClassifyIgnoresNul | backend/scannerClient.ts:72 | a NUL anywhere in the reply does not change the result |
| ScannerClient.PlainReply | backend/scannerClient.ts:72-74 | a reply without NULs or outer whitespace is its own detail, clean exactly when it ends with `OK` |
| ScannerClient.FirstNonEnd | backend/scannerClient.ts:100-109 | the position of the first event the ping listens to |
| ScannerClient.PingSettlesAtFirstNonEnd | backend/scannerClient.ts:91-109 | the ping settles at the first data, error or timeout event |
| ScannerClient.PingSucceedsExactly | backend/scannerClient.ts:100-104 | the ping succeeds exactly when the first such event is data that, without NULs and trimmed, is `PONG` |
| ScannerClient.PingFailsWithoutReply | backend/scannerClient.ts:91-109 | an error or timeout before any data resolves the ping to false |
| AuthMiddleware.VerifyToken | backend/authMiddleware.ts:30-36 | the payload when verification returns one, `null` exactly when it throws |
| AuthMiddleware.TokenIsRestOfHeader | backend/authMiddleware.ts:50 | the token is the header without its first 7 characters |
| AuthMiddleware.MissingBearerRejected | backend/authMiddleware.ts:44-48 | a missing header or one without `Bearer ` is a 401 "Authentication required" |
| AuthMiddleware.BadTokenRejected | backend/authMiddleware.ts:50-55 | a token that fails verification is a 401 "Invalid or expired token" |
| AuthMiddleware.OtherOwnerForbidden | backend/authMiddleware.ts:57-62 | a valid token for another owner than the route names is a 403 |
| AuthMiddleware.ProceedsExactly | backend/authMiddleware.ts:43-66 | the request proceeds exactly when a bearer token verifies and the route names no user or the token's user; it proceeds with that payload |
| AuthMiddleware.RejectionsAreAuthErrors | backend/authMiddleware.ts:46-61 | every rejection is a 401 or 403 with one of the three messages |
| AuthMiddleware.Exchange.constructor | backend/authMiddleware.ts:43 | no user, status or body, and `next` not yet called |
| AuthMiddleware.Exchange.RequireAuth | backend/authMiddleware.ts:43-66 | a rejection sets status and body and neither attaches a user nor calls `next`; success attaches the payload and calls `next` once |
| CustomerCartView.GrandTotal | src/features/customer/CustomerCartView.tsx:41-43 | the grand total shown equals the server's `subtotal × 1.05` and is no smaller than a non-negative subtotal |
| CustomerCartView.GrandTotalIsSubtotalPlusTax | src/features/customer/CustomerCartView.tsx:42-43 | the tax is 5% of the subtotal and the grand total is the subtotal plus it |
| CustomerCartView.TableNumber | src/features/customer/CustomerCartView.tsx:44 | the selected table, or 1 when none is selected |
| CustomerCartView.CheckoutForm.constructor | src/features/customer/CustomerCartView.tsx:37-39 | the errors start empty |
| CustomerCartView.CheckoutForm.ValidateCustomerInfo | src/features/customer/CustomerCartView.tsx:46-65 | both fields are checked; the result is valid exactly when the trimmed name is at least 2 UTF-16 code units long and the phone has at least 7 digits, and each error text is set or cleared by its own check |
| CustomerCartView.CheckoutForm.PlaceOrderRequest | src/features/customer/CustomerCartView.tsx:67-100 | the request sent is the one `CheckoutRequestFor` describes, with the error texts of the validation |
| CustomerCartView.RequestOnlyWhenValid | src/features/customer/CustomerCartView.tsx:68-100 | a request is sent exactly when both fields pass and the route names a restaurant; it carries the table, the cart and trimmed details, and is a plain order exactly for cash |
| CustomerCartView.NameInCodeUnits | src/features/customer/CustomerCartView.tsx:48 | the name length is `trim().length`: "🍕" (U+1F355, two code units) passes, "a" fails and "ab" passes |
| CustomerCartView.NameIgnoresPadding | src/features/customer/CustomerCartView.tsx:48 | surrounding whitespace never changes the name verdict, and an all-whitespace name fails |
| CustomerCartView.PhoneIgnoresSeparators | src/features/customer/CustomerCartView.tsx:56-57 | inserting non-digits anywhere never changes the phone verdict |
| CustomerCartView.PhoneOfDigits | src/features/customer/CustomerCartView.tsx:56-57 | a string of digits passes exactly when it has at least 7 |
| Api.ApiUrlWithoutBase | src/shared/services/api.ts:7 | with no base the URL is the path |
| Api.ApiUrlWithBase | src/shared/services/api.ts:8 | with a base, one trailing `/` is dropped before the path; any other base is kept whole |
| Api.ApiUrlEndsWithPath | src/shared/services/api.ts:6-9 | the URL ends with the path and starts with the stripped base |
| Api.Assign | src/shared/services/api.ts:32-35 | the object spread yields a well-formed record |
| Api.AssignGet | src/shared/services/api.ts:34 | a spread key takes the caller's value, every other key keeps the default |
| Api.BaseHeaders | src/shared/services/api.ts:32-35 | the default-then-caller record is well formed |
| Api.BaseHeadersGet | src/shared/services/api.ts:32-35 | the caller's headers override the default `Content-Type: application/json` |
| Api.BearerFor | src/shared/services/api.ts:37-38 | a header exactly for a non-empty token, `Bearer <token>` |
| Api.ReloadKeepsBearer | src/shared/services/api.ts:15-27 | restoring the stored token yields the same `Authorization` as the token set |
| Api.ApiClient.constructor | src/shared/services/api.ts:13-27 | no token in memory, the given one in storage |
| Api.ApiClient.SetAuthToken | src/shared/services/api.ts:15-22 | the token is remembered, persisted when truthy and removed from storage otherwise |
| Api.ApiClient.RestoreAuthToken | src/shared/services/api.ts:24-27 | the token is read back from storage and returned |
| Api.ApiClient.RequestHeaders | src/shared/services/api.ts:31-39 | `Content-Type` is the caller's or JSON; `Authorization` is `Bearer <token>` over the caller's when a token is set, the caller's otherwise; every other header is the caller's |
| Api.RequestOutcome | src/shared/services/api.ts:46-51 | the request fails exactly when the response is not ok |
| Api.FailureMessageInformative | src/shared/services/api.ts:46-49 | the error message is never empty: the body text when there is one, otherwise `Request failed: ` and digits that read back to the status |
| Strings.TrimIdempotent | src/features/customer/CustomerCartView.tsx:48 | trimming twice is trimming once |
| Strings.TrimIgnoresPadding | src/features/customer/CustomerCartView.tsx:48 | whitespace around a string does not change its trimmed form |
| Strings.Utf16Length | src/features/customer/CustomerCartView.tsx:48 | `length` counts UTF-16 code units: between one and two per character, and exactly one per character when every character is in the Basic Multilingual Plane |
| Strings.Utf16LengthAppend | src/features/customer/CustomerCartView.tsx:48 | the code-unit length of a concatenation is the sum of the lengths |
| Strings.JoinSplit | backend/validators.ts:29 | `split` loses nothing: joining the fields with the separator gives back the string |
| Strings.DecimalRoundTrip | backend/orderController.ts:20 | a number rendered in decimal reads back to itself |
| OrderedMaps.SetGet | database/dbClient.ts:143-146 | after `set` the key holds the new value and other keys keep theirs |
| OrderedMaps.SetNewKeyAppends | database/dbClient.ts:145 | setting a new key appends its value to `values()` |
| OrderedMaps.SetPresentKeyReplaces | database/dbClient.ts:145 | setting a present key replaces its value in place |
| OrderedMaps.FromDistinctSeqValues | database/dbClient.ts:85 | a map built from values with distinct keys lists exactly those values in order |
| Bytes.Be32RoundTrip | backend/scannerClient.ts:55-56 | `writeUInt32BE` is undone by reading the four bytes back |
| Bytes.Be32ZeroOnlyForZeroBytes | backend/scannerClient.ts:62 | the length 0 is exactly the four zero bytes of the terminator |

## Left out

- Sockets, timers and the promise machinery of `backend/scannerClient.ts` are modelled as a
  sequence of events (data, end, error, timeout) that the scan and the ping consume. The host
  and port come from the environment and are not modelled.
- `data.toString()` decodes each chunk as UTF-8 by itself. The model treats received data as
  text already.
- `PostgresClient.getInstance` and the exported singleton `db` are not modelled. The
  constructor stands for the one instance.
- Mutating a stored dish or order in place also changes every alias of that object (the
  `Object.assign` and `order.status =` in `database/dbClient.ts`). The model stores values, so
  a caller holding an earlier copy does not see the change.
- `database/repositories.ts` is not part of this model. `OrderController` calls the store's
  methods directly, as those delegations do.
- Database.SortNewestFirst: the comparator `b.timestamp - a.timestamp` is modelled on integer
  timestamps. `Array.prototype.sort` is stable, and so is the model
  (`Database.SortNewestFirstStable`), so orders with equal timestamps keep the `Map`'s
  insertion order.
- Validators.ValidateOrder: `tableNumber` and `quantity` are `int`. JavaScript numbers also include
  fractions and infinities, which the source accepts (a quantity of 0.5 or `Infinity`, a table
  number of 2.5). The model cannot express those inputs.
- Validators.ValidateDishData: `price` is `real`. `NaN` and `Infinity` are numbers the source accepts,
  since `NaN < 0` is false. The model cannot express them.
- The `quantity` of an `OrderItem` and the `tableNumber` of an `Order` are `int`, not
  JavaScript numbers, for the same reason.
- Floating point: prices, totals and tax are `real`. IEEE rounding of `1.05` and `0.05` is
  not modelled.
- Header names are compared exactly. Fetch matches `Authorization` without regard to case,
  and that is not modelled.
- `signToken` (`jwt.sign`) is foreign code and not modelled. `jwt.verify` is a function
  parameter that returns a payload or throws.
- Base64 decoding (`Buffer.from(s, 'base64')`) is a function parameter.
- `localStorage` is a field of the API client. Its persistence across page loads is the
  constructor's argument.
- The network call, JSON parsing and the per-endpoint wrappers of `ApiService` are not
  modelled. Neither are the toasts, navigation, timers and payment steps of
  `handlePlaceOrder`; the model stops at the request it chooses to send.
- The payment-intent, payment-confirmation and webhook paths, and the Stripe, S3, queue, AI
  and telemetry clients, are not part of this model.
- `Math.random()` and `Date.now()` are parameters.
- The demo seeding runs at construction time with the clock as a parameter. Its seeded
  contents are stated as lemmas about the seeding functions.
