# Shop backend checkout and inventory, modelled in Dafny

This project models the service layer of a small Spring shop backend:

- the cart (`CartService`);
- the catalogue (`ProductService`);
- registration and login (`UserService`);
- orders and payment (`OrderService`);
- the request filter that admits or rejects each HTTP call (`AuthInterceptor.preHandle`).

The Spring Data repositories become six in-memory tables. They are `map<nat, …>` fields of one `Tables.Store` object, with one identity counter per table, and the services update them in place. `Valid()` is the invariant every method keeps:
- each row is stored under its own id, and every id is below its table's counter;
- cart lines point at existing carts and order lines at existing orders, and their quantities are positive;
- a user has at most one cart;
- usernames are unique.

The finders the services call (`findByUserId`, `findByCartId`, `findByOrderId`, `findByUsername`) are scans over the ids. The list finders return rows in ascending id order, that is, in insertion order; this order is an assumption of the model (see Left out).

Business errors are `Result.Err` values. Each one carries one `ShopError` constructor per exception message of the backend, and `Outcomes.Message` gives the message text.

Each file is one module that follows one source file:

| file | module | models |
|---|---|---|
| outcomes.dfy | Outcomes | `Option`, `Result`, the error messages |
| text.dfy | Text | `String.trim`, `StringUtils.hasText`, `startsWith`, case-insensitive matching |
| tables.dfy | Tables | the entities, the tables, the repository finders |
| checkout.dfy | Checkout | the stock checks, totals, order-line snapshot and stock decrement, as functions |
| carts.dfy | Carts | `CartService` |
| orders.dfy | Orders | `OrderService` |
| catalog.dfy | Catalog | `ProductService` |
| users.dfy | Users | `UserService` |
| auth.dfy | Auth | `AuthInterceptor.preHandle` |

The imperative operations are methods on the `Store` with field-granular `modifies` clauses. Their loops are proved against the specification functions in Checkout, and the properties the backend promises are lemmas about those functions.

Two behaviours of the code deserve a note:
- Stock is meant never to go below zero: both order operations refuse a line whose quantity exceeds the stock (OrderService.java:61, 120). A single payment can still drive it negative (see Findings). `Orders.MarkPaidAndFulfillCart` models the code as written; `Orders.MarkPaidAndFulfillCartGuarded` is the corrected version, which keeps stock non-negative.
- `createPendingOrder` reads the cart through `getActiveCartItems`, which creates a missing cart. It then fails on the empty cart, and its transaction rolls the new cart back. So the model looks the cart up without creating it, and a failed call changes nothing.

## Model

| member | source | states |
|---|---|---|
| Orders.CreatePendingOrder | backend/src/main/java/com/shop/service/OrderService.java:48-89 | fails exactly when the user's cart is empty ("购物车为空") or some line's product is missing or short, reporting the first such line ("商品不存在" / "<name> 库存不足"), and then changes nothing; on success every line was in stock, and exactly one PENDING order for the caller exists, priced at Σ price × quantity, with one frozen order line per cart line; stock and carts are outside its frame |
| Orders.PlaceOrder | backend/src/main/java/com/shop/service/OrderService.java:68-86 | stores the order under the next order id and then its lines; `findByOrderId` of the new order returns exactly the snapshot of the cart, whose Σ price × quantity is the order total and whose product/quantity pairs are the cart's |
| Orders.SaveOrder | backend/src/main/java/com/shop/service/OrderService.java:69-73 | one new PENDING order row under a fresh id, every other order unchanged |
| Orders.CheckCartLines | backend/src/main/java/com/shop/service/OrderService.java:56-66 | the loop reports the same error as the first-failing-line check `FirstShortfall`; when it passes, every line's product exists with stock ≥ quantity and the total is Σ product.price × quantity |
| Orders.SaveSnapshot | backend/src/main/java/com/shop/service/OrderService.java:76-86 | the second loop saves exactly `Snapshot` (consecutive fresh ids, product and quantity copied, current price frozen); its product lookup cannot fail |
| Orders.CheckEachLine | backend/src/main/java/com/shop/service/OrderService.java:116-123 | the payment's re-check reports exactly `FirstShortfall` of the order lines, each line against its own quantity |
| Orders.DecrementStock | backend/src/main/java/com/shop/service/OrderService.java:126-132 | after the loop the product table is `Decremented`: each product loses the total quantity of the lines naming it (Checkout.DecrementedSpec) |
| Orders.Fulfill | backend/src/main/java/com/shop/service/OrderService.java:126-139 | decrement, status PAID for that order only, and the payer's cart emptied with every other cart's lines kept |
| Orders.MarkPaidAndFulfillCart | backend/src/main/java/com/shop/service/OrderService.java:98-140 | an absent order, another user's order, or a non-PENDING order fails in that order with "订单不存在" / "无权操作该订单" / "订单非待支付状态"; otherwise the result is the per-line check's; any failure changes nothing; success decrements stock by total demand, sets PAID and clears the payer's cart; stock stays non-negative when no product appears twice |
| Orders.TotalDemand | backend/src/main/java/com/shop/service/OrderService.java:126-132 | the units of one product that all lines of the order take together, equal to `Demand` |
| Orders.CheckAggregate | backend/src/main/java/com/shop/service/OrderService.java:116-123 | the corrected re-check reports exactly `FirstAggregateShortfall`, each line's product against the whole order's demand |
| Orders.MarkPaidAndFulfillCartGuarded | backend/src/main/java/com/shop/service/OrderService.java:98-140 | the same guards, error order and effect as the payment, with the aggregate re-check; stock that was non-negative stays non-negative |
| Orders.PayTwice | backend/src/main/java/com/shop/service/OrderService.java:107-110 | a second payment of the same order always fails, with "订单非待支付状态" after a successful first one, and changes nothing: the pair has exactly the first call's effect |
| Orders.UpdateStatus | backend/src/main/java/com/shop/service/OrderService.java:188-194 | any status string replaces the old one on that order alone; only a missing order fails |
| Orders.GetOrderById | backend/src/main/java/com/shop/service/OrderService.java:159-178 | succeeds exactly for the owner when every line's product still exists; errors in the order "订单不存在", "无权访问此订单", "商品不存在"; each returned line carries its product |
| Orders.ListMyOrders | backend/src/main/java/com/shop/service/OrderService.java:148-150 | exactly the orders whose userId matches |
| Checkout.ShortOf | backend/src/main/java/com/shop/service/OrderService.java:58-63 | a line passes exactly when its product exists with enough stock; a missing product is reported as "商品不存在", a short one as "<product name> 库存不足" naming that product |
| Checkout.FirstShortfall | backend/src/main/java/com/shop/service/OrderService.java:57-63 | the stock check of both order loops, line by line from `from` on; only "商品不存在" or "<name> 库存不足" can come out, and FirstShortfallSpec says which line reports it |
| Checkout.FirstShortfallSpec | backend/src/main/java/com/shop/service/OrderService.java:116-123 | the per-line check passes iff every line passes on its own; otherwise it reports the error of the first line that fails, every earlier line having passed |
| Checkout.FirstShortfallNone | backend/src/main/java/com/shop/service/OrderService.java:57-63 | the check from the first line passes iff every line is in stock |
| Checkout.FirstAggregateShortfallSpec | backend/src/main/java/com/shop/service/OrderService.java:116-123 | the corrected check passes iff every line's product covers the whole order's demand for it |
| Checkout.FirstAggregateShortfallNone | backend/src/main/java/com/shop/service/OrderService.java:116-123 | that condition from the first line, as `AggregateInStock` |
| Checkout.DemandCoversLine | backend/src/main/java/com/shop/service/OrderService.java:126-132 | with positive quantities a product's total demand is at least any one line's quantity |
| Checkout.DemandOfDistinct | backend/src/main/java/com/shop/service/OrderService.java:126-132 | without duplicate products a product's demand is the quantity of its one line |
| Checkout.Decremented | backend/src/main/java/com/shop/service/OrderService.java:126-132 | the decrement loop on values, line after line on the current stock; no product is added or removed |
| Checkout.DecrementedSpec | backend/src/main/java/com/shop/service/OrderService.java:126-132 | the decrement leaves every product as it was except its stock, lowered by the total demand for it |
| Checkout.DecrementedStep | backend/src/main/java/com/shop/service/OrderService.java:126-132 | one more loop iteration subtracts that line's quantity from its product's current stock |
| Checkout.PerLineCheckAdmitsNegativeStock | backend/src/main/java/com/shop/service/OrderService.java:116-132 | stock 3, two lines of 2 for the same product: the source's check passes and the decrement leaves -1 |
| Checkout.AggregateCheckKeepsStock | backend/src/main/java/com/shop/service/OrderService.java:116-132 | after the corrected check passes, the decrement keeps every stock non-negative |
| Checkout.AggregateCheckIsStricter | backend/src/main/java/com/shop/service/OrderService.java:116-123 | the corrected check admits only orders the source's check admits |
| Checkout.DistinctLinesChecksAgree | backend/src/main/java/com/shop/service/OrderService.java:116-132 | when no product appears twice, the two checks agree |
| Checkout.CartTotal | backend/src/main/java/com/shop/service/OrderService.java:56-65 | the order total: Σ product.price × item.quantity over the cart lines, at the catalogue prices read by the first loop; `Orders.CheckCartLines` proves its loop computes it and `Checkout.SnapshotTotal` that the frozen lines add up to it |
| Checkout.Snapshot | backend/src/main/java/com/shop/service/OrderService.java:76-86 | one order line per cart line, in cart order, under consecutive ids, each copying product id and quantity and freezing the product's current price |
| Checkout.SnapshotTotal | backend/src/main/java/com/shop/service/OrderService.java:56-86 | Σ orderItem.price × quantity of the frozen lines equals the order total, and they ask for exactly what the cart asked |
| Checkout.SavedLinesFound | backend/src/main/java/com/shop/service/OrderService.java:76-86 | lines saved under fresh ascending ids are returned by `findByOrderId` of their order, exactly and in order |
| Checkout.SnapshotSaved | backend/src/main/java/com/shop/service/OrderService.java:76-86 | the saved snapshot is found again, totals to the cart total and asks for the cart's quantities |
| Checkout.SaveAllKeys | backend/src/main/java/com/shop/service/OrderService.java:85 | saving the lines adds exactly their ids and leaves every other line as it was |
| Tables.FindCart | backend/src/main/java/com/shop/service/CartService.java:36 | `findByUserId`: a cart it returns belongs to that user and is a stored cart; `Tables.FindCartSpec` gives the converse |
| Tables.FindUser | backend/src/main/java/com/shop/service/UserService.java:74-76 | `findByUsername`: a user it returns has exactly that name and is a stored user; `Tables.FindUserSpec` gives the converse |
| Tables.CartLines | backend/src/main/java/com/shop/service/CartService.java:52 | `findByCartId`: the lines of that cart scanned in ascending id order; what it returns is stated in `Tables.CartLinesSpec` |
| Tables.OrderLines | backend/src/main/java/com/shop/service/OrderService.java:113 | `findByOrderId`: the lines of that order scanned in ascending id order; what it returns is stated in `Tables.OrderLinesSpec` |
| Tables.FindCartSpec | backend/src/main/java/com/shop/service/CartService.java:36 | `findByUserId` finds nothing iff the user has no cart, and otherwise the one stored cart of that user |
| Tables.FindUserSpec | backend/src/main/java/com/shop/service/UserService.java:74-76 | `findByUsername` finds nothing iff no user has that name, and otherwise a stored user |
| Tables.CartLinesSpec | backend/src/main/java/com/shop/service/CartService.java:52 | `findByCartId` returns exactly the stored lines of that cart, each once, in ascending id order |
| Tables.OrderLinesSpec | backend/src/main/java/com/shop/service/OrderService.java:113 | `findByOrderId` returns exactly the stored lines of that order, each once, in ascending id order |
| Tables.UserCartLinesStored | backend/src/main/java/com/shop/service/CartService.java:50-52 | every line of a user's cart is a stored item with a positive quantity |
| Carts.GetOrCreateCart | backend/src/main/java/com/shop/service/CartService.java:35-42 | returns the user's existing cart and writes nothing, or else stores exactly one new cart under the next id |
| Carts.GetOrCreateCartTwice | backend/src/main/java/com/shop/service/CartService.java:35-42 | two calls return the same cart and together create at most one |
| Carts.GetActiveCartItems | backend/src/main/java/com/shop/service/CartService.java:50-62 | exactly the lines of the user's cart, in order, each with its product or `None` when it is gone, never an error |
| Carts.AddItem | backend/src/main/java/com/shop/service/CartService.java:73-97 | "数量必须大于 0", "商品不存在", "库存不足" are checked in that order before any write, even the cart's creation; success adds exactly one brand-new line, never merged, so the item count rises by one; stock is outside the frame |
| Carts.SaveNewItem | backend/src/main/java/com/shop/service/CartService.java:90-96 | the new line under the next item id, every other line kept |
| Carts.UpdateItemQuantity | backend/src/main/java/com/shop/service/CartService.java:106-126 | quantity, item, product, stock checked in that order; on success only that line's quantity changes, to the new value |
| Carts.RemoveItem | backend/src/main/java/com/shop/service/CartService.java:134-139 | "购物车项不存在" exactly when the id is absent; otherwise exactly that line is deleted |
| Carts.WithoutCart | backend/src/main/java/com/shop/service/CartService.java:149 | `deleteByCartId`: keeps exactly the lines of the other carts, unchanged |
| Carts.ClearCart | backend/src/main/java/com/shop/service/CartService.java:147-150 | every line of the user's cart is deleted and no line of another cart; the user's cart is then empty |
| Catalog.ValidateProduct | backend/src/main/java/com/shop/service/ProductService.java:102-112 | passes iff the name has a non-blank character after trimming and price and stock are present and ≥ 0; the error is the first failing rule, in the order name, price, stock |
| Catalog.Stored | backend/src/main/java/com/shop/service/ProductService.java:36-39 | a validated draft becomes a product with price ≥ 0 and stock ≥ 0 under the given id |
| Catalog.Create | backend/src/main/java/com/shop/service/ProductService.java:36-39 | stores exactly one new product iff the draft validates, otherwise fails with the validation error and changes nothing; stock stays non-negative |
| Catalog.Update | backend/src/main/java/com/shop/service/ProductService.java:49-58 | "商品不存在" first, then the validation error; success replaces exactly that id's record; stock stays non-negative |
| Catalog.Delete | backend/src/main/java/com/shop/service/ProductService.java:66-71 | "商品不存在" exactly when absent; otherwise removes exactly that product |
| Catalog.FindById | backend/src/main/java/com/shop/service/ProductService.java:92-95 | "商品不存在" exactly when the id is absent; otherwise that product |
| Catalog.Search | backend/src/main/java/com/shop/service/ProductService.java:79-84 | returns only stored products; a null or blank query returns them all |
| Catalog.SearchFilters | backend/src/main/java/com/shop/service/ProductService.java:83 | a non-blank query keeps exactly the products whose name contains the trimmed query, ignoring case |
| Catalog.SearchFindsByName | backend/src/main/java/com/shop/service/ProductService.java:83 | a product whose name is not blank is found by its own name, stored with or without surrounding blanks, in any letter case |
| Catalog.SearchTrimmed | backend/src/main/java/com/shop/service/ProductService.java:80-83 | surrounding blanks in the query change nothing |
| Catalog.SearchIgnoresCase | backend/src/main/java/com/shop/service/ProductService.java:83 | the query's letter case changes nothing |
| Text.TrimStart | backend/src/main/java/com/shop/service/ProductService.java:80 | no longer than the input, and empty or starting above U+0020; that it is a suffix of the input is `Text.TrimStartSuffix` |
| Text.TrimEnd | backend/src/main/java/com/shop/service/ProductService.java:80 | no longer than the input, and empty or ending above U+0020; that it is a prefix of the input is `Text.TrimEndPrefix` |
| Text.Trim | backend/src/main/java/com/shop/service/ProductService.java:80 | `String.trim`: no longer than the input, and empty or starting and ending above U+0020 |
| Text.TrimStartSuffix | backend/src/main/java/com/shop/service/ProductService.java:80 | what the leading trim keeps is a suffix of the input |
| Text.TrimEndPrefix | backend/src/main/java/com/shop/service/ProductService.java:80 | what the trailing trim keeps is a prefix of the input |
| Text.TrimInfix | backend/src/main/java/com/shop/service/ProductService.java:83 | `trim()` keeps a contiguous slice of its input, starting where the leading blanks end |
| Text.IsWhitespace | backend/src/main/java/com/shop/service/UserService.java:34 | `Character.isWhitespace`, the test `StringUtils.hasText` applies to each character |
| Text.HasText | backend/src/main/java/com/shop/service/UserService.java:34 | `StringUtils.hasText`: not null and some character is not whitespace |
| Text.IsBlank | backend/src/main/java/com/shop/service/ProductService.java:103 | a null string, or one whose `trim()` is empty, that is, one whose every character is at most U+0020 (TrimEmpty) |
| Text.ContainsIgnoreCase | backend/src/main/java/com/shop/service/ProductService.java:83 | `findByNameContainingIgnoreCase`: the needle occurs at some position of the name, ignoring letter case |
| Text.TrimEmpty | backend/src/main/java/com/shop/service/ProductService.java:103 | `trim().isEmpty()` holds iff every character is at most U+0020 |
| Text.TrimIdempotent | backend/src/main/java/com/shop/service/ProductService.java:83 | trimming twice is trimming once |
| Text.TrimFoldCase | backend/src/main/java/com/shop/service/ProductService.java:83 | trimming and case folding commute |
| Text.ContainsFoldedNeedle | backend/src/main/java/com/shop/service/ProductService.java:83 | only the fold of the query matters to a case-insensitive containment |
| Text.TrimSameFold | backend/src/main/java/com/shop/service/ProductService.java:83 | strings equal up to letter case stay so, and keep equal lengths, when trimmed |
| Text.ContainsTrimmedFold | backend/src/main/java/com/shop/service/ProductService.java:83 | a name contains, ignoring case, the trimmed form of any string equal to it up to letter case, blanks around the name or not |
| Users.ExistsByUsername | backend/src/main/java/com/shop/service/UserService.java:84-86 | some stored user has exactly that name |
| Users.FoundExactlyWhenExists | backend/src/main/java/com/shop/service/UserService.java:74-86 | `findByUsername` finds a user iff `existsByUsername` holds, and that user is the only one with the name |
| Users.Register | backend/src/main/java/com/shop/service/UserService.java:32-49 | fails iff a field has no text ("用户名与密码不能为空", checked first) or the name is taken ("用户名已存在"), changing nothing; success adds exactly one user with the name as given and `hash(rawPassword)`; usernames stay unique |
| Users.Login | backend/src/main/java/com/shop/service/UserService.java:58-66 | a user is returned only for non-blank inputs; it is a stored user with that name whose hash the password verifies against |
| Users.LoginSpec | backend/src/main/java/com/shop/service/UserService.java:58-66 | with text in both fields, login succeeds iff a stored user of that name has a hash the password verifies against, and returns that stored user |
| Users.LoginAfterRegister | backend/src/main/java/com/shop/service/UserService.java:44-66 | a freshly registered user logs in with the same password whenever `verify` accepts a password against its own hash |
| Users.FindUserById | backend/src/main/java/com/shop/service/UserService.java:94-97 | "用户不存在" exactly when the id is absent; otherwise that user |
| Auth.OpenPath | backend/src/main/java/com/shop/interceptor/AuthInterceptor.java:48-50 | paths starting with "/api/users/login" or "/api/users/register" pass whatever the method |
| Auth.PublicRequest | backend/src/main/java/com/shop/interceptor/AuthInterceptor.java:48-54 | a request needs no token exactly when its path is open, or its method equals "GET" ignoring case and its path starts with "/api/products"; `Auth.PreHandle` lets exactly these through as public |
| Auth.Authenticate | backend/src/main/java/com/shop/interceptor/AuthInterceptor.java:64-90 | every failure inside the `try` comes out as "无效的token"; a token is accepted exactly when it parsed, its subject is a known user and, on admin paths, its role is ADMIN; the attributes are then the claims |
| Auth.PreHandle | backend/src/main/java/com/shop/interceptor/AuthInterceptor.java:41-91 | login/register paths and GET-ignoring-case product paths pass with no header, and no other request passes as public; otherwise "未登录" exactly for a missing header or one not starting with "Bearer "; the only other error is "无效的token"; an accepted principal's username and role are the claims of the header after "Bearer " |
| Auth.KnownUserPasses | backend/src/main/java/com/shop/interceptor/AuthInterceptor.java:64-85 | a protected request with "Bearer " and a token whose claims name a known user (with role ADMIN on admin paths) passes as that user with the token's role |
| Auth.TokenAfterBearer | backend/src/main/java/com/shop/interceptor/AuthInterceptor.java:66 | the parser gets the header with its first 7 characters, "Bearer ", removed |
| Auth.AdminNeedsAdminRole | backend/src/main/java/com/shop/interceptor/AuthInterceptor.java:78-80 | an admin path is never public and passes only for a known user with the ADMIN role |
| Auth.ProductWritesNeedToken | backend/src/main/java/com/shop/interceptor/AuthInterceptor.java:52-54 | a non-GET product request passes only for an authenticated known user |
| Auth.LowerCaseGetIsPublic | backend/src/main/java/com/shop/interceptor/AuthInterceptor.java:52 | the method test ignores case: "get" opens the catalogue like "GET" |

## Left out

- Controllers, `ResponseDTO` wrapping and Spring routing are not part of this model. The services take no caller for cart item update and removal, and Carts.UpdateItemQuantity and Carts.RemoveItem take none either, so any caller may change any line, as in the source. Order complete/cancel are controller calls of Orders.UpdateStatus, which likewise checks no owner.
- `FileController` (file system, random UUIDs, content-type probing) is not part of this model.
- JWT signing and expiry and BCrypt hashing are parameters of the model: `parse` for claim extraction (it may fail), and `hash` and `verify` for passwords. The salt's randomness is left out.
- Prices are whole cents in unbounded integers, not IEEE doubles, so the rounding of `total += price * quantity` is not modelled.
- Stock and quantity are unbounded integers. The 32-bit overflow of `Integer` and `int` and the `Long` ids are not modelled.
- Concurrency and transaction isolation are left out. Each operation is atomic, which the code supports because every check precedes every write. The race between concurrent payments is not modelled.
- Case-insensitive matching folds ASCII letters only. Java's Unicode case mapping and the database collation are not modelled.
- The list finders `findByCartId` and `findByOrderId` are derived queries with no ORDER BY, so the database fixes no order. The model assumes ascending id order. Which line is "the first failing line" in Orders.CreatePendingOrder and Orders.MarkPaidAndFulfillCart depends on that assumption.
- Orders.ListMyOrders and Catalog.Search return maps keyed by id, not lists, so the list order is not stated.
- `listAll` is the blank-query case of Catalog.Search. `listAllOrders` joins user records for display only and is left out.
- `findByUsername` (UserService.java:74-76) is `Tables.FindUser`, which Users.Login uses.
- Catalog.Create always stores under a fresh id. A client-supplied id, which JPA's `save` would merge into an existing row, is not modelled.
- The user's `role` column is not modelled. The role reaches the model only through the token's claims.
- The frontend is not part of this model.

## Findings

| source | as written | input that shows it | evidently intended | confidence | as-written member | corrected member |
|---|---|---|---|---|---|---|
| backend/src/main/java/com/shop/service/OrderService.java:116-132 | the payment checks each order line's quantity against the stock on its own, then subtracts every line cumulatively; cart lines for one product are never merged (CartService.java:88-96), so one order can hold several lines for it | product 1 with stock 3; an order with two lines of 2 units of product 1: both lines pass the check, and the stock ends at -1 | stock never below zero: each product's stock is checked against the total the order takes of it | not executed | Checkout.PerLineCheckAdmitsNegativeStock | Orders.MarkPaidAndFulfillCartGuarded |
