# Weapon shop core, modelled in Dafny

This project models the business logic of a small storefront that sells licence-gated weapons.
The storefront has a NestJS/TypeORM back end and a React front end. Five pieces are modelled:

- **Order placement** (`OrdersService.create`), in `orders.dfy`. The buyer's licence level comes
  from the free-text `license_number`. The cart lines are walked in submission order. Each
  line's weapon is loaded, its required licence level is checked, then its stock is checked.
  The stock is decremented, `price × quantity` is added to the total, and an order item that
  freezes the price is built. Finally a `pending` order is saved. Any exception rolls the
  whole transaction back. The database is an immutable `Store` (one map per table).
  `PlaceOrder` returns a `Placement`: the store after the transaction plus either a receipt or
  the exception. On an exception the store is the one passed in.
- **Order queries and status update** (`findMyOrders`, `findAll`, `findOne`, `updateStatus`),
  also in `orders.dfy`.
- **Catalogue listing** (`WeaponsService.findAll`, `findOne`, `remove`), in `weapons.dfy`. The
  listing filters the catalogue, sorts it, cuts out one page, and counts the pages.
- **Shopping cart** (`CartContext`), in `cart.dfy`. This is a sequence of weapon copies with
  quantities. It supports `addToCart`, `removeFromCart`, `decreaseQuantity`, `clearCart` and
  the derived `totalPrice` and `totalItems`.
- **Role guard** (`RolesGuard.canActivate`), in `roles_guard.dfy`.

The supporting modules are:

- `entities.dfy`: the User, Weapon, Order and OrderItem entities, the store, and the exceptions.
- `license.dfy`: the licence-number parser.
- `sorting.dfy`: `ORDER BY` as a sort of a set of rows under a total preorder.
- `text.dfy`: `LOWER`, substring search, and string-key order.
- `common.dfy`: the `Option` and `Result` types.

Money is an integer number of minor currency units. The `decimal(10,2)` columns and the
JavaScript numbers become `int`. Timestamps are integers. Primary keys are uuid strings. The
clock (`now`) and the uuid of the new order are parameters of `PlaceOrder`.

Behaviours of the code worth noting:

- `create` does not check `is_verified`.
- `create` accepts an empty cart and any quantity, including zero and negative ones. The DTO
  only asks for a number.
- A negative licence number is used as is. It is not turned into 0.
- For each line, the licence is checked before the stock.
- `updateStatus` accepts any transition.

## Model

| member | source | states |
|---|---|---|
| License.ParseShowInt | backend/src/orders/orders.service.ts:30-32 | Reading back the decimal text of any integer gives that integer. This includes negative integers. |
| License.LevelOfNumber | backend/src/orders/orders.service.ts:30-32 | A licence number that is the decimal text of `n` gives customer level exactly `n`. A negative `n` is not clamped. |
| License.LevelOfNumeral | backend/src/orders/orders.service.ts:30-32 | An optional `+` or `-`, any number of leading zeros, then the digits of `n` give level `n`, negated after a `-`. So `007` and `+7` give 7. |
| License.LevelOfNonNumber | backend/src/orders/orders.service.ts:29-32 | A missing licence number gives level 0, and so does an empty one or a bare `+` or `-`. So does one with a character that is neither a digit nor a leading sign. |
| Orders.ProcessLinesOutcome | backend/src/orders/orders.service.ts:41-77 | On success there is one item per line, in submission order. Each item has the line's weapon and quantity and that weapon's price at the start. The total is the sum of price × quantity. Each weapon ends with its stock lowered by exactly the cart's total quantity of it, and its update time set. Unnamed weapons are untouched. A named weapon's final stock is never negative. |
| Orders.PlaceOrder | backend/src/orders/orders.service.ts:14-109 | An unknown buyer gives UserNotFound. For a known buyer the call succeeds exactly when the line loop does, and a failure throws the line loop's exception. Any failure leaves the whole store unchanged. On success the users are unchanged and the weapons are settled as above. The orders table is the old one plus one order under the new id: pending, owned by the loaded customer, created now, with the items above. Its total is the sum of the line totals and the receipt carries that total. |
| Orders.PlaceOrderAddsOneOrder | backend/src/orders/orders.service.ts:79-93 | A successful placement adds exactly one order row under the fresh key and leaves the earlier rows as they were. If every row was stored under its own id before, that still holds. |
| Orders.ProcessLinesSucceedsIff | backend/src/orders/orders.service.ts:41-66 | Placement goes through if and only if every line meets three conditions. Its weapon exists. The customer's level is at least the weapon's required level. The stock left by the earlier lines covers the line's quantity. A repeated weapon is therefore checked against its already decremented stock. |
| Orders.FirstFailingLine | backend/src/orders/orders.service.ts:43-62 | The first line that fails decides the exception. An unknown weapon gives not-found. Otherwise a licence too low gives the licence error. Otherwise too little stock gives the stock error, carrying the stock that line saw. |
| Orders.LicenceCheckedBeforeStock | backend/src/orders/orders.service.ts:52-62 | If a line's weapon needs a higher licence, the order fails with the licence exception, whatever the stock. The store stays as it was. |
| Orders.RepeatedWeaponSeesDecrementedStock | backend/src/orders/orders.service.ts:59-66 | A weapon with one unit left, ordered on two lines of one unit each, fails on the second line with stock 0. The store is unchanged. |
| Orders.FindMyOrders | backend/src/orders/orders.service.ts:121-128 | Returns exactly the orders owned by the user. They are newest first, with no order repeated. |
| Orders.FindAll | backend/src/orders/orders.service.ts:112-118 | Returns every stored order, newest first, with no order repeated. When every row is stored under its own id, the listing has one entry per row of the table. |
| Orders.FindOne | backend/src/orders/orders.service.ts:130-137 | Returns the stored order if the id exists, and OrderNotFound otherwise. |
| Orders.UpdateStatus | backend/src/orders/orders.service.ts:140-144 | A missing id gives OrderNotFound. Otherwise only that order's status changes, to the requested value. Its other fields, the other orders, the users and the weapons are unchanged. Every row is still stored under its own id. |
| Orders.StatusUpdateVisible | backend/src/orders/orders.service.ts:140-144 | Any status can be set on an existing order, whatever its current status, and a later `findOne` sees it. |
| Orders.UpdateStatusIdempotent | backend/src/orders/orders.service.ts:140-144 | Setting the same status twice gives the same store as setting it once. |
| Sorting.SortSet | backend/src/orders/orders.service.ts:116 | `ORDER BY` of a set of rows returns a permutation of the set that is sorted by the order. |
| Entities.ExceptionOf | backend/src/orders/orders.service.ts:48-62 | The licence and stock errors are thrown as BadRequestException. Only the guard's error is thrown as ForbiddenException. The rest are NotFoundException. |
| Text.Contains | backend/src/weapons/weapons.service.ts:36-41 | Substring search is true exactly when the term occurs at some position of the text. |
| Text.LexTransitive | backend/src/weapons/weapons.service.ts:61 | Ordering ids by character codes is transitive. |
| Weapons.FindAll | backend/src/weapons/weapons.service.ts:17-76 | Every listed weapon is in the catalogue. It has the requested category and its lowercased name or description contains the lowercased search term. Its price lies within the inclusive bounds, and its required level equals a licence filter greater than 0. The ranking holds every match exactly once and is sorted by price ascending for `low-to-high`, by price descending for `high-to-low`, and by id ascending otherwise. `total` counts all matches. When every row sits under its own id, `total` is the number of matching rows. The page is the slice of that sorted ranking after `(page − 1) × limit` rows, with defaults 1 and 18. |
| Weapons.MatchMeaning | backend/src/weapons/weapons.service.ts:31-53 | The query builder admits a weapon if and only if it meets each condition that was supplied, with a given search term always counted as a condition. A search term that is given but empty admits exactly what no search term admits. |
| Weapons.Paginate | backend/src/weapons/weapons.service.ts:64-75 | The page holds at most `limit` rows. They are the ranking's rows from index `skip` on, and only a short ranking makes the page shorter. `total` is the length of the ranking. `last_page` is the ceiling of total / limit. |
| Weapons.Window | backend/src/weapons/weapons.service.ts:65-66 | Skip/take returns at most `take` consecutive elements, starting at `skip`. |
| Weapons.CeilDiv | backend/src/weapons/weapons.service.ts:74 | `q × limit ≥ total` and `(q − 1) × limit < total`, so `q` is the ceiling of total / limit. |
| Weapons.FindOne | backend/src/weapons/weapons.service.ts:84-90 | Returns the weapon for a known id, and WeaponNotFound otherwise. |
| Weapons.Remove | backend/src/weapons/weapons.service.ts:98-103 | An unknown id gives WeaponNotFound. Otherwise exactly that id is deleted and the other weapons are unchanged. |
| Cart.Find | frontend/src/context/CartContext.tsx:24 | Returns nothing exactly when no entry has the id. Otherwise it returns the first entry with the id. |
| Cart.AddToCartEffect | frontend/src/context/CartContext.tsx:22-47 | On a valid cart there are three cases. An existing entry at or above the weapon's stock leaves the cart unchanged. An existing entry below it gains exactly 1 and nothing else changes. A new weapon is appended with quantity 1. |
| Cart.RemoveFromCartEffect | frontend/src/context/CartContext.tsx:50-53 | The entry for the id is removed and the others are kept in order. An absent id changes nothing. |
| Cart.DecreaseQuantityEffect | frontend/src/context/CartContext.tsx:56-65 | The entry for the id loses 1. An entry that held 1 is dropped, other entries are untouched, and an absent id changes nothing. |
| Cart.OperationsKeepValid | frontend/src/context/CartContext.tsx:22-68 | Every operation keeps ids unique and every quantity at least 1. |
| Cart.AddToCartTotals | frontend/src/context/CartContext.tsx:22-72 | A successful add raises `totalItems` by 1. It raises `totalPrice` by the price of the entry that grew or was added. |
| Cart.RemoveFromCartTotals | frontend/src/context/CartContext.tsx:50-72 | Removing an entry lowers `totalItems` by its quantity and `totalPrice` by its price × quantity. |
| Cart.DecreaseQuantityTotals | frontend/src/context/CartContext.tsx:56-72 | Decreasing an entry lowers `totalItems` by 1 and `totalPrice` by its price. |
| Cart.ClearCartTotals | frontend/src/context/CartContext.tsx:68-72 | A cleared cart has both totals 0. |
| RolesGuard.CanActivate | backend/src/auth/roles.guard.ts:10-33 | Without role metadata, access is granted. Otherwise access is granted if and only if the user exists and holds one of the listed roles; else the guard fails with Forbidden. It never answers false. |
| RolesGuard.EmptyRolesOrNoUserDenied | backend/src/auth/roles.guard.ts:23-30 | An empty role list, or a request without a user, is refused with Forbidden. |

## Left out

- Concurrency is left out: the pessimistic row lock, the query runner, and commit and release. One transaction is one sequential pure function. The lock only matters between concurrent requests.
- The buyer identity `user.id || user.userId` is modelled as a single user id. The token strategy only fills in `userId`.
- `received_date` is read from the request but is neither in the DTO nor in the Order entity, so it is omitted.
- Order item ids and the `order` back-reference are not modelled. `findAll`/`findOne` load the user and weapon relations; the model keeps only the ids.
- The uuid of a new order is a parameter of `PlaceOrder`, as is the clock. `PlaceOrder` requires it to be fresh, as a generated uuid primary key is.
- Orders.PlaceOrder: the model does not show the `decimal(10,2)` rounding or overflow of `price`, `total_price` and `price_at_purchase`, nor fractional quantities. It also does not show the 32-bit range of the `int` columns `weapon.stock`, `weapon.required_license_level` and `order_item.quantity`. A stock update out of that range, for example one caused by a huge negative quantity, makes the database reject the transaction, while the model succeeds. Money, stock, quantities and levels are all unbounded integers here.
- License.LevelOfNonNumber, License.CustomerLevel: only the signed decimal integer subset of JavaScript's `Number()` is parsed. Other text that `Number()` accepts gives level 0 here: surrounding white space, fractions, exponents, hex/octal/binary prefixes, `Infinity`.
- Weapons.FindAll: requires `page ≥ 1` and `limit ≥ 1` when they are given. Otherwise the result depends on how TypeORM handles a negative skip or a zero take, and `Math.ceil(total / 0)` is not an integer.
- Weapons.FindAll: the search is a plain substring test after lower-casing ASCII letters only. SQL `LIKE` wildcards (`%`, `_`) in the term and database collation are not modelled.
- Weapons.FindAll: ids are ordered by character code, not by the database's uuid or collation order. The order of rows with equal sort keys is not promised; the model fixes one.
- Sorting.SortSet: the insertion order among rows with equal keys is one particular choice. The database promises none.
- `WeaponsService.create` and `update`, the controllers (including the catalogue controller that calls `findAll()` without its filter), the DTO decorators and the modules are left out. They are HTTP and dependency-injection wiring.
- `OrdersService.remove` is left out: it is a stub that returns a message.
- Weapons.Remove: deleting a weapon that order items still reference fails on the `weapon_id` foreign key in the database and throws. The model deletes it, because order items are stored inside orders here and the database constraint is not modelled.
- The cart's toast notifications are left out, since they are side effects only. So are React's state batching and the stale `items` closure `addToCart` reads; cart operations are applied one at a time.
- Authentication (password hashing, JWT signing), file upload and `UsersService` are left out. They are foreign calls or thin repository wrappers.
