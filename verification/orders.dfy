/** The order service: placing an order as one transaction over the store,
    and the order queries and status update. */
module Orders {
  import opened Common
  import opened Entities
  import opened License
  import opened Sorting

  /** One line of the submitted cart. The quantity is any number: nothing
      requires it to be positive. */
  datatype CartLine = CartLine(weaponId: Id, quantity: int)

  /** What a successful `create` returns to the caller. */
  datatype Receipt = Receipt(orderId: Id, totalPrice: int)

  /** The store after the transaction, and what the call returned or threw. */
  datatype Placement = Placement(store: Store, outcome: Result<Receipt, Error>)

  /** The state the line loop builds: the transaction's working copy of the
      weapons table, the order items so far and the running total. */
  datatype Processed = Processed(weapons: map<Id, Weapon>, items: seq<OrderItem>, total: int)

  /** The result of `updateStatus`: the new store and the saved order. */
  datatype Updated = Updated(store: Store, order: Order)

  // ---------------------------------------------------------------------------
  // Reference definitions

  /** Some line of the cart names weapon `id`. */
  predicate Mentions(lines: seq<CartLine>, id: Id)
    decreases |lines|
  {
    |lines| > 0 && (lines[0].weaponId == id || Mentions(lines[1..], id))
  }

  /** The total quantity the cart asks for of weapon `id`. */
  function QuantityOf(lines: seq<CartLine>, id: Id): int
    decreases |lines|
  {
    if |lines| == 0 then 0
    else (if lines[0].weaponId == id then lines[0].quantity else 0) + QuantityOf(lines[1..], id)
  }

  function LineTotal(item: OrderItem): int {
    item.priceAtPurchase * item.quantity
  }

  function SumTotals(items: seq<OrderItem>): int
    decreases |items|
  {
    if |items| == 0 then 0 else LineTotal(items[0]) + SumTotals(items[1..])
  }

  /** Weapon `id` once the whole cart has gone through: its stock lowered by
      everything the cart took of it and its update time set, or untouched. */
  function Settled(weapons: map<Id, Weapon>, lines: seq<CartLine>, now: int, id: Id): Weapon
    requires id in weapons
  {
    var w := weapons[id];
    if Mentions(lines, id) then w.(stock := w.stock - QuantityOf(lines, id), updatedAt := now) else w
  }

  /** The stock line `i` finds for weapon `id`: the stored stock less what the
      lines before it took. */
  function StockSeenBy(weapons: map<Id, Weapon>, lines: seq<CartLine>, i: int, id: Id): int
    requires id in weapons && 0 <= i <= |lines|
  {
    weapons[id].stock - QuantityOf(lines[..i], id)
  }

  /** The exception line `i` raises once the lines before it went through:
      an unknown weapon, then the licence, then the stock. */
  function LineVerdict(weapons: map<Id, Weapon>, level: int, lines: seq<CartLine>, i: int): Option<Error>
    requires 0 <= i < |lines|
  {
    var id := lines[i].weaponId;
    if id !in weapons then Some(WeaponNotFound(id))
    else
      var w := weapons[id];
      if w.requiredLicenseLevel > level then Some(LicenseInsufficient(w.name, w.requiredLicenseLevel, level))
      else
        var seen := StockSeenBy(weapons, lines, i, id);
        if seen < lines[i].quantity then Some(InsufficientStock(w.name, seen)) else None
  }

  /** The weapons table after the cart went through: the same weapons, each
      one settled. */
  ghost predicate SettledTable(before: map<Id, Weapon>, after: map<Id, Weapon>, lines: seq<CartLine>, now: int) {
    && after.Keys == before.Keys
    && forall id :: id in before ==> after[id] == Settled(before, lines, now, id)
  }

  /** One item per line, in submission order, each carrying the line's weapon
      and quantity and the price that weapon had before the transaction. */
  ghost predicate FrozenItems(weapons: map<Id, Weapon>, lines: seq<CartLine>, items: seq<OrderItem>) {
    && |items| == |lines|
    && forall i :: 0 <= i < |lines| ==>
         && lines[i].weaponId in weapons
         && items[i] == OrderItem(lines[i].weaponId, lines[i].quantity, weapons[lines[i].weaponId].price)
  }

  // ---------------------------------------------------------------------------
  // create

  /** One pass of the line loop: load the weapon, check the licence, check the stock. */
  function CheckLine(weapons: map<Id, Weapon>, level: int, line: CartLine): Result<Weapon, Error> {
    if line.weaponId !in weapons then Failure(WeaponNotFound(line.weaponId))
    else
      var w := weapons[line.weaponId];
      if w.requiredLicenseLevel > level then Failure(LicenseInsufficient(w.name, w.requiredLicenseLevel, level))
      else if w.stock < line.quantity then Failure(InsufficientStock(w.name, w.stock))
      else Success(w)
  }

  /** The line loop of `create`, in submission order: each line is checked
      against the working copy left by the lines before it, its weapon's stock
      is decremented, and an order item freezing the price is built. */
  function ProcessLines(weapons: map<Id, Weapon>, level: int, lines: seq<CartLine>, now: int): Result<Processed, Error>
    decreases |lines|
  {
    if |lines| == 0 then Success(Processed(weapons, [], 0))
    else
      var line := lines[0];
      match CheckLine(weapons, level, line)
      case Failure(e) => Failure(e)
      case Success(w) =>
        var working := weapons[line.weaponId := w.(stock := w.stock - line.quantity, updatedAt := now)];
        match ProcessLines(working, level, lines[1..], now)
        case Failure(e) => Failure(e)
        case Success(rest) =>
          var item := OrderItem(line.weaponId, line.quantity, w.price);
          Success(Processed(rest.weapons, [item] + rest.items, w.price * line.quantity + rest.total))
  }

  /** What a line loop that goes through produces: one item per line, in
      order, freezing the weapon's price; the sum of the line totals; every
      weapon's stock lowered by exactly what the cart took of it, and never
      below zero for a weapon the cart names. */
  lemma ProcessLinesOutcome(weapons: map<Id, Weapon>, level: int, lines: seq<CartLine>, now: int)
    ensures ProcessLines(weapons, level, lines, now).Success? ==>
      var p := ProcessLines(weapons, level, lines, now).value;
      && SettledTable(weapons, p.weapons, lines, now)
      && (forall id :: id in weapons && Mentions(lines, id) ==> p.weapons[id].stock >= 0)
      && FrozenItems(weapons, lines, p.items)
      && p.total == SumTotals(p.items)
  {
    ProcessLinesTable(weapons, level, lines, now);
    ProcessLinesItems(weapons, level, lines, now);
  }

  /** The weapons half of `ProcessLinesOutcome`. */
  lemma {:induction false} ProcessLinesTable(weapons: map<Id, Weapon>, level: int, lines: seq<CartLine>, now: int)
    ensures ProcessLines(weapons, level, lines, now).Success? ==>
      var p := ProcessLines(weapons, level, lines, now).value;
      && SettledTable(weapons, p.weapons, lines, now)
      && (forall id :: id in weapons && Mentions(lines, id) ==> p.weapons[id].stock >= 0)
    decreases |lines|
  {
    var r := ProcessLines(weapons, level, lines, now);
    if |lines| > 0 && r.Success? {
      var line := lines[0];
      var w := weapons[line.weaponId];
      var working := weapons[line.weaponId := w.(stock := w.stock - line.quantity, updatedAt := now)];
      ProcessLinesTable(working, level, lines[1..], now);
      assert r.value.weapons == ProcessLines(working, level, lines[1..], now).value.weapons;
      SettledStep(weapons, lines, now);
    }
  }

  /** The items half of `ProcessLinesOutcome`. */
  lemma {:induction false} ProcessLinesItems(weapons: map<Id, Weapon>, level: int, lines: seq<CartLine>, now: int)
    ensures ProcessLines(weapons, level, lines, now).Success? ==>
      var p := ProcessLines(weapons, level, lines, now).value;
      FrozenItems(weapons, lines, p.items) && p.total == SumTotals(p.items)
    decreases |lines|
  {
    var r := ProcessLines(weapons, level, lines, now);
    if |lines| > 0 && r.Success? {
      var line := lines[0];
      var w := weapons[line.weaponId];
      var working := weapons[line.weaponId := w.(stock := w.stock - line.quantity, updatedAt := now)];
      ProcessLinesItems(working, level, lines[1..], now);
      var rest := ProcessLines(working, level, lines[1..], now).value;
      var item := OrderItem(line.weaponId, line.quantity, w.price);
      assert r.value == Processed(rest.weapons, [item] + rest.items, w.price * line.quantity + rest.total);
      assert ([item] + rest.items)[1..] == rest.items;
    }
  }

  /** Settling the rest of the cart on the working copy the first line left
      settles the whole cart on the original table. */
  lemma SettledStep(weapons: map<Id, Weapon>, lines: seq<CartLine>, now: int)
    requires |lines| > 0 && lines[0].weaponId in weapons
    ensures
      var w := weapons[lines[0].weaponId];
      var working := weapons[lines[0].weaponId := w.(stock := w.stock - lines[0].quantity, updatedAt := now)];
      forall id :: id in weapons ==> Settled(working, lines[1..], now, id) == Settled(weapons, lines, now, id)
  {
    var w := weapons[lines[0].weaponId];
    var working := weapons[lines[0].weaponId := w.(stock := w.stock - lines[0].quantity, updatedAt := now)];
    forall id | id in weapons
      ensures Settled(working, lines[1..], now, id) == Settled(weapons, lines, now, id)
    {
      if !Mentions(lines[1..], id) {
        UnmentionedQuantity(lines[1..], id);
      }
    }
  }

  lemma {:induction false} UnmentionedQuantity(lines: seq<CartLine>, id: Id)
    requires !Mentions(lines, id)
    ensures QuantityOf(lines, id) == 0
    decreases |lines|
  {
    if |lines| > 0 {
      UnmentionedQuantity(lines[1..], id);
    }
  }

  /** `create`: load the customer, derive the licence level, run the line
      loop, then save a pending order. Any exception rolls the whole
      transaction back, so a failed call leaves the store as it was. */
  function PlaceOrder(s: Store, buyerId: Id, lines: seq<CartLine>, orderId: Id, now: int): (t: Placement)
    requires orderId !in s.orders  // the uuid column generates a fresh key
    ensures buyerId !in s.users ==> t.outcome == Failure(UserNotFound)
    ensures buyerId in s.users ==>
      var pl := ProcessLines(s.weapons, CustomerLevel(s.users[buyerId].licenseNumber), lines, now);
      && (t.outcome.Success? <==> pl.Success?)
      && (pl.Failure? ==> t.outcome == Failure(pl.error))
    ensures t.outcome.Failure? ==> t.store == s
    ensures t.outcome.Success? ==>
      && buyerId in s.users
      && ProcessLines(s.weapons, CustomerLevel(s.users[buyerId].licenseNumber), lines, now).Success?
      && t.store.users == s.users
      && SettledTable(s.weapons, t.store.weapons, lines, now)
      && orderId in t.store.orders
      && t.store.orders == s.orders[orderId := t.store.orders[orderId]]
    ensures t.outcome.Success? ==>
      var order := t.store.orders[orderId];
      && t.outcome.value == Receipt(orderId, order.totalPrice)
      && order.id == orderId
      && order.status == Pending
      && order.userId == s.users[buyerId].id
      && order.createdAt == now
      && FrozenItems(s.weapons, lines, order.items)
      && order.totalPrice == SumTotals(order.items)
  {
    if buyerId !in s.users then Placement(s, Failure(UserNotFound))
    else
      var customer := s.users[buyerId];
      var level := CustomerLevel(customer.licenseNumber);
      match ProcessLines(s.weapons, level, lines, now)
      case Failure(e) => Placement(s, Failure(e))
      case Success(p) =>
        ProcessLinesOutcome(s.weapons, level, lines, now);
        var order := Order(orderId, p.total, Pending, now, customer.id, p.items);
        Placement(Store(s.users, p.weapons, s.orders[orderId := order]), Success(Receipt(orderId, p.total)))
  }

  /** A placed order is one new row under the fresh key: the orders table
      grows by exactly one, the earlier orders are untouched, and every row
      stays under its own key. */
  lemma PlaceOrderAddsOneOrder(s: Store, buyerId: Id, lines: seq<CartLine>, orderId: Id, now: int)
    requires orderId !in s.orders
    ensures var t := PlaceOrder(s, buyerId, lines, orderId, now);
      t.outcome.Success? ==>
        && t.store.orders.Keys == s.orders.Keys + {orderId}
        && |t.store.orders| == |s.orders| + 1
        && (forall id :: id in s.orders ==> t.store.orders[id] == s.orders[id])
        && (OrdersKeyed(s) ==> OrdersKeyed(t.store))
  {
  }

  // ---------------------------------------------------------------------------
  // create: which carts go through, and which exception the others raise

  lemma QuantityOfPrefixShift(lines: seq<CartLine>, i: int, id: Id)
    requires 1 <= i <= |lines|
    ensures QuantityOf(lines[..i], id)
         == (if lines[0].weaponId == id then lines[0].quantity else 0) + QuantityOf(lines[1..][..i - 1], id)
  {
    assert lines[..i][1..] == lines[1..][..i - 1];
  }

  /** After the first line went through, line `i` of the cart is judged
      against the working copy exactly as line `i - 1` of the rest of the cart. */
  lemma VerdictShift(weapons: map<Id, Weapon>, level: int, lines: seq<CartLine>, now: int, i: int)
    requires 1 <= i < |lines|
    requires CheckLine(weapons, level, lines[0]).Success?
    ensures
      var w := weapons[lines[0].weaponId];
      var working := weapons[lines[0].weaponId := w.(stock := w.stock - lines[0].quantity, updatedAt := now)];
      LineVerdict(weapons, level, lines, i) == LineVerdict(working, level, lines[1..], i - 1)
  {
    QuantityOfPrefixShift(lines, i, lines[i].weaponId);
  }

  lemma FirstVerdict(weapons: map<Id, Weapon>, level: int, lines: seq<CartLine>)
    requires |lines| > 0
    ensures CheckLine(weapons, level, lines[0]).Success? <==> LineVerdict(weapons, level, lines, 0).None?
    ensures CheckLine(weapons, level, lines[0]).Failure? ==>
      LineVerdict(weapons, level, lines, 0) == Some(CheckLine(weapons, level, lines[0]).error)
  {
    assert lines[..0] == [];
  }

  /** One unrolling of the line loop. */
  lemma ProcessLinesStep(weapons: map<Id, Weapon>, level: int, lines: seq<CartLine>, now: int)
    requires |lines| > 0
    ensures CheckLine(weapons, level, lines[0]).Failure? ==>
      ProcessLines(weapons, level, lines, now) == Failure(CheckLine(weapons, level, lines[0]).error)
    ensures CheckLine(weapons, level, lines[0]).Success? ==>
      var w := weapons[lines[0].weaponId];
      var working := weapons[lines[0].weaponId := w.(stock := w.stock - lines[0].quantity, updatedAt := now)];
      && (ProcessLines(weapons, level, lines, now).Success? <==> ProcessLines(working, level, lines[1..], now).Success?)
      && (ProcessLines(working, level, lines[1..], now).Failure? ==>
            ProcessLines(weapons, level, lines, now) == ProcessLines(working, level, lines[1..], now))
  {
  }

  /** Every line of the cart passes its checks. */
  ghost predicate AllLinesPass(weapons: map<Id, Weapon>, level: int, lines: seq<CartLine>) {
    forall i :: 0 <= i < |lines| ==> LineVerdict(weapons, level, lines, i).None?
  }

  /** Once the first line went through, the whole cart passes exactly when
      the rest of it passes against the working copy. */
  lemma AllLinesPassStep(weapons: map<Id, Weapon>, level: int, lines: seq<CartLine>, now: int)
    requires |lines| > 0
    requires CheckLine(weapons, level, lines[0]).Success?
    ensures
      var w := weapons[lines[0].weaponId];
      var working := weapons[lines[0].weaponId := w.(stock := w.stock - lines[0].quantity, updatedAt := now)];
      AllLinesPass(weapons, level, lines) <==> AllLinesPass(working, level, lines[1..])
  {
    var w := weapons[lines[0].weaponId];
    var working := weapons[lines[0].weaponId := w.(stock := w.stock - lines[0].quantity, updatedAt := now)];
    FirstVerdict(weapons, level, lines);
    forall i | 1 <= i < |lines|
      ensures LineVerdict(weapons, level, lines, i) == LineVerdict(working, level, lines[1..], i - 1)
    {
      VerdictShift(weapons, level, lines, now, i);
    }
    if AllLinesPass(working, level, lines[1..]) {
      forall i | 1 <= i < |lines|
        ensures LineVerdict(weapons, level, lines, i).None?
      {
        assert LineVerdict(working, level, lines[1..], i - 1).None?;
      }
    }
    if AllLinesPass(weapons, level, lines) {
      forall j | 0 <= j < |lines| - 1
        ensures LineVerdict(working, level, lines[1..], j).None?
      {
        assert LineVerdict(weapons, level, lines, j + 1).None?;
      }
    }
  }

  /** The line loop goes through exactly when every line, checked against
      the stock the lines before it left, names a known weapon the customer is
      licensed for and finds enough stock. A weapon repeated in the cart is
      thus checked against its already decremented stock. */
  lemma {:induction false} ProcessLinesSucceedsIff(weapons: map<Id, Weapon>, level: int, lines: seq<CartLine>, now: int)
    ensures ProcessLines(weapons, level, lines, now).Success? <==> AllLinesPass(weapons, level, lines)
    decreases |lines|
  {
    if |lines| > 0 {
      FirstVerdict(weapons, level, lines);
      if CheckLine(weapons, level, lines[0]).Success? {
        var w := weapons[lines[0].weaponId];
        var working := weapons[lines[0].weaponId := w.(stock := w.stock - lines[0].quantity, updatedAt := now)];
        ProcessLinesStep(weapons, level, lines, now);
        ProcessLinesSucceedsIff(working, level, lines[1..], now);
        AllLinesPassStep(weapons, level, lines, now);
      } else {
        ProcessLinesStep(weapons, level, lines, now);
        assert !AllLinesPass(weapons, level, lines);
      }
    }
  }

  /** When every line before line `i` goes through and line `i` does not, the
      loop throws exactly line `i`'s exception. In particular a weapon the
      customer is not licensed for raises the licence error even when its
      stock is also short: the licence is checked first. */
  lemma {:induction false} FirstFailingLine(weapons: map<Id, Weapon>, level: int, lines: seq<CartLine>, now: int, i: int)
    requires 0 <= i < |lines|
    requires forall j :: 0 <= j < i ==> LineVerdict(weapons, level, lines, j).None?
    requires LineVerdict(weapons, level, lines, i).Some?
    ensures ProcessLines(weapons, level, lines, now) == Failure(LineVerdict(weapons, level, lines, i).value)
    decreases |lines|
  {
    FirstVerdict(weapons, level, lines);
    if i > 0 {
      assert LineVerdict(weapons, level, lines, 0).None?;
      var w := weapons[lines[0].weaponId];
      var working := weapons[lines[0].weaponId := w.(stock := w.stock - lines[0].quantity, updatedAt := now)];
      forall j | 1 <= j <= i
        ensures LineVerdict(weapons, level, lines, j) == LineVerdict(working, level, lines[1..], j - 1)
      {
        VerdictShift(weapons, level, lines, now, j);
      }
      assert forall j :: 0 <= j < i - 1 ==> LineVerdict(working, level, lines[1..], j).None? by {
        forall j | 0 <= j < i - 1
          ensures LineVerdict(working, level, lines[1..], j).None?
        {
          assert LineVerdict(weapons, level, lines, j + 1).None?;
        }
      }
      FirstFailingLine(working, level, lines[1..], now, i - 1);
      ProcessLinesStep(weapons, level, lines, now);
    } else {
      ProcessLinesStep(weapons, level, lines, now);
    }
  }

  /** A line whose weapon needs a higher licence than the customer holds
      aborts the order with the licence exception, whatever the stock, and
      leaves the store unchanged. */
  lemma LicenceCheckedBeforeStock(s: Store, buyerId: Id, lines: seq<CartLine>, orderId: Id, now: int, i: int)
    requires buyerId in s.users && orderId !in s.orders
    requires 0 <= i < |lines|
    requires forall j :: 0 <= j < i ==> LineVerdict(s.weapons, CustomerLevel(s.users[buyerId].licenseNumber), lines, j).None?
    requires lines[i].weaponId in s.weapons
    requires s.weapons[lines[i].weaponId].requiredLicenseLevel > CustomerLevel(s.users[buyerId].licenseNumber)
    ensures
      var w := s.weapons[lines[i].weaponId];
      var level := CustomerLevel(s.users[buyerId].licenseNumber);
      PlaceOrder(s, buyerId, lines, orderId, now) == Placement(s, Failure(LicenseInsufficient(w.name, w.requiredLicenseLevel, level)))
  {
    FirstFailingLine(s.weapons, CustomerLevel(s.users[buyerId].licenseNumber), lines, now, i);
  }

  /** A weapon with one unit left, named on two lines of one unit each: the
      second line sees the stock the first left and the whole order fails. */
  lemma RepeatedWeaponSeesDecrementedStock(s: Store, buyerId: Id, w: Weapon, orderId: Id, now: int)
    requires buyerId in s.users && orderId !in s.orders
    requires w.id in s.weapons && s.weapons[w.id] == w
    requires w.stock == 1
    requires w.requiredLicenseLevel <= CustomerLevel(s.users[buyerId].licenseNumber)
    ensures PlaceOrder(s, buyerId, [CartLine(w.id, 1), CartLine(w.id, 1)], orderId, now)
         == Placement(s, Failure(InsufficientStock(w.name, 0)))
  {
    var lines := [CartLine(w.id, 1), CartLine(w.id, 1)];
    var level := CustomerLevel(s.users[buyerId].licenseNumber);
    assert lines[..0] == [] && lines[..1] == [lines[0]];
    assert LineVerdict(s.weapons, level, lines, 0).None?;
    assert lines[..1][1..] == [];
    assert QuantityOf(lines[..1], w.id) == 1;
    FirstFailingLine(s.weapons, level, lines, now, 1);
  }

  // ---------------------------------------------------------------------------
  // Queries and the status update

  /** `ORDER BY created_at DESC` is a total preorder. */
  lemma NewestFirstIsPreorder()
    ensures TotalPreorder((a: Order, b: Order) => a.createdAt >= b.createdAt)
  {
  }

  /** `findMyOrders`: the customer's orders, newest first. */
  method FindMyOrders(s: Store, userId: Id) returns (r: seq<Order>)
    ensures forall o :: o in r <==> o in s.orders.Values && o.userId == userId
    ensures forall i, j :: 0 <= i < j < |r| ==> r[i].createdAt >= r[j].createdAt
    ensures forall i, j :: 0 <= i < j < |r| ==> r[i] != r[j]
  {
    var mine := set o | o in s.orders.Values && o.userId == userId;
    NewestFirstIsPreorder();
    r := SortSet(mine, (a: Order, b: Order) => a.createdAt >= b.createdAt);
    assert forall o :: o in r <==> o in multiset(r);
    NoRepeats(r, mine);
  }

  /** `findAll`: every order, newest first. */
  method FindAll(s: Store) returns (r: seq<Order>)
    ensures forall o :: o in r <==> o in s.orders.Values
    ensures forall i, j :: 0 <= i < j < |r| ==> r[i].createdAt >= r[j].createdAt
    ensures |r| == |s.orders.Values|
    ensures OrdersKeyed(s) ==> |r| == |s.orders|
    ensures forall i, j :: 0 <= i < j < |r| ==> r[i] != r[j]
  {
    NewestFirstIsPreorder();
    r := SortSet(s.orders.Values, (a: Order, b: Order) => a.createdAt >= b.createdAt);
    assert forall o :: o in r <==> o in multiset(r);
    NoRepeats(r, s.orders.Values);
    if OrdersKeyed(s) {
      KeyedOrderCount(s.orders);
    }
  }

  /** Rows stored under their own keys are pairwise distinct, so a table has
      as many rows as keys. */
  lemma KeyedOrderCount(m: map<Id, Order>)
    requires forall k :: k in m ==> m[k].id == k
    ensures |m.Values| == |m|
    decreases |m|
  {
    if |m| > 0 {
      var k :| k in m;
      var rest := m - {k};
      KeyedOrderCount(rest);
      assert m.Keys == rest.Keys + {k};
      assert m.Values == rest.Values + {m[k]};
      assert m[k] !in rest.Values;
    }
  }

  /** A listing with the multiset of a set repeats no row. */
  lemma NoRepeats<T>(r: seq<T>, xs: set<T>)
    requires multiset(r) == multiset(xs)
    ensures forall i, j :: 0 <= i < j < |r| ==> r[i] != r[j]
  {
    forall i, j | 0 <= i < j < |r|
      ensures r[i] != r[j]
    {
      assert r == r[..i] + [r[i]] + r[i + 1..j] + [r[j]] + r[j + 1..];
      assert multiset(r)[r[i]] <= 1;
    }
  }

  /** `findOne`: the order with that id, or not-found. */
  function FindOne(s: Store, id: Id): (r: Result<Order, Error>)
    ensures r.Success? <==> id in s.orders
    ensures r.Success? ==> r.value == s.orders[id]
    ensures r.Failure? ==> r.error == OrderNotFound(id)
  {
    if id in s.orders then Success(s.orders[id]) else Failure(OrderNotFound(id))
  }

  /** `updateStatus`: overwrite the status of an existing order, with no
      guard on the transition. */
  function UpdateStatus(s: Store, id: Id, status: OrderStatus): (r: Result<Updated, Error>)
    ensures r.Failure? <==> id !in s.orders
    ensures r.Failure? ==> r.error == OrderNotFound(id)
    ensures r.Success? ==>
      var o := s.orders[id];
      var n := r.value.order;
      && n.status == status
      && n.id == o.id && n.totalPrice == o.totalPrice && n.createdAt == o.createdAt
      && n.userId == o.userId && n.items == o.items
      && r.value.store.users == s.users
      && r.value.store.weapons == s.weapons
      && r.value.store.orders.Keys == s.orders.Keys
      && r.value.store.orders[id] == n
      && (forall k :: k in s.orders && k != id ==> r.value.store.orders[k] == s.orders[k])
      && (OrdersKeyed(s) ==> OrdersKeyed(r.value.store))
  {
    match FindOne(s, id)
    case Failure(e) => Failure(e)
    case Success(order) =>
      var saved := order.(status := status);
      Success(Updated(s.(orders := s.orders[id := saved]), saved))
  }

  /** Any status can be set from any status, and a later `findOne` sees it. */
  lemma StatusUpdateVisible(s: Store, id: Id, status: OrderStatus)
    requires id in s.orders
    ensures UpdateStatus(s, id, status).Success?
    ensures FindOne(UpdateStatus(s, id, status).value.store, id).value.status == status
  {
  }

  /** Setting the same status twice is the same as setting it once. */
  lemma UpdateStatusIdempotent(s: Store, id: Id, status: OrderStatus)
    requires id in s.orders
    ensures UpdateStatus(UpdateStatus(s, id, status).value.store, id, status).value.store
         == UpdateStatus(s, id, status).value.store
  {
  }
}
