/** The browser-side shopping cart: a sequence of entries, each a copy of a
    weapon with a quantity, and the totals derived from it. */
module Cart {
  import opened Common
  import opened Entities

  datatype CartItem = CartItem(weapon: Weapon, quantity: int)

  type Cart = seq<CartItem>

  /** The invariant every operation keeps: one entry per weapon, and every
      quantity at least 1. */
  ghost predicate Valid(c: Cart) {
    && (forall i, j :: 0 <= i < j < |c| ==> c[i].weapon.id != c[j].weapon.id)
    && (forall i :: 0 <= i < |c| ==> c[i].quantity >= 1)
  }

  ghost predicate Absent(c: Cart, id: Id) {
    forall i :: 0 <= i < |c| ==> c[i].weapon.id != id
  }

  /** Entry `k` is the one entry for weapon `id`. */
  ghost predicate OnlyAt(c: Cart, id: Id, k: int) {
    && 0 <= k < |c|
    && c[k].weapon.id == id
    && forall j :: 0 <= j < |c| && j != k ==> c[j].weapon.id != id
  }

  // ---------------------------------------------------------------------------
  // The operations

  /** `items.find`: the first entry for weapon `id`. */
  function Find(c: Cart, id: Id): (r: Option<CartItem>)
    ensures r.None? <==> Absent(c, id)
    ensures r.Some? ==> exists k :: 0 <= k < |c| && c[k] == r.value && c[k].weapon.id == id
                                    && forall j :: 0 <= j < k ==> c[j].weapon.id != id
    decreases |c|
  {
    if |c| == 0 then None
    else if c[0].weapon.id == id then Some(c[0])
    else
      var r := Find(c[1..], id);
      assert r.Some? ==> exists k :: 0 <= k < |c| && c[k] == r.value && c[k].weapon.id == id
                                     && forall j :: 0 <= j < k ==> c[j].weapon.id != id by {
        if r.Some? {
          var k :| 0 <= k < |c[1..]| && c[1..][k] == r.value && c[1..][k].weapon.id == id
                   && forall j :: 0 <= j < k ==> c[1..][j].weapon.id != id;
          assert c[k + 1] == r.value;
          assert forall j :: 0 <= j < k + 1 ==> c[j].weapon.id != id by {
            forall j | 0 <= j < k + 1
              ensures c[j].weapon.id != id
            {
              if j > 0 {
                assert c[j] == c[1..][j - 1];
              }
            }
          }
        }
      }
      r
  }

  /** The `map` that adds one to the quantity of every entry for `id`. */
  function Bump(c: Cart, id: Id): Cart
    decreases |c|
  {
    if |c| == 0 then []
    else [if c[0].weapon.id == id then c[0].(quantity := c[0].quantity + 1) else c[0]] + Bump(c[1..], id)
  }

  /** `addToCart`: a weapon already in the cart gains one unit unless its
      entry has reached the weapon's stock; a new weapon is appended with
      quantity 1. */
  function AddToCart(c: Cart, w: Weapon): Cart {
    match Find(c, w.id)
    case Some(existing) => if existing.quantity >= w.stock then c else Bump(c, w.id)
    case None => c + [CartItem(w, 1)]
  }

  /** `removeFromCart`: keep the entries for other weapons. */
  function RemoveFromCart(c: Cart, id: Id): Cart
    decreases |c|
  {
    if |c| == 0 then []
    else (if c[0].weapon.id == id then [] else [c[0]]) + RemoveFromCart(c[1..], id)
  }

  /** The `map` that takes one from the quantity of every entry for `id`. */
  function Decrement(c: Cart, id: Id): Cart
    decreases |c|
  {
    if |c| == 0 then []
    else [if c[0].weapon.id == id then c[0].(quantity := c[0].quantity - 1) else c[0]] + Decrement(c[1..], id)
  }

  /** The `filter` that keeps the entries with a positive quantity. */
  function DropEmpty(c: Cart): Cart
    decreases |c|
  {
    if |c| == 0 then []
    else (if c[0].quantity > 0 then [c[0]] else []) + DropEmpty(c[1..])
  }

  /** `decreaseQuantity`: one unit less; an entry that reaches 0 disappears. */
  function DecreaseQuantity(c: Cart, id: Id): Cart {
    DropEmpty(Decrement(c, id))
  }

  /** `clearCart`. */
  function ClearCart(): (r: Cart)
    ensures |r| == 0
  {
    []
  }

  function SumOf(c: Cart, f: CartItem -> int): int
    decreases |c|
  {
    if |c| == 0 then 0 else f(c[0]) + SumOf(c[1..], f)
  }

  /** `totalPrice`: the sum of price times quantity. */
  function TotalPrice(c: Cart): int {
    SumOf(c, (e: CartItem) => e.weapon.price * e.quantity)
  }

  /** `totalItems`: the sum of the quantities. */
  function TotalItems(c: Cart): int {
    SumOf(c, (e: CartItem) => e.quantity)
  }

  // ---------------------------------------------------------------------------
  // What each operation does to a valid cart

  lemma {:induction false} BumpAbsent(c: Cart, id: Id)
    requires Absent(c, id)
    ensures Bump(c, id) == c
    decreases |c|
  {
    if |c| > 0 {
      BumpAbsent(c[1..], id);
    }
  }

  lemma {:induction false} BumpOnly(c: Cart, id: Id, k: int)
    requires OnlyAt(c, id, k)
    ensures Bump(c, id) == c[k := c[k].(quantity := c[k].quantity + 1)]
    decreases |c|
  {
    if k == 0 {
      BumpAbsent(c[1..], id);
    } else {
      BumpOnly(c[1..], id, k - 1);
    }
  }

  lemma {:induction false} RemoveAbsent(c: Cart, id: Id)
    requires Absent(c, id)
    ensures RemoveFromCart(c, id) == c
    decreases |c|
  {
    if |c| > 0 {
      RemoveAbsent(c[1..], id);
    }
  }

  lemma {:induction false} RemoveOnly(c: Cart, id: Id, k: int)
    requires OnlyAt(c, id, k)
    ensures RemoveFromCart(c, id) == c[..k] + c[k + 1..]
    decreases |c|
  {
    if k == 0 {
      RemoveAbsent(c[1..], id);
    } else {
      RemoveOnly(c[1..], id, k - 1);
      assert c[1..][..k - 1] == c[1..k];
      assert c[1..][k..] == c[k + 1..];
      assert [c[0]] + c[1..k] == c[..k];
    }
  }

  lemma {:induction false} DecreaseAbsent(c: Cart, id: Id)
    requires Valid(c) && Absent(c, id)
    ensures DecreaseQuantity(c, id) == c
    decreases |c|
  {
    if |c| > 0 {
      DecreaseAbsent(c[1..], id);
      assert Decrement(c, id) == [c[0]] + Decrement(c[1..], id);
      assert Decrement(c, id)[1..] == Decrement(c[1..], id);
    }
  }

  lemma {:induction false} DecreaseOnly(c: Cart, id: Id, k: int)
    requires Valid(c) && OnlyAt(c, id, k)
    ensures c[k].quantity > 1 ==> DecreaseQuantity(c, id) == c[k := c[k].(quantity := c[k].quantity - 1)]
    ensures c[k].quantity == 1 ==> DecreaseQuantity(c, id) == c[..k] + c[k + 1..]
    decreases |c|
  {
    var d := Decrement(c, id);
    assert d[1..] == Decrement(c[1..], id);
    if k == 0 {
      DecreaseAbsent(c[1..], id);
    } else {
      DecreaseOnly(c[1..], id, k - 1);
      assert c[1..][..k - 1] == c[1..k];
      assert c[1..][k..] == c[k + 1..];
      assert [c[0]] + c[1..k] == c[..k];
    }
  }

  /** In a valid cart an entry for `id` is the only one. */
  lemma ValidOnlyAt(c: Cart, id: Id, k: int)
    requires Valid(c) && 0 <= k < |c| && c[k].weapon.id == id
    ensures OnlyAt(c, id, k)
  {
  }

  /** `addToCart` on a valid cart: unchanged at the stock limit, one more of
      an entry below it, or a new entry of quantity 1 at the end. */
  lemma AddToCartEffect(c: Cart, w: Weapon)
    requires Valid(c)
    ensures forall k :: 0 <= k < |c| && c[k].weapon.id == w.id && c[k].quantity >= w.stock ==>
      AddToCart(c, w) == c
    ensures forall k :: 0 <= k < |c| && c[k].weapon.id == w.id && c[k].quantity < w.stock ==>
      AddToCart(c, w) == c[k := c[k].(quantity := c[k].quantity + 1)]
    ensures Absent(c, w.id) ==> AddToCart(c, w) == c + [CartItem(w, 1)]
  {
    forall k | 0 <= k < |c| && c[k].weapon.id == w.id
      ensures c[k].quantity >= w.stock ==> AddToCart(c, w) == c
      ensures c[k].quantity < w.stock ==> AddToCart(c, w) == c[k := c[k].(quantity := c[k].quantity + 1)]
    {
      ValidOnlyAt(c, w.id, k);
      assert Find(c, w.id) == Some(c[k]);
      BumpOnly(c, w.id, k);
    }
  }

  /** `removeFromCart` on a valid cart drops the entry for `id`, if any, and
      keeps the others in order. */
  lemma RemoveFromCartEffect(c: Cart, id: Id)
    requires Valid(c)
    ensures forall k :: 0 <= k < |c| && c[k].weapon.id == id ==> RemoveFromCart(c, id) == c[..k] + c[k + 1..]
    ensures Absent(c, id) ==> RemoveFromCart(c, id) == c
  {
    forall k | 0 <= k < |c| && c[k].weapon.id == id
      ensures RemoveFromCart(c, id) == c[..k] + c[k + 1..]
    {
      ValidOnlyAt(c, id, k);
      RemoveOnly(c, id, k);
    }
    if Absent(c, id) {
      RemoveAbsent(c, id);
    }
  }

  /** `decreaseQuantity` on a valid cart takes one unit from the entry for
      `id`, dropping it when it held one; other entries are untouched. */
  lemma DecreaseQuantityEffect(c: Cart, id: Id)
    requires Valid(c)
    ensures forall k :: 0 <= k < |c| && c[k].weapon.id == id && c[k].quantity > 1 ==>
      DecreaseQuantity(c, id) == c[k := c[k].(quantity := c[k].quantity - 1)]
    ensures forall k :: 0 <= k < |c| && c[k].weapon.id == id && c[k].quantity == 1 ==>
      DecreaseQuantity(c, id) == c[..k] + c[k + 1..]
    ensures Absent(c, id) ==> DecreaseQuantity(c, id) == c
  {
    forall k | 0 <= k < |c| && c[k].weapon.id == id
      ensures c[k].quantity > 1 ==> DecreaseQuantity(c, id) == c[k := c[k].(quantity := c[k].quantity - 1)]
      ensures c[k].quantity == 1 ==> DecreaseQuantity(c, id) == c[..k] + c[k + 1..]
    {
      ValidOnlyAt(c, id, k);
      DecreaseOnly(c, id, k);
    }
    if Absent(c, id) {
      DecreaseAbsent(c, id);
    }
  }

  /** Every operation keeps the cart valid. */
  lemma OperationsKeepValid(c: Cart, w: Weapon, id: Id)
    requires Valid(c)
    ensures Valid(AddToCart(c, w))
    ensures Valid(RemoveFromCart(c, id))
    ensures Valid(DecreaseQuantity(c, id))
    ensures Valid(ClearCart())
  {
    AddKeepsValid(c, w);
    RemoveKeepsValid(c, id);
    DecreaseKeepsValid(c, id);
  }

  lemma AddKeepsValid(c: Cart, w: Weapon)
    requires Valid(c)
    ensures Valid(AddToCart(c, w))
  {
    AddToCartEffect(c, w);
    if Absent(c, w.id) {
      ValidAppend(c, CartItem(w, 1));
    } else {
      var k :| 0 <= k < |c| && c[k].weapon.id == w.id;
      ValidReplace(c, k, c[k].(quantity := c[k].quantity + 1));
    }
  }

  lemma RemoveKeepsValid(c: Cart, id: Id)
    requires Valid(c)
    ensures Valid(RemoveFromCart(c, id))
  {
    RemoveFromCartEffect(c, id);
    if !Absent(c, id) {
      var k :| 0 <= k < |c| && c[k].weapon.id == id;
      ValidRemoval(c, k);
    }
  }

  lemma DecreaseKeepsValid(c: Cart, id: Id)
    requires Valid(c)
    ensures Valid(DecreaseQuantity(c, id))
  {
    DecreaseQuantityEffect(c, id);
    if !Absent(c, id) {
      var k :| 0 <= k < |c| && c[k].weapon.id == id;
      if c[k].quantity > 1 {
        ValidReplace(c, k, c[k].(quantity := c[k].quantity - 1));
      } else {
        ValidRemoval(c, k);
      }
    }
  }

  lemma ValidReplace(c: Cart, k: int, x: CartItem)
    requires Valid(c) && 0 <= k < |c|
    requires x.weapon.id == c[k].weapon.id && x.quantity >= 1
    ensures Valid(c[k := x])
  {
  }

  lemma ValidAppend(c: Cart, x: CartItem)
    requires Valid(c) && Absent(c, x.weapon.id) && x.quantity >= 1
    ensures Valid(c + [x])
  {
  }

  lemma ValidRemoval(c: Cart, k: int)
    requires Valid(c) && 0 <= k < |c|
    ensures Valid(c[..k] + c[k + 1..])
  {
    var r := c[..k] + c[k + 1..];
    assert forall i :: 0 <= i < |r| ==> r[i] == (if i < k then c[i] else c[i + 1]);
  }

  // ---------------------------------------------------------------------------
  // The totals

  lemma {:induction false} SumOfConcat(a: Cart, b: Cart, f: CartItem -> int)
    ensures SumOf(a + b, f) == SumOf(a, f) + SumOf(b, f)
    decreases |a|
  {
    if |a| == 0 {
      assert a + b == b;
    } else {
      assert (a + b)[0] == a[0];
      assert (a + b)[1..] == a[1..] + b;
      SumOfConcat(a[1..], b, f);
    }
  }

  lemma SumOfReplace(c: Cart, k: int, x: CartItem, f: CartItem -> int)
    requires 0 <= k < |c|
    ensures SumOf(c[k := x], f) == SumOf(c, f) - f(c[k]) + f(x)
    ensures SumOf(c[..k] + c[k + 1..], f) == SumOf(c, f) - f(c[k])
  {
    assert c == c[..k] + [c[k]] + c[k + 1..];
    assert c[k := x] == c[..k] + [x] + c[k + 1..];
    SumOfConcat(c[..k] + [c[k]], c[k + 1..], f);
    SumOfConcat(c[..k] + [x], c[k + 1..], f);
    SumOfConcat(c[..k], [c[k]], f);
    SumOfConcat(c[..k], [x], f);
    SumOfConcat(c[..k], c[k + 1..], f);
  }

  /** Adding a weapon below its stock limit adds one unit and that entry's
      price to the totals. */
  lemma AddToCartTotals(c: Cart, w: Weapon)
    requires Valid(c)
    ensures forall k :: 0 <= k < |c| && c[k].weapon.id == w.id && c[k].quantity < w.stock ==>
      && TotalItems(AddToCart(c, w)) == TotalItems(c) + 1
      && TotalPrice(AddToCart(c, w)) == TotalPrice(c) + c[k].weapon.price
    ensures Absent(c, w.id) ==>
      && TotalItems(AddToCart(c, w)) == TotalItems(c) + 1
      && TotalPrice(AddToCart(c, w)) == TotalPrice(c) + w.price
  {
    AddToCartEffect(c, w);
    forall k | 0 <= k < |c| && c[k].weapon.id == w.id && c[k].quantity < w.stock
      ensures TotalItems(AddToCart(c, w)) == TotalItems(c) + 1
      ensures TotalPrice(AddToCart(c, w)) == TotalPrice(c) + c[k].weapon.price
    {
      TotalsReplace(c, k, c[k].(quantity := c[k].quantity + 1));
    }
    SumOfConcat(c, [CartItem(w, 1)], (e: CartItem) => e.quantity);
    SumOfConcat(c, [CartItem(w, 1)], (e: CartItem) => e.weapon.price * e.quantity);
  }

  /** Both totals after entry `k` is replaced by `x` or dropped. */
  lemma TotalsReplace(c: Cart, k: int, x: CartItem)
    requires 0 <= k < |c|
    ensures TotalItems(c[k := x]) == TotalItems(c) - c[k].quantity + x.quantity
    ensures TotalPrice(c[k := x]) == TotalPrice(c) - c[k].weapon.price * c[k].quantity + x.weapon.price * x.quantity
    ensures TotalItems(c[..k] + c[k + 1..]) == TotalItems(c) - c[k].quantity
    ensures TotalPrice(c[..k] + c[k + 1..]) == TotalPrice(c) - c[k].weapon.price * c[k].quantity
  {
    SumOfReplace(c, k, x, (e: CartItem) => e.quantity);
    SumOfReplace(c, k, x, (e: CartItem) => e.weapon.price * e.quantity);
  }

  /** Removing an entry takes its quantity and its amount off the totals. */
  lemma RemoveFromCartTotals(c: Cart, id: Id)
    requires Valid(c)
    ensures forall k :: 0 <= k < |c| && c[k].weapon.id == id ==>
      && TotalItems(RemoveFromCart(c, id)) == TotalItems(c) - c[k].quantity
      && TotalPrice(RemoveFromCart(c, id)) == TotalPrice(c) - c[k].weapon.price * c[k].quantity
  {
    RemoveFromCartEffect(c, id);
    forall k | 0 <= k < |c| && c[k].weapon.id == id
      ensures TotalItems(RemoveFromCart(c, id)) == TotalItems(c) - c[k].quantity
      ensures TotalPrice(RemoveFromCart(c, id)) == TotalPrice(c) - c[k].weapon.price * c[k].quantity
    {
      TotalsReplace(c, k, c[k]);
    }
  }

  /** Decreasing an entry takes one unit and its price off the totals. */
  lemma DecreaseQuantityTotals(c: Cart, id: Id)
    requires Valid(c)
    ensures forall k :: 0 <= k < |c| && c[k].weapon.id == id ==>
      && TotalItems(DecreaseQuantity(c, id)) == TotalItems(c) - 1
      && TotalPrice(DecreaseQuantity(c, id)) == TotalPrice(c) - c[k].weapon.price
  {
    forall k | 0 <= k < |c| && c[k].weapon.id == id
      ensures TotalItems(DecreaseQuantity(c, id)) == TotalItems(c) - 1
      ensures TotalPrice(DecreaseQuantity(c, id)) == TotalPrice(c) - c[k].weapon.price
    {
      DecreaseTotalsAt(c, id, k);
    }
  }

  lemma DecreaseTotalsAt(c: Cart, id: Id, k: int)
    requires Valid(c) && 0 <= k < |c| && c[k].weapon.id == id
    ensures TotalItems(DecreaseQuantity(c, id)) == TotalItems(c) - 1
    ensures TotalPrice(DecreaseQuantity(c, id)) == TotalPrice(c) - c[k].weapon.price
  {
    ValidOnlyAt(c, id, k);
    DecreaseOnly(c, id, k);
    var x := c[k].(quantity := c[k].quantity - 1);
    TotalsReplace(c, k, x);
    assert c[k].weapon.price * c[k].quantity - x.weapon.price * x.quantity == c[k].weapon.price;
  }

  /** A cleared cart holds nothing and costs nothing. */
  lemma ClearCartTotals()
    ensures TotalItems(ClearCart()) == 0 && TotalPrice(ClearCart()) == 0
  {
  }
}
