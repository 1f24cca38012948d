/** The shopping cart: an ordered sequence of line items, the two reducers
    that replace it on user events (add a product; change a line's quantity)
    and the two folds shown in the cart panel (total price; item count). */
module ShoppingCart {
  import opened Seqs
  import opened Catalog

  /** A line item: the product's fields copied in, plus a quantity. */
  datatype Line = Line(product: Product, quantity: int)

  type Cart = seq<Line>

  datatype Option<T> = None | Some(value: T)

  function Max(a: int, b: int): int
  {
    if a >= b then a else b
  }

  /** Some line of the cart is for product `id`. */
  predicate HasId(cart: Cart, id: int)
  {
    exists i :: 0 <= i < |cart| && cart[i].product.id == id
  }

  /** At most one line per product id. */
  predicate UniqueIds(cart: Cart)
  {
    forall i, j :: 0 <= i < j < |cart| ==> cart[i].product.id != cart[j].product.id
  }

  /** Every line has a quantity of at least 1. */
  predicate AllPositive(cart: Cart)
  {
    forall i :: 0 <= i < |cart| ==> cart[i].quantity >= 1
  }

  /** The cart invariant: ids are unique and every quantity is at least 1. */
  predicate Valid(cart: Cart)
  {
    UniqueIds(cart) && AllPositive(cart)
  }

  /** `cart.find(item => item.id === id)`: the first line for `id`, if any. */
  function Find(cart: Cart, id: int): (r: Option<Line>)
    ensures r.None? <==> !HasId(cart, id)
    ensures r.Some? ==> exists i :: 0 <= i < |cart| && cart[i] == r.value && r.value.product.id == id &&
                                    (forall j :: 0 <= j < i ==> cart[j].product.id != id)
    decreases |cart|
  {
    if cart == [] then None
    else if cart[0].product.id == id then Some(cart[0])
    else
      var r := Find(cart[1..], id);
      if r.Some? then
        var i :| 0 <= i < |cart[1..]| && cart[1..][i] == r.value && r.value.product.id == id &&
          forall j :: 0 <= j < i ==> cart[1..][j].product.id != id;
        assert cart[i + 1] == r.value;
        r
      else
        assert forall i :: 1 <= i < |cart| ==> cart[i] == cart[1..][i - 1];
        r
  }

  /** The `.map` of `addToCart`: every line for `id` gets one more unit. */
  function Increment(cart: Cart, id: int): Cart
  {
    seq(|cart|, i requires 0 <= i < |cart| =>
      if cart[i].product.id == id then cart[i].(quantity := cart[i].quantity + 1) else cart[i])
  }

  /** `addToCart(product)`: bump the existing line, or append a new line of quantity 1. */
  function AddToCart(cart: Cart, p: Product): Cart
  {
    if Find(cart, p.id).Some? then Increment(cart, p.id) else cart + [Line(p, 1)]
  }

  /** The `.map` of `updateQuantity`: every line for `id` gets `max(0, quantity + change)`. */
  function Adjust(cart: Cart, id: int, change: int): Cart
  {
    seq(|cart|, i requires 0 <= i < |cart| =>
      if cart[i].product.id == id then cart[i].(quantity := Max(0, cart[i].quantity + change)) else cart[i])
  }

  predicate Positive(l: Line)
  {
    l.quantity > 0
  }

  /** `updateQuantity(productId, change)`: adjust, then drop every line whose quantity is not positive. */
  function UpdateQuantity(cart: Cart, id: int, change: int): Cart
  {
    Keep(Adjust(cart, id, change), Positive)
  }

  function LineTotal(l: Line): int
  {
    l.product.price * l.quantity
  }

  function Quantity(l: Line): int
  {
    l.quantity
  }

  /** `cart.reduce((sum, item) => sum + item.price * item.quantity, 0)`, in cents. */
  function TotalPrice(cart: Cart): int
  {
    FoldLeft((sum: int, l: Line) => sum + l.product.price * l.quantity, 0, cart)
  }

  /** `cart.reduce((sum, item) => sum + item.quantity, 0)`. */
  function CartItemCount(cart: Cart): int
  {
    FoldLeft((sum: int, l: Line) => sum + l.quantity, 0, cart)
  }

  // ---------------------------------------------------------------------------
  // Totals

  /** The total price is the sum of price times quantity over the lines. */
  lemma TotalPriceIsSum(cart: Cart)
    ensures TotalPrice(cart) == Sum(cart, LineTotal)
  {
    FoldLeftIsSum((sum: int, l: Line) => sum + l.product.price * l.quantity, LineTotal, 0, cart);
  }

  /** The item count is the sum of the quantities. */
  lemma CartItemCountIsSum(cart: Cart)
    ensures CartItemCount(cart) == Sum(cart, Quantity)
  {
    FoldLeftIsSum((sum: int, l: Line) => sum + l.quantity, Quantity, 0, cart);
  }

  /** The empty cart the store starts with satisfies the invariant and shows zero. */
  lemma EmptyCart()
    ensures Valid([]) && TotalPrice([]) == 0 && CartItemCount([]) == 0
  {
  }

  /** With unique ids, a line for `id` at index `k` is the only one. */
  lemma OnlyLineWithId(cart: Cart, k: int, i: int)
    requires UniqueIds(cart) && 0 <= k < |cart| && 0 <= i < |cart|
    requires cart[i].product.id == cart[k].product.id
    ensures i == k
  {
  }

  // ---------------------------------------------------------------------------
  // addToCart

  /** Adding a product whose line exists raises that line's quantity by exactly
      one; the length, the order and every other line stay as they were. */
  lemma AddToCartExisting(cart: Cart, p: Product, k: int)
    requires UniqueIds(cart) && 0 <= k < |cart| && cart[k].product.id == p.id
    ensures AddToCart(cart, p) == cart[k := cart[k].(quantity := cart[k].quantity + 1)]
  {
  }

  /** Adding a product with no line appends one line at the end: the product's
      fields and quantity 1. */
  lemma AddToCartNew(cart: Cart, p: Product)
    requires !HasId(cart, p.id)
    ensures AddToCart(cart, p) == cart + [Line(p, 1)]
    ensures |AddToCart(cart, p)| == |cart| + 1 && AddToCart(cart, p)[|cart|].product == p
  {
  }

  /** `addToCart` keeps the cart invariant. */
  lemma AddToCartValid(cart: Cart, p: Product)
    requires Valid(cart)
    ensures Valid(AddToCart(cart, p))
  {
  }

  /** `addToCart` raises the item count by one, and the total by the price
      carried by the product's line: the existing line's if there is one,
      otherwise the added product's. */
  lemma AddToCartTotals(cart: Cart, p: Product)
    requires UniqueIds(cart)
    ensures CartItemCount(AddToCart(cart, p)) == CartItemCount(cart) + 1
    ensures TotalPrice(AddToCart(cart, p)) == TotalPrice(cart) +
      (match Find(cart, p.id) case Some(l) => l.product.price case None => p.price)
  {
    var r := AddToCart(cart, p);
    TotalPriceIsSum(cart);
    TotalPriceIsSum(r);
    CartItemCountIsSum(cart);
    CartItemCountIsSum(r);
    if k :| 0 <= k < |cart| && cart[k].product.id == p.id {
      AddToCartExisting(cart, p, k);
      var l := cart[k].(quantity := cart[k].quantity + 1);
      SumUpdate(cart, k, l, LineTotal);
      SumUpdate(cart, k, l, Quantity);
      var f := Find(cart, p.id);
      var i :| 0 <= i < |cart| && cart[i] == f.value && f.value.product.id == p.id;
      OnlyLineWithId(cart, k, i);
    } else {
      SumAppend(cart, [Line(p, 1)], LineTotal);
      SumAppend(cart, [Line(p, 1)], Quantity);
    }
  }

  /** Every line's product comes from `catalog`. */
  predicate FromCatalog(cart: Cart, catalog: seq<Product>)
  {
    forall i :: 0 <= i < |cart| ==> cart[i].product in catalog
  }

  /** When the cart's lines and the added product come from a catalog with
      unique ids, the total rises by exactly the added product's price, and the
      lines still come from the catalog. */
  lemma AddToCartFromCatalog(cart: Cart, p: Product, catalog: seq<Product>)
    requires UniqueIds(cart) && UniqueProductIds(catalog)
    requires FromCatalog(cart, catalog) && p in catalog
    ensures TotalPrice(AddToCart(cart, p)) == TotalPrice(cart) + p.price
    ensures CartItemCount(AddToCart(cart, p)) == CartItemCount(cart) + 1
    ensures FromCatalog(AddToCart(cart, p), catalog)
  {
    AddToCartTotals(cart, p);
    var f := Find(cart, p.id);
    if f.Some? {
      var i :| 0 <= i < |cart| && cart[i] == f.value && f.value.product.id == p.id;
      SameIdSameProduct(catalog, cart[i].product, p);
    }
    var r := AddToCart(cart, p);
    forall i | 0 <= i < |r| ensures r[i].product in catalog {
      if i < |cart| {
        assert r[i].product == cart[i].product;
      }
    }
  }

  // ---------------------------------------------------------------------------
  // updateQuantity

  /** Changing the quantity of an id with no line leaves a cart of positive
      lines unchanged. */
  lemma UpdateQuantityAbsent(cart: Cart, id: int, change: int)
    requires AllPositive(cart) && !HasId(cart, id)
    ensures UpdateQuantity(cart, id, change) == cart
  {
    var a := Adjust(cart, id, change);
    assert a == cart;
    KeepAll(a, Positive);
  }

  /** With unique ids, the `.map` of `updateQuantity` touches only the line at `k`. */
  lemma AdjustAt(cart: Cart, id: int, change: int, k: int)
    requires UniqueIds(cart) && 0 <= k < |cart| && cart[k].product.id == id
    ensures Adjust(cart, id, change) == cart[k := cart[k].(quantity := Max(0, cart[k].quantity + change))]
  {
  }

  /** When the new quantity `quantity + change` is positive, the line takes it
      and every other line, the length and the order are unchanged. */
  lemma UpdateQuantityKept(cart: Cart, id: int, change: int, k: int)
    requires Valid(cart) && 0 <= k < |cart| && cart[k].product.id == id
    requires cart[k].quantity + change > 0
    ensures UpdateQuantity(cart, id, change) == cart[k := cart[k].(quantity := cart[k].quantity + change)]
  {
    AdjustAt(cart, id, change, k);
    KeepAll(Adjust(cart, id, change), Positive);
  }

  /** When `quantity + change` is zero or less the line is removed and the
      others keep their order. */
  lemma UpdateQuantityRemoved(cart: Cart, id: int, change: int, k: int)
    requires Valid(cart) && 0 <= k < |cart| && cart[k].product.id == id
    requires cart[k].quantity + change <= 0
    ensures UpdateQuantity(cart, id, change) == cart[..k] + cart[k+1..]
  {
    AdjustAt(cart, id, change, k);
    var a := Adjust(cart, id, change);
    KeepRemovesOne(a, k, Positive);
    assert a[..k] == cart[..k];
    assert a[k+1..] == cart[k+1..];
  }

  /** After any `updateQuantity`, no line has a quantity of zero or less. */
  lemma UpdateQuantityAllPositive(cart: Cart, id: int, change: int)
    ensures AllPositive(UpdateQuantity(cart, id, change))
  {
    var r := UpdateQuantity(cart, id, change);
    forall i | 0 <= i < |r| ensures r[i].quantity >= 1 {
      KeepMembership(Adjust(cart, id, change), Positive, r[i]);
    }
  }

  /** `updateQuantity` never introduces a product: every line of the result
      carries the product of a line of the original. */
  lemma UpdateQuantityFromCatalog(cart: Cart, id: int, change: int, catalog: seq<Product>)
    requires FromCatalog(cart, catalog)
    ensures FromCatalog(UpdateQuantity(cart, id, change), catalog)
  {
    var a := Adjust(cart, id, change);
    var r := UpdateQuantity(cart, id, change);
    forall i | 0 <= i < |r| ensures r[i].product in catalog {
      KeepMembership(a, Positive, r[i]);
      var j :| 0 <= j < |a| && a[j] == r[i];
      assert a[j].product == cart[j].product;
    }
  }

  /** `updateQuantity` keeps the cart invariant. */
  lemma UpdateQuantityValid(cart: Cart, id: int, change: int)
    requires Valid(cart)
    ensures Valid(UpdateQuantity(cart, id, change))
  {
    UpdateQuantityAllPositive(cart, id, change);
    if k :| 0 <= k < |cart| && cart[k].product.id == id {
      if cart[k].quantity + change > 0 {
        UpdateQuantityKept(cart, id, change, k);
      } else {
        UpdateQuantityRemoved(cart, id, change, k);
        var r := cart[..k] + cart[k+1..];
        forall i, j | 0 <= i < j < |r| ensures r[i].product.id != r[j].product.id {
          var i' := if i < k then i else i + 1;
          var j' := if j < k then j else j + 1;
          assert r[i] == cart[i'] && r[j] == cart[j'];
        }
      }
    } else {
      UpdateQuantityAbsent(cart, id, change);
    }
  }

  /** The sums after `updateQuantity` when the matching line at `k` stays. */
  lemma {:induction false} SumsWhenKept(cart: Cart, id: int, change: int, k: int)
    requires Valid(cart) && 0 <= k < |cart| && cart[k].product.id == id
    requires cart[k].quantity + change > 0
    ensures Sum(UpdateQuantity(cart, id, change), Quantity) == Sum(cart, Quantity) + change
    ensures Sum(UpdateQuantity(cart, id, change), LineTotal) == Sum(cart, LineTotal) + cart[k].product.price * change
  {
    UpdateQuantityKept(cart, id, change, k);
    var l := cart[k].(quantity := cart[k].quantity + change);
    SumUpdate(cart, k, l, LineTotal);
    SumUpdate(cart, k, l, Quantity);
    assert LineTotal(l) - LineTotal(cart[k]) == cart[k].product.price * change;
  }

  /** The sums after `updateQuantity` when the matching line at `k` is removed. */
  lemma {:induction false} SumsWhenRemoved(cart: Cart, id: int, change: int, k: int)
    requires Valid(cart) && 0 <= k < |cart| && cart[k].product.id == id
    requires cart[k].quantity + change <= 0
    ensures Sum(UpdateQuantity(cart, id, change), Quantity) == Sum(cart, Quantity) - cart[k].quantity
    ensures Sum(UpdateQuantity(cart, id, change), LineTotal) == Sum(cart, LineTotal) - cart[k].product.price * cart[k].quantity
  {
    UpdateQuantityRemoved(cart, id, change, k);
    SumRemove(cart, k, LineTotal);
    SumRemove(cart, k, Quantity);
  }

  /** For the line at `k`, `updateQuantity` changes the item count by the
      line's change of quantity and the total by its price times that change. */
  lemma {:induction false} UpdateQuantityTotalsAt(cart: Cart, id: int, change: int, k: int)
    requires Valid(cart) && 0 <= k < |cart| && cart[k].product.id == id
    ensures CartItemCount(UpdateQuantity(cart, id, change)) ==
      CartItemCount(cart) + Max(0, cart[k].quantity + change) - cart[k].quantity
    ensures TotalPrice(UpdateQuantity(cart, id, change)) ==
      TotalPrice(cart) + cart[k].product.price * (Max(0, cart[k].quantity + change) - cart[k].quantity)
  {
    var r := UpdateQuantity(cart, id, change);
    TotalPriceIsSum(cart);
    TotalPriceIsSum(r);
    CartItemCountIsSum(cart);
    CartItemCountIsSum(r);
    var q := cart[k].quantity;
    var price := cart[k].product.price;
    if q + change > 0 {
      SumsWhenKept(cart, id, change, k);
      assert Max(0, q + change) - q == change;
    } else {
      SumsWhenRemoved(cart, id, change, k);
      assert Max(0, q + change) - q == -q;
      assert price * -q == -(price * q);
    }
  }

  /** `updateQuantity` on an id with no line leaves both totals as they were. */
  lemma UpdateQuantityTotalsAbsent(cart: Cart, id: int, change: int)
    requires Valid(cart) && !HasId(cart, id)
    ensures CartItemCount(UpdateQuantity(cart, id, change)) == CartItemCount(cart)
    ensures TotalPrice(UpdateQuantity(cart, id, change)) == TotalPrice(cart)
  {
    UpdateQuantityAbsent(cart, id, change);
  }
}
