/** The storefront session: the cart starts empty and each click replaces it
    wholesale with the result of one reducer. */
module Storefront {
  import opened Catalog
  import opened ProductFilter
  import opened ShoppingCart
  import opened Seqs

  /** A click that changes the cart: "Add to cart" on a product card, or a
      plus/minus control on a cart line. */
  datatype Event = Add(product: Product) | ChangeQuantity(id: int, change: int)

  function Step(cart: Cart, e: Event): Cart
  {
    match e
    case Add(p) => AddToCart(cart, p)
    case ChangeQuantity(id, change) => UpdateQuantity(cart, id, change)
  }

  /** The cart after handling `events` in order. */
  function Run(cart: Cart, events: seq<Event>): Cart
    decreases |events|
  {
    if events == [] then cart else Run(Step(cart, events[0]), events[1..])
  }

  /** Every event keeps the cart invariant. */
  lemma StepKeepsValid(cart: Cart, e: Event)
    requires Valid(cart)
    ensures Valid(Step(cart, e))
  {
    match e
    case Add(p) => AddToCartValid(cart, p);
    case ChangeQuantity(id, change) => UpdateQuantityValid(cart, id, change);
  }

  /** Any sequence of events keeps the cart invariant. */
  lemma {:induction false} RunKeepsValid(cart: Cart, events: seq<Event>)
    requires Valid(cart)
    ensures Valid(Run(cart, events))
    decreases |events|
  {
    if events != [] {
      StepKeepsValid(cart, events[0]);
      RunKeepsValid(Step(cart, events[0]), events[1..]);
    }
  }

  /** From the empty cart, whatever the clicks, ids stay unique and no line
      ever has a quantity of zero or less. */
  lemma SessionCartValid(events: seq<Event>)
    ensures UniqueIds(Run([], events))
    ensures forall i :: 0 <= i < |Run([], events)| ==> Run([], events)[i].quantity >= 1
  {
    EmptyCart();
    RunKeepsValid([], events);
  }

  /** Every "Add to cart" click is on a product of the seed catalog. */
  predicate AddsFromCatalog(events: seq<Event>)
  {
    forall i :: 0 <= i < |events| && events[i].Add? ==> events[i].product in InitialProducts
  }

  /** One event keeps every line's product in the seed catalog, provided an
      added product is from it. */
  lemma StepFromCatalog(cart: Cart, e: Event)
    requires Valid(cart) && FromCatalog(cart, InitialProducts)
    requires e.Add? ==> e.product in InitialProducts
    ensures FromCatalog(Step(cart, e), InitialProducts)
  {
    InitialProductsWellFormed();
    match e
    case Add(p) => AddToCartFromCatalog(cart, p, InitialProducts);
    case ChangeQuantity(id, change) => UpdateQuantityFromCatalog(cart, id, change, InitialProducts);
  }

  /** When every added product comes from the seed catalog, so does every line. */
  lemma {:induction false} RunFromCatalog(cart: Cart, events: seq<Event>)
    requires Valid(cart) && FromCatalog(cart, InitialProducts) && AddsFromCatalog(events)
    ensures FromCatalog(Run(cart, events), InitialProducts)
    decreases |events|
  {
    if events != [] {
      StepFromCatalog(cart, events[0]);
      StepKeepsValid(cart, events[0]);
      assert AddsFromCatalog(events[1..]) by {
        forall i | 0 <= i < |events[1..]| && events[1..][i].Add? ensures events[1..][i].product in InitialProducts {
          assert events[1..][i] == events[i + 1];
        }
      }
      RunFromCatalog(Step(cart, events[0]), events[1..]);
    }
  }

  /** After any session whose additions come from the seed catalog, one more
      "Add to cart" on a catalog product raises the total by exactly its price
      and the item count by one. */
  lemma SessionAddRaisesTotal(events: seq<Event>, p: Product)
    requires AddsFromCatalog(events) && p in InitialProducts
    ensures TotalPrice(AddToCart(Run([], events), p)) == TotalPrice(Run([], events)) + p.price
    ensures CartItemCount(AddToCart(Run([], events), p)) == CartItemCount(Run([], events)) + 1
  {
    EmptyCart();
    RunKeepsValid([], events);
    RunFromCatalog([], events);
    InitialProductsWellFormed();
    AddToCartFromCatalog(Run([], events), p, InitialProducts);
  }

  /** Adding the same product twice gives one line of quantity 2, not two lines. */
  lemma AddTwiceGivesOneLine(p: Product)
    ensures AddToCart([], p) == [Line(p, 1)]
    ensures AddToCart(AddToCart([], p), p) == [Line(p, 2)]
  {
  }

  /** One "The Midnight Library" and two "Atomic Habits": 3 items, 46.97. */
  lemma TwoLineTotals()
    ensures TotalPrice([Line(InitialProducts[0], 1), Line(InitialProducts[1], 2)]) == 4697
    ensures CartItemCount([Line(InitialProducts[0], 1), Line(InitialProducts[1], 2)]) == 3
  {
    var cart := [Line(InitialProducts[0], 1), Line(InitialProducts[1], 2)];
    TotalPriceIsSum(cart);
    CartItemCountIsSum(cart);
    assert cart[1..][1..] == [];
    assert Sum(cart[1..], LineTotal) == 2998;
    assert Sum(cart[1..], Quantity) == 2;
  }

  /** Select "Fiction", add both books shown, then press minus twice on the
      first: the total is the sum of the two prices; the first press removes
      the line, the second changes nothing; the item count drops from 2 to 1. */
  lemma FictionScenario()
    ensures var shown := Visible("Fiction", "");
      var full := AddToCart(AddToCart([], shown[0]), shown[1]);
      var once := UpdateQuantity(full, shown[0].id, -1);
      var twice := UpdateQuantity(once, shown[0].id, -1);
      && full == [Line(shown[0], 1), Line(shown[1], 1)]
      && TotalPrice(full) == shown[0].price + shown[1].price == 3298
      && CartItemCount(full) == 2
      && once == [Line(shown[1], 1)]
      && twice == once
      && CartItemCount(twice) == 1
  {
    FictionShowsBooksOneAndFour();
    var shown := Visible("Fiction", "");
    var a, b := shown[0], shown[1];
    var one := AddToCart([], a);
    AddToCartNew([], a);
    assert !HasId(one, b.id);
    AddToCartNew(one, b);
    var full := AddToCart(one, b);
    assert full == [Line(a, 1), Line(b, 1)];
    AddToCartTotals(one, b);
    AddToCartTotals([], a);
    EmptyCart();
    UpdateQuantityRemoved(full, a.id, -1, 0);
    var once := UpdateQuantity(full, a.id, -1);
    assert once == [Line(b, 1)];
    UpdateQuantityAbsent(once, a.id, -1);
    TotalPriceIsSum(once);
    CartItemCountIsSum(once);
  }
}
