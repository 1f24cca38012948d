# Local bookstore storefront: catalog filter and cart reducers

The storefront is a single React component that shows a fixed catalog of six
books, narrows it by a category chip and a search box, and keeps an in-memory
shopping cart. This project models its business logic as pure Dafny functions
and proves properties of them:

- **Catalog** (`catalog.dfy`): the `Product` record (id, name, price in
  integer cents, description, category), the seed catalog `InitialProducts`
  and the `Categories` chip list.
- **Filter** (`filter.dfy`): `VisibleProducts` applies the category filter
  (skipped for the "All" sentinel), then the search filter (skipped for an
  empty term). The search filter keeps a product when the lower-cased term
  occurs in the lower-cased name or description. `Visible` applies both to
  the seed catalog.
- **Cart** (`cart.dfy`): a line item is a product plus a quantity, and a
  cart is a sequence of lines. `AddToCart` and `UpdateQuantity` are the two
  reducers. `TotalPrice` and `CartItemCount` are the two `reduce` folds.
- **Session** (`session.dfy`): the cart starts empty. Each click produces an
  `Event`, and the reducer for that event replaces the cart. `Run` folds a
  sequence of events.
- **Helpers** (`seqs.dfy`, `text.dfy`):
  - `Keep` is `Array.prototype.filter`.
  - `FoldLeft` is `reduce` with an initial value.
  - `Sum` is the reference sum the folds are proved to compute.
  - `Lower` is `toLowerCase`.
  - `Contains` is `String.prototype.includes`.

The model follows the code in two places where a reader might expect
something else:

- `addToCart`'s `.map` increments every line that carries the product's id,
  not just the first one. The cart invariant (unique ids) makes this exactly
  one line.
- `updateQuantity`'s trailing `.filter` drops every line whose quantity is
  not positive, not only the adjusted one. So calling it with an absent id is
  a no-op only when every line already has quantity at least 1, and
  `UpdateQuantityAbsent` requires exactly that.

When the cart already has a line for the product, `addToCart` raises the
total by the price stored in that line, not by the clicked product's price.
The two are equal when both come from the seed catalog, because its ids are
unique (`AddToCartFromCatalog`, `SessionAddRaisesTotal`).

## Model

| member | source | states |
|---|---|---|
| `Text.LowerChars` | ecomm/src/App.jsx:79-80 | lower-casing keeps the length, maps exactly 'A'..'Z' to 'a'..'z' and leaves no upper-case ASCII letter |
| `Text.LowerIdempotent` | ecomm/src/App.jsx:79-80 | lower-casing an already lower-cased string changes nothing |
| `Text.LowerEmpty` | ecomm/src/App.jsx:77-80 | a term lower-cases to the empty string exactly when it is empty, so lower-casing never switches the search filter on or off |
| `Text.ContainsIffOccurs` | ecomm/src/App.jsx:79-80 | `includes` holds exactly when the needle occurs at some position of the haystack (both directions) |
| `Text.ContainsWitness` | ecomm/src/App.jsx:79-80 | a contained needle occurs at a concrete position |
| `Text.OccursContains` | ecomm/src/App.jsx:79-80 | a needle occurring at some position is contained |
| `Catalog.InitialProductsWellFormed` | ecomm/src/App.jsx:5-57 | the seed catalog has six products with ids 1..6 in order, unique ids, positive prices, and categories that are chips other than "All" |
| `Catalog.SameIdSameProduct` | ecomm/src/App.jsx:5-54 | in a catalog with unique ids, two products with the same id are the same product |
| `ProductFilter.VisibleIsOnePassFilter` | ecomm/src/App.jsx:68-85 | the two chained filters are one filter of the catalog by a per-product test (category test unless "All", text test unless the term is empty) |
| `ProductFilter.VisibleIsSubsequence` | ecomm/src/App.jsx:69-84 | the visible list is a subsequence of the catalog, in catalog order |
| `ProductFilter.VisibleMembership` | ecomm/src/App.jsx:72-82 | a product is visible iff it is in the catalog and passes both enabled tests |
| `ProductFilter.CategoryFilterExact` | ecomm/src/App.jsx:72-74 | for a category other than "All" and an empty term, a product is visible iff it is a catalog product of that category |
| `ProductFilter.NoFilterShowsCatalog` | ecomm/src/App.jsx:69-82 | with "All" and an empty term the visible list is the whole catalog |
| `ProductFilter.SearchFilterExact` | ecomm/src/App.jsx:77-82 | for a non-empty term, a product is visible iff it is in the catalog, passes the category test, and the lower-cased term occurs at some position of its lower-cased name or description |
| `ProductFilter.SearchIgnoresCase` | ecomm/src/App.jsx:78-81 | two terms that lower-case alike show the same products |
| `ProductFilter.FictionShowsBooksOneAndFour` | ecomm/src/App.jsx:5-74 | selecting "Fiction" with no term shows exactly the books with ids 1 and 4, in that order |
| `ProductFilter.UpperCaseSearchFindsAtomicHabits` | ecomm/src/App.jsx:77-82 | the upper-case term "HABITS" finds "Atomic Habits" |
| `ShoppingCart.Find` | ecomm/src/App.jsx:89 | `find` returns nothing iff no line has the id; otherwise it returns the first line with that id |
| `ShoppingCart.TotalPriceIsSum` | ecomm/src/App.jsx:114 | the `reduce` total is the sum of price times quantity over the lines |
| `ShoppingCart.CartItemCountIsSum` | ecomm/src/App.jsx:117 | the `reduce` count is the sum of the quantities |
| `ShoppingCart.EmptyCart` | ecomm/src/App.jsx:61 | the initial empty cart satisfies the invariant and has total 0 and count 0 |
| `ShoppingCart.OnlyLineWithId` | ecomm/src/App.jsx:88-111 | with unique ids, a line for a given id is the only one |
| `ShoppingCart.AddToCartExisting` | ecomm/src/App.jsx:89-94 | when a line for the product exists, exactly its quantity rises by 1; length, order and all other lines are unchanged |
| `ShoppingCart.AddToCartNew` | ecomm/src/App.jsx:95-96 | when no line exists, exactly one line is appended at the end, with the product's fields and quantity 1 |
| `ShoppingCart.AddToCartValid` | ecomm/src/App.jsx:88-98 | `addToCart` preserves "ids unique and every quantity at least 1" |
| `ShoppingCart.AddToCartTotals` | ecomm/src/App.jsx:88-117 | `addToCart` raises the count by 1 and the total by the price of the product's line: the existing line's, or the new product's |
| `ShoppingCart.AddToCartFromCatalog` | ecomm/src/App.jsx:88-98 | for a cart and a product drawn from a catalog with unique ids, the total rises by exactly the product's price, the count by 1, and the lines stay drawn from the catalog |
| `ShoppingCart.UpdateQuantityAbsent` | ecomm/src/App.jsx:101-111 | an id with no line leaves a cart whose quantities are all at least 1 unchanged |
| `ShoppingCart.AdjustAt` | ecomm/src/App.jsx:102-107 | with unique ids the `.map` changes only the matching line, to quantity `max(0, q + change)` |
| `ShoppingCart.UpdateQuantityKept` | ecomm/src/App.jsx:101-111 | if `q + change > 0` the matching line gets quantity `q + change`; length, order and other lines are unchanged |
| `ShoppingCart.UpdateQuantityRemoved` | ecomm/src/App.jsx:101-111 | if `q + change <= 0` the matching line is removed and the remaining lines keep their order |
| `ShoppingCart.UpdateQuantityAllPositive` | ecomm/src/App.jsx:108 | after any `updateQuantity`, whatever the cart, every line has quantity at least 1 |
| `ShoppingCart.UpdateQuantityFromCatalog` | ecomm/src/App.jsx:101-111 | `updateQuantity` introduces no product that was not already in the catalog |
| `ShoppingCart.UpdateQuantityValid` | ecomm/src/App.jsx:101-111 | `updateQuantity` preserves "ids unique and every quantity at least 1" |
| `ShoppingCart.SumsWhenKept` | ecomm/src/App.jsx:101-117 | when the line stays, the sum of quantities changes by `change` and the sum of line totals by price times `change` |
| `ShoppingCart.SumsWhenRemoved` | ecomm/src/App.jsx:101-117 | when the line is removed, its quantity and its line total leave the sums |
| `ShoppingCart.UpdateQuantityTotalsAt` | ecomm/src/App.jsx:101-117 | the count changes by `max(0, q + change) - q` and the total by the line's price times that change |
| `ShoppingCart.UpdateQuantityTotalsAbsent` | ecomm/src/App.jsx:101-117 | an absent id leaves count and total unchanged |
| `Storefront.StepKeepsValid` | ecomm/src/App.jsx:88-111 | each cart event preserves the cart invariant |
| `Storefront.RunKeepsValid` | ecomm/src/App.jsx:88-111 | any sequence of cart events preserves the cart invariant |
| `Storefront.SessionCartValid` | ecomm/src/App.jsx:61-111 | from the empty cart, after any clicks, ids are unique and no line has quantity 0 or less |
| `Storefront.StepFromCatalog` | ecomm/src/App.jsx:88-111 | one event keeps every line's product in the seed catalog when the added product is from it |
| `Storefront.RunFromCatalog` | ecomm/src/App.jsx:88-111 | a session that only adds catalog products only has catalog products in its lines |
| `Storefront.SessionAddRaisesTotal` | ecomm/src/App.jsx:88-117 | after such a session, adding a catalog product raises the total by exactly its price and the count by 1 |
| `Storefront.AddTwiceGivesOneLine` | ecomm/src/App.jsx:88-98 | adding a product once gives one line of quantity 1; adding it again gives one line of quantity 2, not two lines |
| `Storefront.TwoLineTotals` | ecomm/src/App.jsx:114-117 | one copy of book 1 and two of book 2 give total 4697 cents and count 3 |
| `Storefront.FictionScenario` | ecomm/src/App.jsx:68-117 | filter "Fiction", add both books shown: total 3298 cents and count 2; a first minus on book 1 removes its line; a second minus changes nothing; the count ends at 1 |

## Left out

- JSX rendering and layout (header, navigation, product grid, the "No products found" message, cart panel, footer): presentation only.
- The `isCartOpen` and `isMobileMenuOpen` toggles: UI booleans with no business rule.
- React's `useState`/`useEffect` scheduling and the `setProducts`/`setCart` calls. The reducers are functions from the old cart to the new one, and the filter is a function of the selected category and the search term. The `products` state is whatever `Visible` returns.
- Product images: the `image` URL field is presentation-only and is not part of `Product`.
- Floating-point prices and the `toFixed(2)` display. Prices are integer cents (16.99 is 1699), so totals are exact.
- Unicode case mapping: `Lower` folds only ASCII 'A'..'Z'. It is applied the same way to the term and to the fields.
- The checkout button (a stub), the lucide icons, and `new Date()` in the footer: foreign calls or no-ops.
- `ChangeQuantity` events take any integer change. The buttons only pass +1 and -1, and every lemma holds for any integer.
