# Shopping cart of a React/Recoil storefront, modelled in Dafny

The storefront keeps a client-side shopping cart in a Recoil atom
(`cartState`, default `[]`) and derives the basket total from it with a
selector (`cartTotalState`). Two handlers change the cart, each by handing an
updater to `setCart`:

- `AddCartItem(product)`: if `cart.find(item => item.id === product.id)`
  finds an item, the cart is kept as it is (the instance already in the cart
  stays); otherwise the product is appended (`[...cart, product]`).
- `RemoveCartItem(product)`: `cart.filter(item => item.id !== product.id)`.
- The total is `cart.reduce((prev, curr) => prev + curr.price, 0)`.

`cart.dfy` (module `ShoppingCart`) models these as pure functions over
`Cart = seq<Product>`: `Find`, `Add`, `Remove`, the left fold `SumFrom` and
`Total`, plus an independent right-to-left `PriceSum` as the reference for the
total, and `Action`/`Run` for an arbitrary sequence of button presses.
`cart_store.dfy` (module `CartState`) holds the one piece of state: a
`CartStore` class whose `cart` field plays the atom, whose methods replace it
through the updaters as `setCart` does, and whose `CartTotal` is the selector
read on the current cart.

Prices are integers (cents, say). Product ids are integers compared with `==`,
which is what `===` does on the catalog's numeric ids.

Two consequences of the code worth stating:

- Remove filters out every item with the product's id, not just one. On a
  cart with unique ids (the invariant proved here) that is at most one item.
- Adding a product whose id was not already in the cart and then removing it
  restores the cart exactly, order included (`RemoveAddInverse`), because Add
  appends at the end and the filter keeps the order. When the id was already
  present, Add changes nothing and Remove then drops the existing item, so the
  cart is not restored.

## Model

| member | source | states |
|---|---|---|
| ShoppingCart.Find | src/App.js:102 | `find` yields an item exactly when some item of the cart has the id, and the item it yields is in the cart and has that id |
| ShoppingCart.FindFirst | src/App.js:102 | `find` yields the first item carrying the id |
| ShoppingCart.Add | src/App.js:100-104 | the updater's result holds the product's id, keeps the old cart as its prefix and grows by at most one item; which of the two cases applies is specified by AddPresent and AddAbsent |
| ShoppingCart.AddPresent | src/App.js:100-104 | if some item already has the product's id, Add returns the cart exactly unchanged |
| ShoppingCart.AddAbsent | src/App.js:100-104 | if no item has the product's id, Add grows the cart by one, keeps the earlier items untouched and puts the product last |
| ShoppingCart.AddPreservesUnique | src/App.js:102 | Add keeps the "no two items share an id" invariant |
| ShoppingCart.AddIdempotent | src/App.js:102 | adding a product twice gives the same cart as adding it once |
| ShoppingCart.Remove | src/App.js:107-109 | the filtered cart is no longer than the original and contains exactly the original's items whose id differs from the product's |
| ShoppingCart.RemoveNoId | src/App.js:108 | after Remove no item with the product's id is left |
| ShoppingCart.RemoveIsSubsequence | src/App.js:108 | the survivors of Remove are a subsequence of the original cart (same relative order) |
| ShoppingCart.RemoveAbsent | src/App.js:108 | removing an id not in the cart leaves the cart unchanged |
| ShoppingCart.RemoveConcat | src/App.js:108 | filtering a concatenation is the concatenation of the filtered parts |
| ShoppingCart.RemovePreservesUnique | src/App.js:108 | Remove keeps the "no two items share an id" invariant |
| ShoppingCart.RemoveAddInverse | src/App.js:100-109 | for a product whose id is absent, Remove after Add restores the cart exactly |
| ShoppingCart.Apply | src/App.js:100-109 | one button press: after an add the product's id is present, after a remove it is absent, and unique ids stay unique |
| ShoppingCart.Run | src/App.js:100-109 | any sequence of add/remove presses applied to a unique-id cart leaves the ids unique, and the last press decides whether its product's id is in the final cart |
| ShoppingCart.ReachableUnique | src/App.js:6-9 | every cart reachable from the empty default cart by Add/Remove updates has unique ids |
| ShoppingCart.SumFrom | src/App.js:17 | the reduce fold from any accumulator equals the accumulator plus the independently defined sum of the prices |
| ShoppingCart.Total | src/App.js:12-23 | the selector's total (the fold from 0) equals the sum of `price` over the cart, and is 0 for the empty cart |
| ShoppingCart.PriceSumConcat | src/App.js:17 | the price sum of two carts joined is the sum of their price sums, the step that makes appending a product raise the total by its price |
| ShoppingCart.TotalAdd | src/App.js:17 | adding a new product raises the total by its price; adding a present one leaves the total as it was |
| ShoppingCart.PriceSumRemove | src/App.js:108 | on a unique-id cart, removing the item with a given id lowers the price sum by that item's price |
| ShoppingCart.TotalRemove | src/App.js:17 | on a unique-id cart, removing an item lowers the total by that item's price |
| ShoppingCart.BasketScenario | src/App.js:100-109 | shirt (id 1, price 20) then hat (id 2, price 10) gives carts [shirt] and [shirt, hat] with totals 20 and 30; removing the shirt leaves [hat] with total 10 |
| CartState.CartStore.constructor | src/App.js:6-9 | the cart starts as the empty default and satisfies the unique-id invariant |
| CartState.CartStore.AddCartItem | src/App.js:100-104 | the cart field is replaced by Add of the old cart; the unique-id invariant is kept; the product's id is then present; the total rises by the product's price when its id was new and is unchanged otherwise |
| CartState.CartStore.RemoveCartItem | src/App.js:107-109 | the cart field is replaced by Remove of the old cart; the unique-id invariant is kept; the product's id is then absent; on a valid cart the total drops by the price of the item that had the id |
| CartState.CartStore.CartTotal | src/App.js:12-23 | the selector's total on the current cart is the sum of its prices |
| CartState.BasketSession | src/App.js:94-109 | driving the store through add shirt, add hat, remove shirt reads totals 20, 30 and 10 |

## Left out

- The product catalog query (src/App.js:26-37): an asynchronous HTTP fetch through axios that returns `[]` on error. Network I/O through a foreign library.
- The `FakeProducts` and `Basket` views and the JSX of `App` (src/App.js:40-90, 111-126), including the "No Items", item-count and total display: rendering only.
- The Recoil runtime: atom and selector registration by key, `useRecoilState`, subscription and recomputation (src/App.js:6-23, 94-97), and `React.Suspense`. The total is modelled as a pure function of the cart, read on demand.
- The `{ total }` wrapper object the selector returns (src/App.js:19-21): the model returns the number itself.
- `setTotalFromSelector` passed to `Basket` as `setCart` (src/App.js:97, 120): `Basket` never calls it, so it has no behaviour.
- Floating-point price arithmetic (src/App.js:17): prices are integers, so rounding of JS number addition is not modelled.
- Product fields other than `id` and `price` are carried along but play no part in any operation.
