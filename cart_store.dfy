/**
  The cart state holder: one field with the current cart, replaced wholesale
  by the add and remove handlers (each passes an updater to the state setter),
  and the derived total read from it.
 */
module CartState {
  import opened ShoppingCart

  class CartStore {
    var cart: Cart

    /** The object invariant: no two items share an id. */
    ghost predicate Valid()
      reads this
    {
      UniqueIds(cart)
    }

    /** The cart state starts as its default, the empty list. */
    constructor ()
      ensures cart == DefaultCart && Valid()
    {
      cart := DefaultCart;
    }

    /** AddCartItem: replace the cart by the add updater's result. */
    method AddCartItem(product: Product)
      modifies this
      ensures cart == Add(old(cart), product)
      ensures old(Valid()) ==> Valid()
      ensures HasId(cart, product.id)
      ensures !old(HasId(cart, product.id)) ==> CartTotal() == old(CartTotal()) + product.price
      ensures old(HasId(cart, product.id)) ==> CartTotal() == old(CartTotal())
    {
      if Valid() {
        AddPreservesUnique(cart, product);
      }
      TotalAdd(cart, product);
      cart := Add(cart, product);
    }

    /** RemoveCartItem: replace the cart by the filter updater's result. */
    method RemoveCartItem(product: Product)
      modifies this
      ensures cart == Remove(old(cart), product)
      ensures old(Valid()) ==> Valid()
      ensures !HasId(cart, product.id)
      ensures old(Valid()) ==> forall k :: 0 <= k < |old(cart)| && old(cart)[k].id == product.id ==>
                CartTotal() == old(CartTotal()) - old(cart)[k].price
    {
      ghost var before := cart;
      if Valid() {
        RemovePreservesUnique(cart, product);
        forall k | 0 <= k < |before| && before[k].id == product.id
          ensures Total(Remove(before, product)) == Total(before) - before[k].price
        {
          TotalRemove(before, product, k);
        }
      }
      RemoveNoId(cart, product);
      cart := Remove(cart, product);
    }

    /** The total selector, evaluated on the current cart: the sum of its prices. */
    function CartTotal(): (t: int)
      reads this
      ensures t == PriceSum(cart)
    {
      Total(cart)
    }
  }

  /** The basket scenario driven through the store. */
  method BasketSession(shirt: Product, hat: Product) returns (totals: seq<int>)
    requires shirt.id == 1 && shirt.price == 20
    requires hat.id == 2 && hat.price == 10
    ensures totals == [20, 30, 10]
  {
    var store := new CartStore();
    BasketScenario(shirt, hat);
    store.AddCartItem(shirt);
    var t1 := store.CartTotal();
    store.AddCartItem(hat);
    var t2 := store.CartTotal();
    store.RemoveCartItem(shirt);
    var t3 := store.CartTotal();
    totals := [t1, t2, t3];
  }
}
