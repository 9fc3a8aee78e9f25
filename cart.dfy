/**
  The shopping cart of the storefront: an ordered sequence of products, kept
  unique by product id, with an "add" updater that ignores products already
  present, a "remove" updater that filters out every item with the product's
  id, and a derived total that sums the item prices with a left fold.
  Prices are integers (for instance cents).
 */
module ShoppingCart {

  datatype Option<T> = None | Some(value: T)

  /** A catalog product as the remote catalog delivers it. */
  datatype Product = Product(
    id: int,
    title: string,
    price: int,
    description: string,
    category: string,
    image: string
  )

  type Cart = seq<Product>

  /** The cart state's default value: the empty list. */
  const DefaultCart: Cart := []

  /** Some item of the cart carries this id. */
  ghost predicate HasId(c: Cart, id: int) {
    exists k :: 0 <= k < |c| && c[k].id == id
  }

  /** No two items of the cart share an id. */
  ghost predicate UniqueIds(c: Cart) {
    forall i, j :: 0 <= i < j < |c| ==> c[i].id != c[j].id
  }

  /** s is obtained from t by deleting some of its elements, keeping the order of the rest. */
  ghost predicate IsSubsequence(s: Cart, t: Cart)
    decreases |t|
  {
    if s == [] then true
    else if t == [] then false
    else (s[0] == t[0] && IsSubsequence(s[1..], t[1..])) || IsSubsequence(s, t[1..])
  }

  // ---------------------------------------------------------------------------
  // The operations
  // ---------------------------------------------------------------------------

  /** `cart.find(item => item.id === id)`: the first item with that id, if any. */
  function Find(c: Cart, id: int): (r: Option<Product>)
    ensures r.Some? <==> HasId(c, id)
    ensures r.Some? ==> r.value in c && r.value.id == id
  {
    if c == [] then None
    else if c[0].id == id then Some(c[0])
    else
      var r := Find(c[1..], id);
      assert HasId(c[1..], id) ==> HasId(c, id) by {
        if HasId(c[1..], id) {
          var k :| 0 <= k < |c[1..]| && c[1..][k].id == id;
          assert c[k + 1].id == id;
        }
      }
      assert HasId(c, id) ==> HasId(c[1..], id) by {
        if HasId(c, id) {
          var k :| 0 <= k < |c| && c[k].id == id;
          assert k != 0 && c[1..][k - 1].id == id;
        }
      }
      r
  }

  /**
    The AddCartItem updater: keep the cart if the product's id is found, else
    append the product. The old cart is always a prefix of the result, which
    grows by at most one item and then holds the product's id; AddPresent and
    AddAbsent below say exactly which case applies.
   */
  function Add(c: Cart, product: Product): (r: Cart)
    ensures HasId(r, product.id)
    ensures |c| <= |r| <= |c| + 1 && r[..|c|] == c
  {
    if Find(c, product.id).Some? then c
    else
      assert (c + [product])[|c|] == product;
      c + [product]
  }

  /** The RemoveCartItem updater: `cart.filter(item => item.id !== product.id)`. */
  function Remove(c: Cart, product: Product): (r: Cart)
    ensures |r| <= |c|
    ensures forall x :: x in r <==> x in c && x.id != product.id
  {
    if c == [] then []
    else if c[0].id != product.id then [c[0]] + Remove(c[1..], product)
    else Remove(c[1..], product)
  }

  /**
    `cart.reduce((prev, curr) => prev + curr.price, acc)`: a left fold over the
    prices, which comes to the accumulator plus the sum of the prices.
   */
  function SumFrom(acc: int, c: Cart): (r: int)
    ensures r == acc + PriceSum(c)
    decreases |c|
  {
    if c == [] then acc else SumFrom(acc + c[0].price, c[1..])
  }

  /** The cart total selector: the fold started at 0, so the sum of the prices and 0 for the empty cart. */
  function Total(c: Cart): (r: int)
    ensures r == PriceSum(c)
    ensures c == [] ==> r == 0
  {
    SumFrom(0, c)
  }

  /** Independent reference definition of the total: the sum of the prices, right to left. */
  ghost function PriceSum(c: Cart): int {
    if c == [] then 0 else c[0].price + PriceSum(c[1..])
  }

  /** One update the user can trigger: the "Add" or the "Remove" button of a product. */
  datatype Action = AddItem(product: Product) | RemoveItem(product: Product)

  /** One updater applied: an added id is present, a removed id is absent, unique ids stay unique. */
  function Apply(c: Cart, a: Action): (r: Cart)
    ensures a.AddItem? ==> HasId(r, a.product.id)
    ensures a.RemoveItem? ==> !HasId(r, a.product.id)
    ensures UniqueIds(c) ==> UniqueIds(r)
  {
    match a
    case AddItem(p) => Add(c, p)
    case RemoveItem(p) =>
      assert UniqueIds(c) ==> UniqueIds(Remove(c, p)) by {
        if UniqueIds(c) { RemovePreservesUnique(c, p); }
      }
      Remove(c, p)
  }

  /**
    The cart after the updaters of a sequence of actions have been applied in
    order. From a cart with unique ids the ids stay unique, and the last action
    decides whether its product's id is in the final cart.
   */
  function Run(c: Cart, actions: seq<Action>): (r: Cart)
    ensures UniqueIds(c) ==> UniqueIds(r)
    ensures actions != [] && actions[|actions| - 1].AddItem? ==> HasId(r, actions[|actions| - 1].product.id)
    ensures actions != [] && actions[|actions| - 1].RemoveItem? ==> !HasId(r, actions[|actions| - 1].product.id)
    decreases |actions|
  {
    if actions == [] then c
    else
      assert |actions| > 1 ==> actions[1..][|actions[1..]| - 1] == actions[|actions| - 1];
      Run(Apply(c, actions[0]), actions[1..])
  }

  // ---------------------------------------------------------------------------
  // Find
  // ---------------------------------------------------------------------------

  /** find returns the FIRST item with the id. */
  lemma {:induction false} FindFirst(c: Cart, id: int, k: nat)
    requires k < |c| && c[k].id == id
    requires forall j :: 0 <= j < k ==> c[j].id != id
    ensures Find(c, id) == Some(c[k])
  {
    if k > 0 {
      FindFirst(c[1..], id, k - 1);
    }
  }

  // ---------------------------------------------------------------------------
  // Add
  // ---------------------------------------------------------------------------

  /** Adding a product whose id is already in the cart returns the cart exactly unchanged. */
  lemma AddPresent(c: Cart, p: Product)
    requires HasId(c, p.id)
    ensures Add(c, p) == c
  {
  }

  /** Adding a product whose id is absent appends it at the end, leaving earlier items untouched. */
  lemma AddAbsent(c: Cart, p: Product)
    requires !HasId(c, p.id)
    ensures |Add(c, p)| == |c| + 1
    ensures Add(c, p)[..|c|] == c
    ensures Add(c, p)[|c|] == p
  {
  }

  /** Add keeps the ids unique. */
  lemma AddPreservesUnique(c: Cart, p: Product)
    requires UniqueIds(c)
    ensures UniqueIds(Add(c, p))
  {
  }

  /** Adding the same product twice is the same as adding it once. */
  lemma AddIdempotent(c: Cart, p: Product)
    ensures Add(Add(c, p), p) == Add(c, p)
  {
  }

  // ---------------------------------------------------------------------------
  // Remove
  // ---------------------------------------------------------------------------

  /** After Remove, no item with the product's id is left. */
  lemma RemoveNoId(c: Cart, p: Product)
    ensures !HasId(Remove(c, p), p.id)
  {
  }

  /** Remove keeps the surviving items in their original relative order. */
  lemma {:induction false} RemoveIsSubsequence(c: Cart, p: Product)
    ensures IsSubsequence(Remove(c, p), c)
  {
    if c != [] {
      RemoveIsSubsequence(c[1..], p);
      var r := Remove(c, p);
      if c[0].id != p.id {
        assert r[0] == c[0] && r[1..] == Remove(c[1..], p);
      }
    }
  }

  /** Removing an id that is not in the cart leaves the cart unchanged. */
  lemma {:induction false} RemoveAbsent(c: Cart, p: Product)
    requires !HasId(c, p.id)
    ensures Remove(c, p) == c
  {
    if c != [] {
      forall k | 0 <= k < |c[1..]| ensures c[1..][k].id != p.id {
        assert c[1..][k] == c[k + 1];
      }
      assert c[0].id != p.id;
      RemoveAbsent(c[1..], p);
      assert c == [c[0]] + c[1..];
    }
  }

  /** Remove distributes over concatenation. */
  lemma {:induction false} RemoveConcat(a: Cart, b: Cart, p: Product)
    ensures Remove(a + b, p) == Remove(a, p) + Remove(b, p)
  {
    if a != [] {
      assert (a + b)[0] == a[0] && (a + b)[1..] == a[1..] + b;
      RemoveConcat(a[1..], b, p);
    } else {
      assert a + b == b;
    }
  }

  /** Remove keeps the ids unique. */
  lemma RemovePreservesUnique(c: Cart, p: Product)
    requires UniqueIds(c)
    ensures UniqueIds(Remove(c, p))
  {
  }

  // ---------------------------------------------------------------------------
  // Add and Remove together
  // ---------------------------------------------------------------------------

  /** Adding a new product and then removing it restores the cart exactly. */
  lemma RemoveAddInverse(c: Cart, p: Product)
    requires !HasId(c, p.id)
    ensures Remove(Add(c, p), p) == c
  {
    RemoveConcat(c, [p], p);
    RemoveAbsent(c, p);
  }

  /** Every cart reachable from the empty default cart has unique ids. */
  lemma ReachableUnique(actions: seq<Action>)
    ensures UniqueIds(Run(DefaultCart, actions))
  {
  }

  // ---------------------------------------------------------------------------
  // Total
  // ---------------------------------------------------------------------------

  lemma {:induction false} PriceSumConcat(a: Cart, b: Cart)
    ensures PriceSum(a + b) == PriceSum(a) + PriceSum(b)
  {
    if a != [] {
      assert (a + b)[0] == a[0] && (a + b)[1..] == a[1..] + b;
      PriceSumConcat(a[1..], b);
    } else {
      assert a + b == b;
    }
  }

  /** Adding a new product raises the total by its price; re-adding a present one changes nothing. */
  lemma TotalAdd(c: Cart, p: Product)
    ensures !HasId(c, p.id) ==> Total(Add(c, p)) == Total(c) + p.price
    ensures HasId(c, p.id) ==> Total(Add(c, p)) == Total(c)
  {
    PriceSumConcat(c, [p]);
  }

  lemma {:induction false} PriceSumRemove(c: Cart, p: Product, k: nat)
    requires UniqueIds(c) && k < |c| && c[k].id == p.id
    ensures PriceSum(Remove(c, p)) == PriceSum(c) - c[k].price
  {
    assert UniqueIds(c[1..]) by {
      forall i, j | 0 <= i < j < |c[1..]| ensures c[1..][i].id != c[1..][j].id {
        assert c[1..][i] == c[i + 1] && c[1..][j] == c[j + 1];
      }
    }
    if k == 0 {
      forall m | 0 <= m < |c[1..]| ensures c[1..][m].id != p.id {
        assert c[1..][m] == c[m + 1];
      }
      RemoveAbsent(c[1..], p);
    } else {
      assert c[0].id != c[k].id;
      assert c[1..][k - 1] == c[k];
      PriceSumRemove(c[1..], p, k - 1);
    }
  }

  /** On a cart with unique ids, removing an item lowers the total by that item's price. */
  lemma TotalRemove(c: Cart, p: Product, k: nat)
    requires UniqueIds(c) && k < |c| && c[k].id == p.id
    ensures Total(Remove(c, p)) == Total(c) - c[k].price
  {
    PriceSumRemove(c, p, k);
  }

  // ---------------------------------------------------------------------------
  // The basket scenario: a shirt at 20 and a hat at 10
  // ---------------------------------------------------------------------------

  lemma BasketScenario(shirt: Product, hat: Product)
    requires shirt.id == 1 && shirt.price == 20
    requires hat.id == 2 && hat.price == 10
    ensures Add(DefaultCart, shirt) == [shirt] && Total([shirt]) == 20
    ensures Add([shirt], hat) == [shirt, hat] && Total([shirt, hat]) == 30
    ensures Remove([shirt, hat], shirt) == [hat] && Total([hat]) == 10
  {
    assert [shirt, hat][1..] == [hat];
    assert SumFrom(0, [shirt]) == SumFrom(20, []);
    assert SumFrom(0, [shirt, hat]) == SumFrom(20, [hat]) == SumFrom(30, []);
    assert SumFrom(0, [hat]) == SumFrom(10, []);
  }
}
