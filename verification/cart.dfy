/**
 * The shopping cart held by `CartProvider`: the `cartItems` list and the
 * `addToCart` updater that React applies to it, and the `useCart` guard.
 * The list is replaced wholesale on every update, so the cart is a value and
 * `AddToCart` a function from the previous list to the next one.
 */
module Cart {
  import opened Wrappers

  /**
   * One cart line. `price` is `None` when the number is `NaN`; `image` is
   * `None` when the product had no image. `sizes` is not part of the declared
   * `CartItem` type, but the detail page passes it and the object spread keeps it.
   */
  datatype CartItem = CartItem(
    id: int,
    name: string,
    price: Option<real>,
    image: Option<string>,
    quantity: int,
    sizes: Option<seq<string>>)

  /** Some line carries `id`. */
  predicate HasId(items: seq<CartItem>, id: int) {
    exists i :: 0 <= i < |items| && items[i].id == id
  }

  /** No two lines carry the same id. */
  predicate UniqueIds(items: seq<CartItem>) {
    forall i, j :: 0 <= i < j < |items| ==> items[i].id != items[j].id
  }

  /** Every line holds at least one unit. */
  predicate PositiveQuantities(items: seq<CartItem>) {
    forall i :: 0 <= i < |items| ==> items[i].quantity >= 1
  }

  /** The number of lines carrying `id`. */
  function CountId(items: seq<CartItem>, id: int): nat {
    if |items| == 0 then 0
    else (if items[0].id == id then 1 else 0) + CountId(items[1..], id)
  }

  /** The number of units in the cart: the sum of the line quantities. */
  function TotalUnits(items: seq<CartItem>): int {
    if |items| == 0 then 0 else items[0].quantity + TotalUnits(items[1..])
  }

  /** The units held by the lines carrying `id`. */
  function QuantityOf(items: seq<CartItem>, id: int): int {
    if |items| == 0 then 0
    else (if items[0].id == id then items[0].quantity else 0) + QuantityOf(items[1..], id)
  }

  /** `items.find(item => item.id === id)`: the first line carrying `id`. */
  function Find(items: seq<CartItem>, id: int): (r: Option<CartItem>)
    ensures r.None? <==> !HasId(items, id)
    ensures r.Some? ==> exists i :: 0 <= i < |items| && items[i] == r.value && r.value.id == id &&
                                   forall k :: 0 <= k < i ==> items[k].id != id
  {
    if |items| == 0 then None
    else if items[0].id == id then Some(items[0])
    else
      var r := Find(items[1..], id);
      assert forall k :: 1 <= k < |items| ==> items[k] == items[1..][k - 1];
      r
  }

  /** `items.map(item => item.id === id ? {...item, quantity: item.quantity + 1} : item)`. */
  function IncrementMatching(items: seq<CartItem>, id: int): (r: seq<CartItem>)
    ensures |r| == |items|
    ensures forall i :: 0 <= i < |items| ==>
      r[i] == if items[i].id == id then items[i].(quantity := items[i].quantity + 1) else items[i]
  {
    if |items| == 0 then []
    else
      var head := if items[0].id == id then items[0].(quantity := items[0].quantity + 1) else items[0];
      [head] + IncrementMatching(items[1..], id)
  }

  /**
   * The `addToCart` updater: when a line with the candidate's id exists, every
   * such line gains one unit; otherwise the candidate is appended with quantity 1.
   * The candidate's own `quantity` is never read.
   */
  function AddToCart(items: seq<CartItem>, product: CartItem): (r: seq<CartItem>)
    ensures |r| == |items| || |r| == |items| + 1
    ensures forall i :: 0 <= i < |items| ==> r[i].id == items[i].id
    ensures HasId(r, product.id)
  {
    match Find(items, product.id)
    case Some(_) => IncrementMatching(items, product.id)
    case None =>
      var r := items + [product.(quantity := 1)];
      assert r[|items|].id == product.id;
      r
  }

  /**
   * Merging into an existing line: the list keeps its length and order, the
   * line gains exactly one unit and keeps its own name, price, image and
   * sizes, and every other line is untouched.
   */
  lemma AddToCartMerges(items: seq<CartItem>, product: CartItem, k: nat)
    requires k < |items| && items[k].id == product.id
    ensures |AddToCart(items, product)| == |items|
    ensures AddToCart(items, product)[k] == items[k].(quantity := items[k].quantity + 1)
    ensures forall i :: 0 <= i < |items| && items[i].id != product.id ==> AddToCart(items, product)[i] == items[i]
  {
  }

  /** A new id: the old list followed by the candidate, with quantity exactly 1. */
  lemma AddToCartAppends(items: seq<CartItem>, product: CartItem)
    requires !HasId(items, product.id)
    ensures AddToCart(items, product) == items + [product.(quantity := 1)]
    ensures AddToCart(items, product)[|items|].quantity == 1
  {
  }

  /** Unique ids stay unique. */
  lemma AddToCartKeepsUniqueIds(items: seq<CartItem>, product: CartItem)
    requires UniqueIds(items)
    ensures UniqueIds(AddToCart(items, product))
  {
  }

  /** Positive quantities stay positive. */
  lemma AddToCartKeepsPositive(items: seq<CartItem>, product: CartItem)
    requires PositiveQuantities(items)
    ensures PositiveQuantities(AddToCart(items, product))
  {
  }

  lemma {:induction false} TotalUnitsAppend(items: seq<CartItem>, x: CartItem)
    ensures TotalUnits(items + [x]) == TotalUnits(items) + x.quantity
  {
    if |items| > 0 {
      assert (items + [x])[1..] == items[1..] + [x];
      TotalUnitsAppend(items[1..], x);
    }
  }

  lemma {:induction false} TotalUnitsIncrement(items: seq<CartItem>, id: int)
    ensures TotalUnits(IncrementMatching(items, id)) == TotalUnits(items) + CountId(items, id)
  {
    if |items| > 0 {
      assert IncrementMatching(items, id)[1..] == IncrementMatching(items[1..], id);
      TotalUnitsIncrement(items[1..], id);
    }
  }

  lemma {:induction false} CountIdUnique(items: seq<CartItem>, id: int)
    requires UniqueIds(items)
    ensures CountId(items, id) == if HasId(items, id) then 1 else 0
  {
    if |items| > 0 {
      CountIdUnique(items[1..], id);
      if items[0].id == id {
        assert !HasId(items[1..], id);
      } else if HasId(items, id) {
        var i :| 0 <= i < |items| && items[i].id == id;
        assert items[1..][i - 1].id == id;
      }
    }
  }

  /**
   * Whichever branch runs, the cart gains exactly one unit when ids are
   * unique, whatever quantity the candidate asks for.
   */
  lemma AddToCartTotalUnits(items: seq<CartItem>, product: CartItem)
    requires UniqueIds(items)
    ensures TotalUnits(AddToCart(items, product)) == TotalUnits(items) + 1
  {
    if HasId(items, product.id) {
      TotalUnitsIncrement(items, product.id);
      CountIdUnique(items, product.id);
    } else {
      TotalUnitsAppend(items, product.(quantity := 1));
    }
  }

  lemma {:induction false} QuantityOfAppend(items: seq<CartItem>, x: CartItem, id: int)
    ensures QuantityOf(items + [x], id) == QuantityOf(items, id) + (if x.id == id then x.quantity else 0)
  {
    if |items| > 0 {
      assert (items + [x])[1..] == items[1..] + [x];
      QuantityOfAppend(items[1..], x, id);
    }
  }

  lemma {:induction false} QuantityOfIncrement(items: seq<CartItem>, id: int, other: int)
    ensures QuantityOf(IncrementMatching(items, id), other) ==
      QuantityOf(items, other) + (if other == id then CountId(items, id) else 0)
  {
    if |items| > 0 {
      assert IncrementMatching(items, id)[1..] == IncrementMatching(items[1..], id);
      QuantityOfIncrement(items[1..], id, other);
    }
  }

  /** One call adds one unit to the candidate's id and none to any other id. */
  lemma AddToCartQuantityOf(items: seq<CartItem>, product: CartItem, id: int)
    requires UniqueIds(items)
    ensures QuantityOf(AddToCart(items, product), id) ==
      QuantityOf(items, id) + (if id == product.id then 1 else 0)
  {
    if HasId(items, product.id) {
      QuantityOfIncrement(items, product.id, id);
      CountIdUnique(items, product.id);
    } else {
      QuantityOfAppend(items, product.(quantity := 1), id);
    }
  }

  /** A run of `addToCart` calls, applied in order (each one completes before the next). */
  function AddAll(items: seq<CartItem>, products: seq<CartItem>): (r: seq<CartItem>)
    ensures |items| <= |r| <= |items| + |products|
    ensures forall i :: 0 <= i < |items| ==> r[i].id == items[i].id
    ensures forall k :: 0 <= k < |products| ==> HasId(r, products[k].id)
    decreases |products|
  {
    if |products| == 0 then items else AddAll(AddToCart(items, products[0]), products[1..])
  }

  /** The number of candidates in `products` carrying `id`. */
  function Requests(products: seq<CartItem>, id: int): nat {
    if |products| == 0 then 0
    else (if products[0].id == id then 1 else 0) + Requests(products[1..], id)
  }

  /**
   * After any run of additions, the ids are still unique, the cart holds one
   * more unit per call, and each id holds one more unit per call naming it:
   * repeated additions of one id end in one line whose quantity counts the
   * calls, not the sum of the candidates' quantities.
   */
  lemma {:induction false} AddAllSpec(items: seq<CartItem>, products: seq<CartItem>, id: int)
    requires UniqueIds(items)
    ensures UniqueIds(AddAll(items, products))
    ensures TotalUnits(AddAll(items, products)) == TotalUnits(items) + |products|
    ensures QuantityOf(AddAll(items, products), id) == QuantityOf(items, id) + Requests(products, id)
    ensures CountId(AddAll(items, products), id) == if HasId(items, id) || Requests(products, id) > 0 then 1 else 0
    decreases |products|
  {
    if |products| == 0 {
      CountIdUnique(items, id);
    } else {
      var next := AddToCart(items, products[0]);
      AddToCartKeepsUniqueIds(items, products[0]);
      AddToCartTotalUnits(items, products[0]);
      AddToCartQuantityOf(items, products[0], id);
      AddAllSpec(next, products[1..], id);
      assert HasId(next, id) <==> HasId(items, id) || products[0].id == id;
    }
  }

  /** The value the provider publishes: the current list (and its `addToCart` updater). */
  datatype CartContextValue = CartContextValue(cartItems: seq<CartItem>)

  const UseCartOutsideProvider: string := "useCart must be used within a CartProvider"

  /** `useCart`: throws when no provider is present, otherwise hands back the context as it is. */
  function UseCart(context: Option<CartContextValue>): (r: Result<CartContextValue, string>)
    ensures r.Failure? <==> context.None?
    ensures r.Failure? ==> r.error == UseCartOutsideProvider
    ensures r.Success? ==> r.value == context.value
  {
    match context
    case None => Failure(UseCartOutsideProvider)
    case Some(c) => Success(c)
  }
}
