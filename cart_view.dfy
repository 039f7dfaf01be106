/**
 * `CartViewModel` and `CartItem` (Models/CartViewModel.cs): the cart page's
 * lines and the totals computed from them. Prices are .NET `decimal`, which
 * is exact; they are `real` here.
 */
module CartView {

  /** One cart line joined with its product's current name, price and stock. */
  datatype CartItem = CartItem(
    cartId: int,
    productId: int,
    productName: string,
    price: real,
    quantity: int,
    stock: int)

  datatype CartViewModel = CartViewModel(items: seq<CartItem>)

  /** `CartItem.ItemTotal`: the line's price times its quantity. */
  function ItemTotal(item: CartItem): real {
    item.price * item.quantity as real
  }

  /** `Items.Sum(x => x.Price * x.Quantity)`, folded left to right. */
  function SumPriceTimesQuantity(items: seq<CartItem>): real {
    if |items| == 0 then 0.0
    else SumPriceTimesQuantity(items[..|items| - 1]) + items[|items| - 1].price * items[|items| - 1].quantity as real
  }

  /** `Items.Sum(x => x.Quantity)`. */
  function SumQuantity(items: seq<CartItem>): int {
    if |items| == 0 then 0 else SumQuantity(items[..|items| - 1]) + items[|items| - 1].quantity
  }

  /** The sum of the lines' `ItemTotal`s: the figure the page shows per line, added up. */
  function SumItemTotals(items: seq<CartItem>): real {
    if |items| == 0 then 0.0 else SumItemTotals(items[..|items| - 1]) + ItemTotal(items[|items| - 1])
  }

  /** `CartViewModel.Total`. */
  function Total(cart: CartViewModel): real {
    SumPriceTimesQuantity(cart.items)
  }

  /** `CartViewModel.ItemCount`. */
  function ItemCount(cart: CartViewModel): int {
    SumQuantity(cart.items)
  }

  /** `CartViewModel.IsEmpty`: `!Items.Any()`. */
  predicate IsEmpty(cart: CartViewModel) {
    |cart.items| == 0
  }

  /** An empty cart totals 0 with 0 items. */
  lemma EmptyCart(cart: CartViewModel)
    requires IsEmpty(cart)
    ensures Total(cart) == 0.0 && ItemCount(cart) == 0
  {
  }

  /** The cart total is the sum of the per-line totals the page shows. */
  lemma {:induction false} TotalIsSumOfItemTotals(items: seq<CartItem>)
    ensures Total(CartViewModel(items)) == SumItemTotals(items)
  {
    if |items| > 0 {
      TotalIsSumOfItemTotals(items[..|items| - 1]);
    }
  }

  /** Total distributes over a split of the lines. */
  lemma {:induction false} TotalAppend(a: seq<CartItem>, b: seq<CartItem>)
    ensures SumPriceTimesQuantity(a + b) == SumPriceTimesQuantity(a) + SumPriceTimesQuantity(b)
  {
    if |b| > 0 {
      assert (a + b)[..|a + b| - 1] == a + b[..|b| - 1];
      TotalAppend(a, b[..|b| - 1]);
    } else {
      assert a + b == a;
    }
  }

  /** ItemCount distributes over a split of the lines. */
  lemma {:induction false} ItemCountAppend(a: seq<CartItem>, b: seq<CartItem>)
    ensures SumQuantity(a + b) == SumQuantity(a) + SumQuantity(b)
  {
    if |b| > 0 {
      assert (a + b)[..|a + b| - 1] == a + b[..|b| - 1];
      ItemCountAppend(a, b[..|b| - 1]);
    } else {
      assert a + b == a;
    }
  }

  /** With non-negative prices and quantities the total is non-negative; with positive quantities the item count is at least the number of lines. */
  lemma {:induction false} TotalsBounds(items: seq<CartItem>)
    requires forall i :: 0 <= i < |items| ==> items[i].price >= 0.0 && items[i].quantity >= 1
    ensures Total(CartViewModel(items)) >= 0.0
    ensures ItemCount(CartViewModel(items)) >= |items|
  {
    if |items| > 0 {
      var last := items[|items| - 1];
      TotalsBounds(items[..|items| - 1]);
      assert last.price * last.quantity as real >= 0.0;
    }
  }
}
