/**
 * The cart and stock store of `DbHelper` in Utilities/DbHelper.cs.
 *
 * Each SQL statement is modelled by its effect on two in-memory tables:
 * `products` (`tblProducts`) and `cart` (`tblCart`, in insertion order).
 * `nextCartId` is the identity seed of `tblCart.CartId`, and `clock` is the
 * next `GETDATE()` reading, which advances with every insert. The pure
 * functions below say what each statement selects or writes; the methods of
 * the `DbHelper` class are proved against them, and the lemmas state what the
 * store promises.
 */
module UtilitiesDb {
  import opened Wrappers
  import opened Text
  import opened ProductView
  import opened CartView
  import opened Tables
  import opened HelpersDb

  // ----- Looking rows up -----

  /** The position of the first product with this id (the primary key). */
  function ProductIndex(products: seq<ProductRow>, productId: int): (r: Option<nat>)
    ensures r.Some? ==> r.value < |products| && products[r.value].productId == productId
    ensures r.None? <==> forall i :: 0 <= i < |products| ==> products[i].productId != productId
  {
    if |products| == 0 then None
    else if products[0].productId == productId then Some(0)
    else match ProductIndex(products[1..], productId)
      case None => None
      case Some(j) => Some(j + 1)
  }

  /** `SELECT CartId, Quantity FROM tblCart WHERE UserId = @UserId AND ProductId = @ProductId`: the position of the first such line. */
  function LineIndex(cart: seq<CartLine>, userId: int, productId: int): (r: Option<nat>)
    ensures r.Some? ==> r.value < |cart| && cart[r.value].userId == userId && cart[r.value].productId == productId
    ensures r.None? <==> forall i :: 0 <= i < |cart| ==> !(cart[i].userId == userId && cart[i].productId == productId)
  {
    if |cart| == 0 then None
    else if cart[0].userId == userId && cart[0].productId == productId then Some(0)
    else match LineIndex(cart[1..], userId, productId)
      case None => None
      case Some(j) => Some(j + 1)
  }

  // ----- Selecting lines: the WHERE clauses of the cart statements -----

  /** The WHERE clause of a cart statement. */
  datatype LineFilter =
    | WithCartId(cartId: int)                 // WHERE CartId = @CartId
    | OfUser(userId: int)                     // WHERE UserId = @UserId
    | OfPair(userId: int, productId: int)     // WHERE UserId = @UserId AND ProductId = @ProductId

  predicate Selects(f: LineFilter, line: CartLine) {
    match f
    case WithCartId(id) => line.cartId == id
    case OfUser(u) => line.userId == u
    case OfPair(u, p) => line.userId == u && line.productId == p
  }

  /** The number of lines the WHERE clause selects: the rows an UPDATE or DELETE affects. */
  function CountWhere(cart: seq<CartLine>, f: LineFilter): (n: nat)
    ensures n <= |cart|
    ensures n == 0 <==> forall i :: 0 <= i < |cart| ==> !Selects(f, cart[i])
  {
    if |cart| == 0 then 0
    else (if Selects(f, cart[0]) then 1 else 0) + CountWhere(cart[1..], f)
  }

  /** `SUM(Quantity)` over the selected lines; `COALESCE(..., 0)` when there are none. */
  function QuantityWhere(cart: seq<CartLine>, f: LineFilter): int {
    if |cart| == 0 then 0
    else (if Selects(f, cart[0]) then cart[0].quantity else 0) + QuantityWhere(cart[1..], f)
  }

  /** `DELETE FROM tblCart WHERE ...`: the lines the clause does not select, in their order. */
  function Without(cart: seq<CartLine>, f: LineFilter): (r: seq<CartLine>)
    ensures |r| <= |cart|
    ensures forall l :: l in r <==> l in cart && !Selects(f, l)
  {
    if |cart| == 0 then []
    else (if Selects(f, cart[0]) then [] else [cart[0]]) + Without(cart[1..], f)
  }

  /** `UPDATE tblCart SET Quantity = @Quantity WHERE CartId = @CartId`. */
  function SetQuantity(cart: seq<CartLine>, cartId: int, quantity: int): seq<CartLine> {
    seq(|cart|, i requires 0 <= i < |cart| =>
      if cart[i].cartId == cartId then cart[i].(quantity := quantity) else cart[i])
  }

  // ----- The store invariant -----

  predicate UniqueProductIds(products: seq<ProductRow>) {
    forall i, j :: 0 <= i < j < |products| ==> products[i].productId != products[j].productId
  }

  /** Identity ids and `GETDATE()` stamps both increase in insertion order. */
  predicate CartOrdered(cart: seq<CartLine>) {
    forall i, j :: 0 <= i < j < |cart| ==> cart[i].cartId < cart[j].cartId && cart[i].addedDate < cart[j].addedDate
  }

  /** At most one line per (user, product): `AddToCart` increments an existing line instead of inserting. */
  predicate UniquePairs(cart: seq<CartLine>) {
    forall i, j :: 0 <= i < j < |cart| ==> !(cart[i].userId == cart[j].userId && cart[i].productId == cart[j].productId)
  }

  /** Every line was stamped before the next identity value and the next clock reading. */
  predicate BelowSeeds(cart: seq<CartLine>, nextCartId: int, clock: int) {
    forall i :: 0 <= i < |cart| ==> cart[i].cartId < nextCartId && cart[i].addedDate < clock
  }

  predicate CartInvariant(cart: seq<CartLine>, nextCartId: int, clock: int) {
    CartOrdered(cart) && UniquePairs(cart) && BelowSeeds(cart, nextCartId, clock)
  }

  // ----- AddToCart -----

  /** Which branch `AddToCart` takes, with what its message needs. */
  datatype AddOutcome =
    | ProductNotFound
    | OutOfStock(name: string)
    | AtLimit(stock: int, current: int)
    | Increased(name: string, index: nat)
    | Added(name: string)

  /** The branch `AddToCart` takes on these tables. */
  function DecideAdd(products: seq<ProductRow>, cart: seq<CartLine>, userId: int, productId: int): (o: AddOutcome)
    ensures o.Increased? ==> o.index < |cart| && cart[o.index].userId == userId && cart[o.index].productId == productId
  {
    match ProductIndex(products, productId)
    case None => ProductNotFound
    case Some(k) =>
      var p := products[k];
      if p.stock <= 0 then OutOfStock(p.name)
      else match LineIndex(cart, userId, productId)
        case None => Added(p.name)
        case Some(i) =>
          if cart[i].quantity >= p.stock then AtLimit(p.stock, cart[i].quantity)
          else Increased(p.name, i)
  }

  /** The `(success, message)` pair `AddToCart` returns for each branch. */
  function AddReply(o: AddOutcome): (bool, string) {
    match o
    case ProductNotFound => (false, "Product not found.")
    case OutOfStock(name) => (false, name + " is out of stock.")
    case AtLimit(stock, current) =>
      (false, "Only " + IntToString(stock) + " in stock. You already have " + IntToString(current) + " in cart.")
    case Increased(name, _) => (true, "Increased quantity of " + name + " in your cart.")
    case Added(name) => (true, name + " added to cart!")
  }

  /** The cart table after `AddToCart`, the new line taking identity `cartId` and stamp `date`. */
  function CartAfterAdd(products: seq<ProductRow>, cart: seq<CartLine>, userId: int, productId: int,
                        cartId: int, date: int): seq<CartLine>
  {
    match DecideAdd(products, cart, userId, productId)
    case Increased(_, i) => cart[i := cart[i].(quantity := cart[i].quantity + 1)]
    case Added(_) => cart + [CartLine(cartId, userId, productId, 1, date)]
    case _ => cart
  }

  // ----- Reads -----

  /** One row of the `tblCart JOIN tblProducts` result. */
  function JoinLine(line: CartLine, p: ProductRow): CartItem {
    CartItem(line.cartId, line.productId, p.name, p.price, line.quantity, p.stock)
  }

  /**
   * The rows `GetCartItems` reads: the user's lines that join a product,
   * newest first (the last line of the table comes first).
   */
  function CartItemsOf(products: seq<ProductRow>, cart: seq<CartLine>, userId: int): seq<CartItem> {
    if |cart| == 0 then []
    else
      var rest := CartItemsOf(products, cart[1..], userId);
      match ProductIndex(products, cart[0].productId)
      case Some(k) => if cart[0].userId == userId then rest + [JoinLine(cart[0], products[k])] else rest
      case None => rest
  }

  /** The product filters of the read queries. */
  datatype StockFilter =
    | InStock                  // WHERE Stock > 0
    | LowStock(threshold: int) // WHERE Stock > 0 AND Stock <= @Threshold
    | StockedOut               // WHERE Stock = 0

  predicate StockSelects(f: StockFilter, row: ProductRow) {
    match f
    case InStock => row.stock > 0
    case LowStock(t) => 0 < row.stock <= t
    case StockedOut => row.stock == 0
  }

  /** The product rows the filter selects, in table order. */
  function ProductsWhere(products: seq<ProductRow>, f: StockFilter): (r: seq<ProductRow>)
    ensures forall row :: row in r <==> row in products && StockSelects(f, row)
    ensures multiset(r) <= multiset(products)
  {
    if |products| == 0 then []
    else
      var rest := ProductsWhere(products[1..], f);
      assert products == [products[0]] + products[1..];
      (if StockSelects(f, products[0]) then [products[0]] else []) + rest
  }

  /** Ordinal comparison of names, character by character. */
  predicate NameLeq(a: string, b: string) {
    if |a| == 0 then true
    else if |b| == 0 then false
    else if a[0] != b[0] then a[0] < b[0]
    else NameLeq(a[1..], b[1..])
  }

  predicate SortedByName(rows: seq<ProductRow>) {
    forall i :: 0 < i < |rows| ==> NameLeq(rows[i - 1].name, rows[i].name)
  }

  /** Places a row in a name-sorted sequence, before the first row whose name is not below it. */
  function InsertByName(row: ProductRow, rows: seq<ProductRow>): (r: seq<ProductRow>)
    ensures multiset(r) == multiset(rows) + multiset{row}
    ensures |r| == |rows| + 1
    ensures |r| > 0 && (r[0] == row || (|rows| > 0 && r[0] == rows[0]))
  {
    if |rows| == 0 || NameLeq(row.name, rows[0].name) then [row] + rows
    else
      assert rows == [rows[0]] + rows[1..];
      [rows[0]] + InsertByName(row, rows[1..])
  }

  /** `ORDER BY ProductName`. */
  function SortByName(rows: seq<ProductRow>): (r: seq<ProductRow>)
    ensures multiset(r) == multiset(rows)
  {
    if |rows| == 0 then []
    else
      assert rows == [rows[0]] + rows[1..];
      InsertByName(rows[0], SortByName(rows[1..]))
  }

  /** The result set of `GetAvailableProducts`'s query: products in stock, by name. */
  function AvailableRows(products: seq<ProductRow>): seq<ProductRow> {
    SortByName(ProductsWhere(products, InStock))
  }

  /** The `while (reader.Read())` loop of `GetAvailableProducts`: one view model per row, in order. */
  method ReadViews(rows: seq<ProductRow>) returns (list: seq<ProductViewModel>)
    ensures |list| == |rows|
    ensures forall j :: 0 <= j < |list| ==> list[j] == ToView(rows[j])
  {
    list := [];
    var i := 0;
    while i < |rows|
      invariant 0 <= i <= |rows|
      invariant |list| == i
      invariant forall j :: 0 <= j < i ==> list[j] == ToView(rows[j])
    {
      list := list + [ToView(rows[i])];
      i := i + 1;
    }
  }

  // ----- The store -----

  class DbHelper {
    var products: seq<ProductRow>
    var cart: seq<CartLine>
    var nextCartId: int
    var clock: int

    ghost predicate Valid()
      reads this
    {
      UniqueProductIds(products) && CartInvariant(cart, nextCartId, clock)
    }

    constructor(products: seq<ProductRow>)
      requires UniqueProductIds(products)
      ensures Valid()
      ensures this.products == products && cart == []
    {
      this.products := products;
      cart := [];
      nextCartId := 1;
      clock := 0;
    }

    /**
     * `AddToCart`: read the product, refuse a missing or out-of-stock one,
     * then increment the user's existing line while it is below the stock, or
     * insert a line of quantity 1. The product table is never written.
     */
    method AddToCart(userId: int, productId: int) returns (success: bool, message: string)
      requires Valid()
      modifies this
      ensures Valid()
      ensures (success, message) == AddReply(DecideAdd(old(products), old(cart), userId, productId))
      ensures products == old(products)
      ensures cart == CartAfterAdd(old(products), old(cart), userId, productId, old(nextCartId), old(clock))
      ensures DecideAdd(old(products), old(cart), userId, productId).Added?
        ==> nextCartId == old(nextCartId) + 1 && clock == old(clock) + 1
      ensures !DecideAdd(old(products), old(cart), userId, productId).Added?
        ==> nextCartId == old(nextCartId) && clock == old(clock)
    {
      AddKeepsInvariant(products, cart, userId, productId, nextCartId, clock);
      var k := ProductIndex(products, productId);
      if k.None? {
        return false, "Product not found.";
      }
      var productName := products[k.value].name;
      var stock := products[k.value].stock;
      if stock <= 0 {
        return false, productName + " is out of stock.";
      }
      var i := LineIndex(cart, userId, productId);
      if i.Some? {
        var currentQty := cart[i.value].quantity;
        if currentQty >= stock {
          return false, "Only " + IntToString(stock) + " in stock. You already have " + IntToString(currentQty) + " in cart.";
        }
        cart := cart[i.value := cart[i.value].(quantity := currentQty + 1)];
        return true, "Increased quantity of " + productName + " in your cart.";
      }
      cart := cart + [CartLine(nextCartId, userId, productId, 1, clock)];
      nextCartId := nextCartId + 1;
      clock := clock + 1;
      return true, productName + " added to cart!";
    }

    /** `UpdateCartQuantity`: set the line's quantity, with no stock bound; true iff a row was affected. */
    method UpdateCartQuantity(cartId: int, quantity: int) returns (success: bool)
      requires Valid()
      modifies this
      ensures Valid()
      ensures success <==> CountWhere(old(cart), WithCartId(cartId)) > 0
      ensures cart == SetQuantity(old(cart), cartId, quantity)
      ensures products == old(products) && nextCartId == old(nextCartId) && clock == old(clock)
    {
      success := CountWhere(cart, WithCartId(cartId)) > 0;
      cart := SetQuantity(cart, cartId, quantity);
      SetQuantityKeepsInvariant(old(cart), cartId, quantity, nextCartId, clock);
    }

    /** `RemoveCartItem`: delete the line with that id, whoever owns it; true iff a row was affected. */
    method RemoveCartItem(cartId: int) returns (success: bool)
      requires Valid()
      modifies this
      ensures Valid()
      ensures success <==> CountWhere(old(cart), WithCartId(cartId)) > 0
      ensures cart == Without(old(cart), WithCartId(cartId))
      ensures products == old(products) && nextCartId == old(nextCartId) && clock == old(clock)
    {
      success := CountWhere(cart, WithCartId(cartId)) > 0;
      WithoutKeepsInvariant(cart, WithCartId(cartId), nextCartId, clock);
      cart := Without(cart, WithCartId(cartId));
    }

    /** `ClearCart`: delete every line of the user; true iff a row was affected. */
    method ClearCart(userId: int) returns (success: bool)
      requires Valid()
      modifies this
      ensures Valid()
      ensures success <==> CountWhere(old(cart), OfUser(userId)) > 0
      ensures cart == Without(old(cart), OfUser(userId))
      ensures products == old(products) && nextCartId == old(nextCartId) && clock == old(clock)
    {
      success := CountWhere(cart, OfUser(userId)) > 0;
      WithoutKeepsInvariant(cart, OfUser(userId), nextCartId, clock);
      cart := Without(cart, OfUser(userId));
    }

    /** `GetCartItemCount`: the SQL `SUM` of the user's quantities; a sum outside Int32 overflows, and the handler returns 0. */
    function GetCartItemCount(userId: int): (count: int)
      reads this
      ensures InInt32(count)
      ensures InInt32(QuantityWhere(cart, OfUser(userId))) ==> count == QuantityWhere(cart, OfUser(userId))
      ensures CountWhere(cart, OfUser(userId)) == 0 ==> count == 0
    {
      NoLinesNoQuantity(cart, OfUser(userId));
      var sum := QuantityWhere(cart, OfUser(userId));
      if InInt32(sum) then sum else 0
    }

    /** `GetCartItems`: reads the joined rows newest first and adds each to the model. */
    method GetCartItems(userId: int) returns (model: CartViewModel)
      ensures model.items == CartItemsOf(products, cart, userId)
    {
      var items: seq<CartItem> := [];
      var i := |cart|;
      while i > 0
        invariant 0 <= i <= |cart|
        invariant items == CartItemsOf(products, cart[i..], userId)
      {
        i := i - 1;
        assert cart[i..][1..] == cart[i + 1..];
        var line := cart[i];
        var k := ProductIndex(products, line.productId);
        if k.Some? && line.userId == userId {
          items := items + [JoinLine(line, products[k.value])];
        }
      }
      assert cart[0..] == cart;
      model := CartViewModel(items);
    }

    /** `GetAvailableProducts`: reads the in-stock products by name and maps each row to a view model. */
    method GetAvailableProducts() returns (list: seq<ProductViewModel>)
      ensures |list| == |AvailableRows(products)|
      ensures forall j :: 0 <= j < |list| ==> list[j] == ToView(AvailableRows(products)[j])
    {
      list := ReadViews(AvailableRows(products));
    }

    /** `GetLowStockProducts(threshold)`. */
    function GetLowStockProducts(threshold: int): (rows: seq<ProductRow>)
      reads this
      ensures forall row :: row in rows <==> row in products && 0 < row.stock <= threshold
    {
      ProductsWhere(products, LowStock(threshold))
    }

    /** `GetOutOfStockProducts`. */
    function GetOutOfStockProducts(): (rows: seq<ProductRow>)
      reads this
      ensures forall row :: row in rows <==> row in products && row.stock == 0
    {
      ProductsWhere(products, StockedOut)
    }

    /**
     * `UpdateProducts`: no product with the model's id means false and no
     * write; otherwise the row is overwritten with the merge of its stored
     * values and the submitted ones.
     */
    method UpdateProducts(model: ProductViewModel) returns (success: bool)
      requires Valid()
      modifies this
      ensures Valid()
      ensures success <==> ProductIndex(old(products), model.productId).Some?
      ensures success ==> var k := ProductIndex(old(products), model.productId).value;
        products == old(products)[k := MergeProduct(old(products)[k], model)]
      ensures !success ==> products == old(products)
      ensures cart == old(cart) && nextCartId == old(nextCartId) && clock == old(clock)
    {
      var k := ProductIndex(products, model.productId);
      if k.None? {
        return false;
      }
      products := products[k.value := MergeProduct(products[k.value], model)];
      success := true;
    }
  }

  // ----- Lemmas the methods rely on -----

  lemma {:induction false} NoLinesNoQuantity(cart: seq<CartLine>, f: LineFilter)
    ensures CountWhere(cart, f) == 0 ==> QuantityWhere(cart, f) == 0
  {
    if |cart| > 0 {
      NoLinesNoQuantity(cart[1..], f);
    }
  }

  lemma SetQuantityKeepsInvariant(cart: seq<CartLine>, cartId: int, quantity: int, nextCartId: int, clock: int)
    requires CartInvariant(cart, nextCartId, clock)
    ensures CartInvariant(SetQuantity(cart, cartId, quantity), nextCartId, clock)
  {
  }

  /** A line placed before lines it precedes in id and date, and whose pair none of them repeats, keeps the table ordered and unique. */
  lemma ConsKeepsOrder(head: CartLine, rest: seq<CartLine>)
    requires CartOrdered(rest) && UniquePairs(rest)
    requires forall l :: l in rest ==> head.cartId < l.cartId && head.addedDate < l.addedDate
    requires forall l :: l in rest ==> !(head.userId == l.userId && head.productId == l.productId)
    ensures CartOrdered([head] + rest) && UniquePairs([head] + rest)
  {
    var s := [head] + rest;
    forall i, j | 0 <= i < j < |s|
      ensures s[i].cartId < s[j].cartId && s[i].addedDate < s[j].addedDate
      ensures !(s[i].userId == s[j].userId && s[i].productId == s[j].productId)
    {
      assert s[j] == rest[j - 1];
      if i > 0 {
        assert s[i] == rest[i - 1];
      } else {
        assert rest[j - 1] in rest;
      }
    }
  }

  lemma TailKeepsOrder(cart: seq<CartLine>)
    requires |cart| > 0 && CartOrdered(cart) && UniquePairs(cart)
    ensures CartOrdered(cart[1..]) && UniquePairs(cart[1..])
  {
    var tail := cart[1..];
    assert forall i :: 0 <= i < |tail| ==> tail[i] == cart[i + 1];
  }

  /** The first line precedes, and differs in its pair from, every later line. */
  lemma HeadPrecedesTail(cart: seq<CartLine>)
    requires |cart| > 0 && CartOrdered(cart) && UniquePairs(cart)
    ensures forall l :: l in cart[1..] ==> cart[0].cartId < l.cartId && cart[0].addedDate < l.addedDate
    ensures forall l :: l in cart[1..] ==> !(cart[0].userId == l.userId && cart[0].productId == l.productId)
  {
    forall l | l in cart[1..]
      ensures cart[0].cartId < l.cartId && cart[0].addedDate < l.addedDate
      ensures !(cart[0].userId == l.userId && cart[0].productId == l.productId)
    {
      var m :| 0 <= m < |cart[1..]| && cart[1..][m] == l;
      assert cart[m + 1] == l;
    }
  }

  lemma {:induction false} WithoutKeepsOrder(cart: seq<CartLine>, f: LineFilter)
    requires CartOrdered(cart) && UniquePairs(cart)
    ensures CartOrdered(Without(cart, f)) && UniquePairs(Without(cart, f))
  {
    if |cart| > 0 {
      var tail := cart[1..];
      TailKeepsOrder(cart);
      WithoutKeepsOrder(tail, f);
      var rest := Without(tail, f);
      if !Selects(f, cart[0]) {
        HeadPrecedesTail(cart);
        ConsKeepsOrder(cart[0], rest);
        assert Without(cart, f) == [cart[0]] + rest;
      } else {
        assert Without(cart, f) == rest;
      }
    }
  }

  lemma WithoutKeepsInvariant(cart: seq<CartLine>, f: LineFilter, nextCartId: int, clock: int)
    requires CartInvariant(cart, nextCartId, clock)
    ensures CartInvariant(Without(cart, f), nextCartId, clock)
  {
    WithoutKeepsOrder(cart, f);
    var w := Without(cart, f);
    forall i | 0 <= i < |w|
      ensures w[i].cartId < nextCartId && w[i].addedDate < clock
    {
      assert w[i] in cart;
      var j :| 0 <= j < |cart| && cart[j] == w[i];
    }
  }

  // ----- Sums over the tables -----

  lemma {:induction false} QuantityWhereAppend(a: seq<CartLine>, b: seq<CartLine>, f: LineFilter)
    ensures QuantityWhere(a + b, f) == QuantityWhere(a, f) + QuantityWhere(b, f)
  {
    if |a| > 0 {
      assert (a + b)[1..] == a[1..] + b;
      QuantityWhereAppend(a[1..], b, f);
    } else {
      assert a + b == b;
    }
  }

  lemma {:induction false} QuantityWhereUpdate(cart: seq<CartLine>, i: nat, line: CartLine, f: LineFilter)
    requires i < |cart|
    ensures QuantityWhere(cart[i := line], f)
         == QuantityWhere(cart, f) - (if Selects(f, cart[i]) then cart[i].quantity else 0)
                                   + (if Selects(f, line) then line.quantity else 0)
  {
    if i > 0 {
      assert cart[i := line][1..] == cart[1..][i - 1 := line];
      QuantityWhereUpdate(cart[1..], i - 1, line, f);
    } else {
      assert cart[i := line][1..] == cart[1..];
    }
  }

  /** With one line per (user, product), the pair's summed quantity is that line's quantity, or 0 when there is none. */
  lemma {:induction false} PairQuantityIsLineQuantity(cart: seq<CartLine>, userId: int, productId: int)
    requires UniquePairs(cart)
    ensures QuantityWhere(cart, OfPair(userId, productId))
         == match LineIndex(cart, userId, productId) case None => 0 case Some(i) => cart[i].quantity
  {
    if |cart| > 0 {
      var tail := cart[1..];
      assert UniquePairs(tail) by {
        assert forall i :: 0 <= i < |tail| ==> tail[i] == cart[i + 1];
      }
      if Selects(OfPair(userId, productId), cart[0]) {
        assert forall i :: 0 <= i < |tail| ==> !Selects(OfPair(userId, productId), tail[i]) by {
          assert forall i :: 0 <= i < |tail| ==> tail[i] == cart[i + 1];
        }
        NoLinesNoQuantity(tail, OfPair(userId, productId));
      } else {
        PairQuantityIsLineQuantity(tail, userId, productId);
      }
    }
  }

  // ----- What AddToCart promises -----

  /**
   * `AddToCart` succeeds exactly when the product exists with a positive
   * stock and the user holds fewer than that many of it; a success raises the
   * user's quantity of that product by exactly one and keeps it within the
   * stock, and a failure leaves the cart table as it was. Either way the table
   * keeps one line per (user, product).
   */
  lemma AddToCartRule(products: seq<ProductRow>, cart: seq<CartLine>, userId: int, productId: int, cartId: int, date: int)
    requires UniquePairs(cart)
    ensures var success := AddReply(DecideAdd(products, cart, userId, productId)).0;
      var after := CartAfterAdd(products, cart, userId, productId, cartId, date);
      var q := QuantityWhere(cart, OfPair(userId, productId));
      var k := ProductIndex(products, productId);
      && (success <==> k.Some? && 0 < products[k.value].stock && q < products[k.value].stock)
      && (success ==> QuantityWhere(after, OfPair(userId, productId)) == q + 1
                      && q + 1 <= products[k.value].stock
                      && LineIndex(after, userId, productId).Some?)
      && (!success ==> after == cart)
      && UniquePairs(after)
  {
    PairQuantityIsLineQuantity(cart, userId, productId);
    var after := CartAfterAdd(products, cart, userId, productId, cartId, date);
    match DecideAdd(products, cart, userId, productId)
    case Increased(_, i) =>
      QuantityWhereUpdate(cart, i, cart[i].(quantity := cart[i].quantity + 1), OfPair(userId, productId));
      assert after[i].userId == userId && after[i].productId == productId;
    case Added(_) =>
      var line := CartLine(cartId, userId, productId, 1, date);
      QuantityWhereAppend(cart, [line], OfPair(userId, productId));
      assert after[|cart|] == line;
    case _ =>
  }

  /** `AddToCart` keeps the cart invariant, the identity and clock advancing exactly when a line is inserted. */
  lemma AddKeepsInvariant(products: seq<ProductRow>, cart: seq<CartLine>, userId: int, productId: int, nextCartId: int, clock: int)
    requires CartInvariant(cart, nextCartId, clock)
    ensures var added := DecideAdd(products, cart, userId, productId).Added?;
      CartInvariant(CartAfterAdd(products, cart, userId, productId, nextCartId, clock),
                    if added then nextCartId + 1 else nextCartId, if added then clock + 1 else clock)
  {
    var after := CartAfterAdd(products, cart, userId, productId, nextCartId, clock);
    AddToCartRule(products, cart, userId, productId, nextCartId, clock);
    match DecideAdd(products, cart, userId, productId)
    case Increased(_, i) =>
      assert forall j :: 0 <= j < |after| ==> after[j].cartId == cart[j].cartId && after[j].addedDate == cart[j].addedDate;
    case Added(_) =>
      assert forall j :: 0 <= j < |cart| ==> after[j] == cart[j];
    case _ =>
  }

  /** A successful add raises the quantity of its own (user, product) pair and of its user by one and changes no other pair's or user's quantity. */
  lemma AddChangesOnlyItsPair(products: seq<ProductRow>, cart: seq<CartLine>, userId: int, productId: int,
                              cartId: int, date: int, f: LineFilter)
    requires !f.WithCartId?
    ensures var success := AddReply(DecideAdd(products, cart, userId, productId)).0;
      QuantityWhere(CartAfterAdd(products, cart, userId, productId, cartId, date), f)
        == QuantityWhere(cart, f) + (if success && Selects(f, CartLine(cartId, userId, productId, 1, date)) then 1 else 0)
  {
    match DecideAdd(products, cart, userId, productId)
    case Increased(_, i) =>
      QuantityWhereUpdate(cart, i, cart[i].(quantity := cart[i].quantity + 1), f);
    case Added(_) =>
      QuantityWhereAppend(cart, [CartLine(cartId, userId, productId, 1, date)], f);
    case _ =>
  }

  /** `AddToCart` called `times` times in a row for the same user and product. */
  function AddRepeatedly(products: seq<ProductRow>, cart: seq<CartLine>, userId: int, productId: int,
                         times: nat, cartId: int, date: int): seq<CartLine>
  {
    if times == 0 then cart
    else CartAfterAdd(products, AddRepeatedly(products, cart, userId, productId, times - 1, cartId, date),
                      userId, productId, cartId, date)
  }

  /** Adding a product `times` times to a cart that lacks it leaves a single line whose quantity is `times`, capped at the stock. */
  lemma {:induction false} RepeatedAddsCapAtStock(products: seq<ProductRow>, cart: seq<CartLine>, userId: int, productId: int,
                                                  times: nat, cartId: int, date: int)
    requires UniquePairs(cart) && LineIndex(cart, userId, productId).None?
    requires ProductIndex(products, productId).Some? && products[ProductIndex(products, productId).value].stock > 0
    ensures var after := AddRepeatedly(products, cart, userId, productId, times, cartId, date);
      var stock := products[ProductIndex(products, productId).value].stock;
      && UniquePairs(after)
      && (times > 0 <==> LineIndex(after, userId, productId).Some?)
      && QuantityWhere(after, OfPair(userId, productId)) == if times < stock then times else stock
  {
    var stock := products[ProductIndex(products, productId).value].stock;
    if times == 0 {
      PairQuantityIsLineQuantity(cart, userId, productId);
    } else {
      var before := AddRepeatedly(products, cart, userId, productId, times - 1, cartId, date);
      RepeatedAddsCapAtStock(products, cart, userId, productId, times - 1, cartId, date);
      AddToCartRule(products, before, userId, productId, cartId, date);
    }
  }

  // ----- What UpdateCartQuantity, RemoveCartItem and ClearCart promise -----

  /** `UpdateCartQuantity` puts no stock bound on the quantity: the line's pair then holds exactly the given quantity, whatever the stock. */
  lemma SetQuantityIgnoresStock(cart: seq<CartLine>, i: nat, quantity: int)
    requires CartOrdered(cart) && UniquePairs(cart) && i < |cart|
    ensures var after := SetQuantity(cart, cart[i].cartId, quantity);
      QuantityWhere(after, OfPair(cart[i].userId, cart[i].productId)) == quantity
  {
    var after := SetQuantity(cart, cart[i].cartId, quantity);
    assert forall k :: 0 <= k < |cart| ==>
      after[k] == if cart[k].cartId == cart[i].cartId then cart[k].(quantity := quantity) else cart[k];
    assert after == cart[i := cart[i].(quantity := quantity)];
    assert UniquePairs(after);
    PairQuantityIsLineQuantity(after, cart[i].userId, cart[i].productId);
  }

  /**
   * After `UpdateCartQuantity` on an existing line, every `SUM(Quantity)` that
   * selects the line moves by exactly the change in its quantity, and every
   * other sum is unchanged: the owner's header count goes from `c` to
   * `c - old + quantity`, and no other user's count moves.
   */
  lemma SetQuantityMovesCount(cart: seq<CartLine>, i: nat, quantity: int, f: LineFilter)
    requires CartOrdered(cart) && i < |cart|
    ensures QuantityWhere(SetQuantity(cart, cart[i].cartId, quantity), f)
         == QuantityWhere(cart, f) + (if Selects(f, cart[i]) then quantity - cart[i].quantity else 0)
  {
    var line := cart[i].(quantity := quantity);
    assert SetQuantity(cart, cart[i].cartId, quantity) == cart[i := line];
    QuantityWhereUpdate(cart, i, line, f);
  }

  /** Deleting twice is deleting once, and nothing the clause selects is left: a second `RemoveCartItem` or `ClearCart` affects no row. */
  lemma DeleteIdempotent(cart: seq<CartLine>, f: LineFilter)
    ensures Without(Without(cart, f), f) == Without(cart, f)
    ensures CountWhere(Without(cart, f), f) == 0
  {
    var once := Without(cart, f);
    forall i | 0 <= i < |once|
      ensures !Selects(f, once[i])
    {
      assert once[i] in once;
    }
    WithoutNothingSelected(once, f);
  }

  lemma {:induction false} WithoutNothingSelected(cart: seq<CartLine>, f: LineFilter)
    requires forall i :: 0 <= i < |cart| ==> !Selects(f, cart[i])
    ensures Without(cart, f) == cart
  {
    if |cart| > 0 {
      WithoutNothingSelected(cart[1..], f);
      assert cart == [cart[0]] + cart[1..];
    }
  }

  lemma {:induction false} NoLinesNoItems(products: seq<ProductRow>, cart: seq<CartLine>, userId: int)
    requires CountWhere(cart, OfUser(userId)) == 0
    ensures CartItemsOf(products, cart, userId) == []
  {
    if |cart| > 0 {
      NoLinesNoItems(products, cart[1..], userId);
    }
  }

  /** A delete that selects none of user `v`'s lines leaves `v`'s cart page and item count as they were. */
  lemma {:induction false} DeleteInvisibleToUser(products: seq<ProductRow>, cart: seq<CartLine>, f: LineFilter, v: int)
    requires forall i :: 0 <= i < |cart| && Selects(f, cart[i]) ==> cart[i].userId != v
    ensures CartItemsOf(products, Without(cart, f), v) == CartItemsOf(products, cart, v)
    ensures QuantityWhere(Without(cart, f), OfUser(v)) == QuantityWhere(cart, OfUser(v))
  {
    if |cart| > 0 {
      var tail := cart[1..];
      assert forall i :: 0 <= i < |tail| ==> tail[i] == cart[i + 1];
      DeleteInvisibleToUser(products, tail, f, v);
      var after := Without(cart, f);
      if !Selects(f, cart[0]) {
        assert after == [cart[0]] + Without(tail, f);
        assert after[0] == cart[0] && after[1..] == Without(tail, f);
      } else {
        assert after == Without(tail, f);
      }
    }
  }

  /** `ClearCart` empties the user's cart page and count and leaves every other user's page and count as they were. */
  lemma ClearCartEffect(products: seq<ProductRow>, cart: seq<CartLine>, userId: int, other: int)
    requires other != userId
    ensures CartItemsOf(products, Without(cart, OfUser(userId)), userId) == []
    ensures QuantityWhere(Without(cart, OfUser(userId)), OfUser(userId)) == 0
    ensures CartItemsOf(products, Without(cart, OfUser(userId)), other) == CartItemsOf(products, cart, other)
    ensures QuantityWhere(Without(cart, OfUser(userId)), OfUser(other)) == QuantityWhere(cart, OfUser(other))
  {
    DeleteIdempotent(cart, OfUser(userId));
    NoLinesNoQuantity(Without(cart, OfUser(userId)), OfUser(userId));
    NoLinesNoItems(products, Without(cart, OfUser(userId)), userId);
    DeleteInvisibleToUser(products, cart, OfUser(userId), other);
  }

  /** `RemoveCartItem` changes only the page of the user owning that line: every other user's page and count stay. */
  lemma RemoveCartItemEffect(products: seq<ProductRow>, cart: seq<CartLine>, i: nat, other: int)
    requires CartOrdered(cart) && i < |cart| && other != cart[i].userId
    ensures !(cart[i] in Without(cart, WithCartId(cart[i].cartId)))
    ensures CartItemsOf(products, Without(cart, WithCartId(cart[i].cartId)), other) == CartItemsOf(products, cart, other)
    ensures QuantityWhere(Without(cart, WithCartId(cart[i].cartId)), OfUser(other)) == QuantityWhere(cart, OfUser(other))
  {
    DeleteInvisibleToUser(products, cart, WithCartId(cart[i].cartId), other);
  }

  // ----- What the reads promise -----

  /** Every cart id `GetCartItems` returns comes from one of the lines it read. */
  lemma {:induction false} ItemsIdsAbove(products: seq<ProductRow>, cart: seq<CartLine>, userId: int, bound: int)
    requires forall i :: 0 <= i < |cart| ==> cart[i].cartId > bound
    ensures forall j :: 0 <= j < |CartItemsOf(products, cart, userId)| ==> CartItemsOf(products, cart, userId)[j].cartId > bound
  {
    if |cart| > 0 {
      ItemsIdsAbove(products, cart[1..], userId, bound);
    }
  }

  /** `ORDER BY AddedDate DESC`: the page lists the newest line first; stamps and ids rise together, so ids strictly fall down the page. */
  predicate IdsFalling(items: seq<CartItem>) {
    forall a, b :: 0 <= a < b < |items| ==> items[a].cartId > items[b].cartId
  }

  lemma {:induction false} CartItemsNewestFirst(products: seq<ProductRow>, cart: seq<CartLine>, userId: int)
    requires CartOrdered(cart)
    ensures IdsFalling(CartItemsOf(products, cart, userId))
  {
    if |cart| > 0 {
      var tail := cart[1..];
      assert CartOrdered(tail) by {
        assert forall i :: 0 <= i < |tail| ==> tail[i] == cart[i + 1];
      }
      CartItemsNewestFirst(products, tail, userId);
      assert forall i :: 0 <= i < |tail| ==> tail[i].cartId > cart[0].cartId by {
        assert forall i :: 0 <= i < |tail| ==> tail[i] == cart[i + 1];
      }
      ItemsIdsAbove(products, tail, userId, cart[0].cartId);
      var rest := CartItemsOf(products, tail, userId);
      var items := CartItemsOf(products, cart, userId);
      assert IdsFalling(rest);
      if items != rest {
        var joined := JoinLine(cart[0], products[ProductIndex(products, cart[0].productId).value]);
        assert items == rest + [joined];
        forall a, b | 0 <= a < b < |items|
          ensures items[a].cartId > items[b].cartId
        {
          assert items[a] == rest[a];
          if b < |rest| {
            assert items[b] == rest[b];
          } else {
            assert items[b] == joined;
          }
        }
      }
    }
  }

  /** Every line of the user whose product exists is on the page, joined with that product. */
  lemma {:induction false} CartItemsComplete(products: seq<ProductRow>, cart: seq<CartLine>, userId: int, i: nat)
    requires i < |cart| && cart[i].userId == userId && ProductIndex(products, cart[i].productId).Some?
    ensures JoinLine(cart[i], products[ProductIndex(products, cart[i].productId).value]) in CartItemsOf(products, cart, userId)
  {
    if i > 0 {
      CartItemsComplete(products, cart[1..], userId, i - 1);
    }
  }

  /** Every item on the page is one of the user's lines joined with its product. */
  lemma {:induction false} CartItemsSound(products: seq<ProductRow>, cart: seq<CartLine>, userId: int, j: nat)
    requires j < |CartItemsOf(products, cart, userId)|
    ensures exists i :: (0 <= i < |cart| && cart[i].userId == userId && ProductIndex(products, cart[i].productId).Some?
      && CartItemsOf(products, cart, userId)[j] == JoinLine(cart[i], products[ProductIndex(products, cart[i].productId).value]))
  {
    var rest := CartItemsOf(products, cart[1..], userId);
    if j < |rest| {
      CartItemsSound(products, cart[1..], userId, j);
      var i :| 0 <= i < |cart[1..]| && cart[1..][i].userId == userId && ProductIndex(products, cart[1..][i].productId).Some?
        && rest[j] == JoinLine(cart[1..][i], products[ProductIndex(products, cart[1..][i].productId).value]);
      assert cart[i + 1] == cart[1..][i];
    } else {
      assert CartItemsOf(products, cart, userId)[j] == JoinLine(cart[0], products[ProductIndex(products, cart[0].productId).value]);
    }
  }

  /** When every line of the user joins a product, the cart page's item count equals the header count `GetCartItemCount` sums. */
  lemma {:induction false} CartPageMatchesCount(products: seq<ProductRow>, cart: seq<CartLine>, userId: int)
    requires forall i :: 0 <= i < |cart| && cart[i].userId == userId ==> ProductIndex(products, cart[i].productId).Some?
    ensures ItemCount(CartViewModel(CartItemsOf(products, cart, userId))) == QuantityWhere(cart, OfUser(userId))
  {
    if |cart| > 0 {
      var tail := cart[1..];
      assert forall i :: 0 <= i < |tail| ==> tail[i] == cart[i + 1];
      CartPageMatchesCount(products, tail, userId);
      var rest := CartItemsOf(products, tail, userId);
      assert SumQuantity(rest) == QuantityWhere(tail, OfUser(userId));
      if cart[0].userId == userId {
        var k := ProductIndex(products, cart[0].productId).value;
        var items := rest + [JoinLine(cart[0], products[k])];
        assert CartItemsOf(products, cart, userId) == items;
        assert items[..|items| - 1] == rest;
        assert SumQuantity(items) == SumQuantity(rest) + cart[0].quantity;
      } else {
        assert CartItemsOf(products, cart, userId) == rest;
      }
    }
  }

  lemma {:induction false} NameLeqTotal(a: string, b: string)
    ensures NameLeq(a, b) || NameLeq(b, a)
  {
    if |a| > 0 && |b| > 0 && a[0] == b[0] {
      NameLeqTotal(a[1..], b[1..]);
    }
  }

  lemma {:induction false} InsertKeepsSorted(row: ProductRow, rows: seq<ProductRow>)
    requires SortedByName(rows)
    ensures SortedByName(InsertByName(row, rows))
  {
    if |rows| > 0 && !NameLeq(row.name, rows[0].name) {
      NameLeqTotal(row.name, rows[0].name);
      var tail := rows[1..];
      assert SortedByName(tail) by {
        assert forall i :: 0 <= i < |tail| ==> tail[i] == rows[i + 1];
      }
      InsertKeepsSorted(row, tail);
      var r := InsertByName(row, rows);
      assert r == [rows[0]] + InsertByName(row, tail);
      forall i | 0 < i < |r|
        ensures NameLeq(r[i - 1].name, r[i].name)
      {
        if i == 1 {
          assert r[1] == InsertByName(row, tail)[0];
        } else {
          assert r[i - 1] == InsertByName(row, tail)[i - 2] && r[i] == InsertByName(row, tail)[i - 1];
        }
      }
    }
  }

  lemma {:induction false} SortByNameSorted(rows: seq<ProductRow>)
    ensures SortedByName(SortByName(rows))
  {
    if |rows| > 0 {
      SortByNameSorted(rows[1..]);
      InsertKeepsSorted(rows[0], SortByName(rows[1..]));
    }
  }

  /** `GetAvailableProducts` lists exactly the products in stock, each once, ordered by name, and every one of them shows as available. */
  lemma AvailableProductsSpec(products: seq<ProductRow>)
    ensures var rows := AvailableRows(products);
      && SortedByName(rows)
      && multiset(rows) == multiset(ProductsWhere(products, InStock))
      && (forall row :: row in rows <==> row in products && row.stock > 0)
      && (forall j :: 0 <= j < |rows| ==> IsAvailable(ToView(rows[j]).stock))
  {
    var rows := AvailableRows(products);
    SortByNameSorted(ProductsWhere(products, InStock));
    forall row
      ensures row in rows <==> row in products && row.stock > 0
    {
      assert row in rows <==> row in multiset(rows);
      assert row in ProductsWhere(products, InStock) <==> row in multiset(ProductsWhere(products, InStock));
    }
    forall j | 0 <= j < |rows|
      ensures IsAvailable(ToView(rows[j]).stock)
    {
      assert rows[j] in rows;
    }
  }

  /** The dashboard's stock lists agree with the product badges: out-of-stock rows are those badged "out of stock", and with threshold 9 the low-stock rows are the positive-stock rows badged "low stock". */
  lemma StockListsMatchBadges(products: seq<ProductRow>, row: ProductRow)
    ensures row in ProductsWhere(products, StockedOut) <==> row in products && TierOf(row.stock) == OutOfStockTier
    ensures row in ProductsWhere(products, LowStock(9)) <==> row in products && row.stock > 0 && TierOf(row.stock) == LowStockTier
    ensures !(row in ProductsWhere(products, StockedOut) && row in ProductsWhere(products, InStock))
  {
  }
}
