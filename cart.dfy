/** The cart and order tables of `ProductService` in
    backend/product_service.py, held in memory: adding to the cart after
    three guard checks, removing one user's item, clearing one user's cart,
    totalling line items and placing an order. Prices are whole paise. */
module Cart {
  import opened Text
  import opened Catalog

  /** A row of the `cart` table. */
  datatype CartRow = CartRow(
    id: int,
    userEmail: string,
    productId: int,
    productName: string,
    price: int,
    quantity: int)

  /** A row of the `orders` table. */
  datatype Order = Order(id: int, userEmail: string, total: int)

  /** A cart item as `calculate_cart_total` reads it; `quantity` is None
      when the dictionary has no such key. */
  datatype LineItem = LineItem(price: int, quantity: Option<int>)

  // ---------------------------------------------------------------------
  // add_to_cart
  // ---------------------------------------------------------------------

  /** What `product['stock'] < quantity` raises on a NULL stock, as the
      handler prints it. */
  const StockTypeError: string :=
    "Failed to add to cart: '<' not supported between instances of 'NoneType' and 'int'"

  /** The three checks of `add_to_cart`, in their order: the product exists,
      the quantity is positive, the stock covers the quantity. */
  function AddCheck(products: seq<Product>, productId: int, quantity: int): (r: Result<Product, string>)
    ensures r.Ok? ==> r.value in products && r.value.id == productId
                      && 0 < quantity && r.value.stock.Some? && quantity <= r.value.stock.value
  {
    match FindProduct(products, productId)
    case None => Err("Product not found")
    case Some(p) =>
      if quantity <= 0 then Err("Quantity must be greater than 0")
      else
        match p.stock
        case None => Err(StockTypeError)
        case Some(s) =>
          if s < quantity then Err("Insufficient stock. Available: " + IntText(s)) else Ok(p)
  }

  /** The checks pass exactly for an existing product with a positive
      quantity no larger than its stock; a missing product is reported
      whatever the quantity, and a bad quantity before any stock problem. */
  lemma AddCheckOrder(products: seq<Product>, productId: int, quantity: int)
    ensures AddCheck(products, productId, quantity).Ok? <==>
              exists p :: p in products && p.id == productId
                          && FindProduct(products, productId) == Some(p)
                          && quantity > 0 && p.stock.Some? && p.stock.value >= quantity
    ensures AddCheck(products, productId, quantity).Ok? ==>
              AddCheck(products, productId, quantity).value == FindProduct(products, productId).value
    ensures (forall p :: p in products ==> p.id != productId) ==>
              AddCheck(products, productId, quantity) == Err("Product not found")
    ensures (exists p :: p in products && p.id == productId) && quantity <= 0 ==>
              AddCheck(products, productId, quantity) == Err("Quantity must be greater than 0")
    ensures FindProduct(products, productId).Some? && quantity > 0 &&
            FindProduct(products, productId).value.stock.None? ==>
              AddCheck(products, productId, quantity) == Err(StockTypeError)
    ensures forall s: int ::
              (FindProduct(products, productId).Some? && quantity > 0 &&
               FindProduct(products, productId).value.stock == Some(s) && s < quantity) ==>
                AddCheck(products, productId, quantity) == Err("Insufficient stock. Available: " + IntText(s))
  {
    if AddCheck(products, productId, quantity).Ok? {
      var p := FindProduct(products, productId).value;
      assert p in products && p.id == productId;
    }
  }

  /** The first row of this user for this product, or -1. */
  function FirstMatch(cart: seq<CartRow>, email: string, productId: int): (i: int)
    ensures -1 <= i < |cart|
    ensures i >= 0 ==> cart[i].userEmail == email && cart[i].productId == productId
    ensures forall j :: 0 <= j < |cart| && (i < 0 || j < i) ==>
              !(cart[j].userEmail == email && cart[j].productId == productId)
  {
    if cart == [] then -1
    else if cart[0].userEmail == email && cart[0].productId == productId then 0
    else
      var i := FirstMatch(cart[1..], email, productId);
      if i < 0 then -1 else i + 1
  }

  /** `UPDATE cart SET quantity = %s WHERE id = %s`. */
  function SetQuantity(cart: seq<CartRow>, id: int, quantity: int): (r: seq<CartRow>)
    ensures |r| == |cart|
    ensures forall i :: 0 <= i < |cart| ==>
              r[i] == if cart[i].id == id then cart[i].(quantity := quantity) else cart[i]
  {
    if cart == [] then []
    else [if cart[0].id == id then cart[0].(quantity := quantity) else cart[0]]
         + SetQuantity(cart[1..], id, quantity)
  }

  /** The cart and the next row id after a successful add: the quantity of
      the user's existing row for the product grows, or a row is appended. */
  function AfterAdd(cart: seq<CartRow>, nextId: int, p: Product, email: string, quantity: int)
    : (r: (seq<CartRow>, int))
    ensures r.1 == nextId || r.1 == nextId + 1
    ensures r.1 == nextId ==> |r.0| == |cart|
    ensures r.1 == nextId + 1 ==> r.0 == cart + [CartRow(nextId, email, p.id, p.name, p.price, quantity)]
  {
    var i := FirstMatch(cart, email, p.id);
    if i >= 0 then (SetQuantity(cart, cart[i].id, cart[i].quantity + quantity), nextId)
    else (cart + [CartRow(nextId, email, p.id, p.name, p.price, quantity)], nextId + 1)
  }

  /** Row ids are unique (the primary key). */
  predicate UniqueIds(cart: seq<CartRow>)
  {
    forall i, j :: 0 <= i < j < |cart| ==> cart[i].id != cart[j].id
  }

  /** How many of the product this user has in the cart, over all rows. */
  function QuantityOf(cart: seq<CartRow>, email: string, productId: int): int
  {
    if cart == [] then 0
    else (if cart[0].userEmail == email && cart[0].productId == productId then cart[0].quantity else 0)
         + QuantityOf(cart[1..], email, productId)
  }

  lemma {:induction false} QuantityOfAppend(a: seq<CartRow>, b: seq<CartRow>, email: string, productId: int)
    ensures QuantityOf(a + b, email, productId) == QuantityOf(a, email, productId) + QuantityOf(b, email, productId)
  {
    if a != [] {
      assert (a + b)[0] == a[0];
      assert (a + b)[1..] == a[1..] + b;
      QuantityOfAppend(a[1..], b, email, productId);
    } else {
      assert a + b == b;
    }
  }

  /** Changing the quantity of the one row with a given id moves the totals
      of that row's user and product by the difference, and no others. */
  lemma {:induction false} QuantityOfSet(cart: seq<CartRow>, i: int, q: int, email: string, productId: int)
    requires UniqueIds(cart) && 0 <= i < |cart|
    ensures QuantityOf(SetQuantity(cart, cart[i].id, q), email, productId)
            == QuantityOf(cart, email, productId)
               + (if cart[i].userEmail == email && cart[i].productId == productId
                  then q - cart[i].quantity else 0)
  {
    var r := SetQuantity(cart, cart[i].id, q);
    assert r[1..] == SetQuantity(cart[1..], cart[i].id, q);
    if i == 0 {
      assert forall j :: 0 <= j < |cart[1..]| ==> cart[1..][j].id != cart[0].id by {
        forall j | 0 <= j < |cart[1..]| ensures cart[1..][j].id != cart[0].id {
          assert cart[1..][j] == cart[j + 1];
        }
      }
      assert SetQuantity(cart[1..], cart[0].id, q) == cart[1..];
    } else {
      assert UniqueIds(cart[1..]) by {
        forall a, b | 0 <= a < b < |cart[1..]| ensures cart[1..][a].id != cart[1..][b].id {
          assert cart[1..][a] == cart[a + 1] && cart[1..][b] == cart[b + 1];
        }
      }
      assert cart[1..][i - 1] == cart[i];
      QuantityOfSet(cart[1..], i - 1, q, email, productId);
      assert r[0] == cart[0];
    }
  }

  lemma QuantityOfOne(row: CartRow, email: string, productId: int)
    ensures QuantityOf([row], email, productId)
            == if row.userEmail == email && row.productId == productId then row.quantity else 0
  {
    assert [row][1..] == [];
  }

  /** A successful add raises this user's quantity of the product by the
      quantity asked for and leaves every other (user, product) pair as it
      was. */
  lemma AddRaisesQuantity(cart: seq<CartRow>, nextId: int, p: Product, email: string, quantity: int,
                          email2: string, productId2: int)
    requires UniqueIds(cart)
    ensures QuantityOf(AfterAdd(cart, nextId, p, email, quantity).0, email2, productId2)
            == QuantityOf(cart, email2, productId2)
               + (if email2 == email && productId2 == p.id then quantity else 0)
  {
    var after := AfterAdd(cart, nextId, p, email, quantity).0;
    var i := FirstMatch(cart, email, p.id);
    if i >= 0 {
      var merged := SetQuantity(cart, cart[i].id, cart[i].quantity + quantity);
      assert after == merged;
      QuantityOfMerge(cart, i, quantity, email2, productId2);
    } else {
      var row := CartRow(nextId, email, p.id, p.name, p.price, quantity);
      assert after == cart + [row];
      QuantityOfSnoc(cart, row, email2, productId2);
    }
  }

  /** Raising the quantity of row `i` adds to its own (user, product) pair only. */
  lemma QuantityOfMerge(cart: seq<CartRow>, i: int, quantity: int, email: string, productId: int)
    requires UniqueIds(cart) && 0 <= i < |cart|
    ensures QuantityOf(SetQuantity(cart, cart[i].id, cart[i].quantity + quantity), email, productId)
            == QuantityOf(cart, email, productId)
               + (if cart[i].userEmail == email && cart[i].productId == productId then quantity else 0)
  {
    QuantityOfSet(cart, i, cart[i].quantity + quantity, email, productId);
  }

  /** Appending a row adds its quantity to its own (user, product) pair only. */
  lemma QuantityOfSnoc(cart: seq<CartRow>, row: CartRow, email: string, productId: int)
    ensures QuantityOf(cart + [row], email, productId)
            == QuantityOf(cart, email, productId)
               + (if row.userEmail == email && row.productId == productId then row.quantity else 0)
  {
    QuantityOfAppend(cart, [row], email, productId);
    QuantityOfOne(row, email, productId);
  }

  /** No two rows of the cart are for the same user and product. */
  predicate OneRowPerPair(cart: seq<CartRow>)
  {
    forall i, j :: 0 <= i < j < |cart| ==>
      !(cart[i].userEmail == cart[j].userEmail && cart[i].productId == cart[j].productId)
  }

  /** Adding keeps at most one row per (user, product): it either raises
      the quantity of the existing row or appends a row for a pair that had
      none. */
  lemma AddKeepsOneRowPerPair(cart: seq<CartRow>, nextId: int, p: Product, email: string, quantity: int)
    requires OneRowPerPair(cart)
    ensures OneRowPerPair(AfterAdd(cart, nextId, p, email, quantity).0)
  {
    var i := FirstMatch(cart, email, p.id);
    var after := AfterAdd(cart, nextId, p, email, quantity).0;
    if i >= 0 {
      assert forall k :: 0 <= k < |cart| ==>
               after[k].userEmail == cart[k].userEmail && after[k].productId == cart[k].productId;
    } else {
      assert forall k :: 0 <= k < |cart| ==> after[k] == cart[k];
    }
  }

  /** An add appends a row only when the user had none for the product, and
      otherwise keeps the number of rows. */
  lemma AddMergesOrAppends(cart: seq<CartRow>, nextId: int, p: Product, email: string, quantity: int)
    ensures var (after, next) := AfterAdd(cart, nextId, p, email, quantity);
            (exists j :: 0 <= j < |cart| && cart[j].userEmail == email && cart[j].productId == p.id)
            ==> |after| == |cart| && next == nextId
    ensures var (after, next) := AfterAdd(cart, nextId, p, email, quantity);
            (forall j :: 0 <= j < |cart| ==> !(cart[j].userEmail == email && cart[j].productId == p.id))
            ==> after == cart + [CartRow(nextId, email, p.id, p.name, p.price, quantity)] && next == nextId + 1
  {
  }

  /** The stock check looks at the requested quantity only: with one left
      in stock and one already in the cart, adding one more passes and the
      cart then holds two. */
  lemma StockCheckIgnoresCart(p: Product, email: string)
    requires p.stock == Some(1)
    ensures AddCheck([p], p.id, 1) == Ok(p)
    ensures var cart := [CartRow(1, email, p.id, p.name, p.price, 1)];
            QuantityOf(AfterAdd(cart, 2, p, email, 1).0, email, p.id) == 2
  {
    var cart := [CartRow(1, email, p.id, p.name, p.price, 1)];
    AddRaisesQuantity(cart, 2, p, email, 1, email, p.id);
    assert QuantityOf(cart, email, p.id) == 1 by {
      assert cart[1..] == [];
    }
  }

  // ---------------------------------------------------------------------
  // remove_from_cart and clear_cart
  // ---------------------------------------------------------------------

  /** `DELETE FROM cart WHERE id = %s AND user_email = %s`. */
  function WithoutItem(cart: seq<CartRow>, id: int, email: string): (r: seq<CartRow>)
    ensures forall x :: x in r <==> x in cart && !(x.id == id && x.userEmail == email)
  {
    if cart == [] then []
    else if cart[0].id == id && cart[0].userEmail == email then WithoutItem(cart[1..], id, email)
    else [cart[0]] + WithoutItem(cart[1..], id, email)
  }

  /** `DELETE FROM cart WHERE user_email = %s`. */
  function WithoutUser(cart: seq<CartRow>, email: string): (r: seq<CartRow>)
    ensures forall x :: x in r <==> x in cart && x.userEmail != email
  {
    if cart == [] then []
    else if cart[0].userEmail == email then WithoutUser(cart[1..], email)
    else [cart[0]] + WithoutUser(cart[1..], email)
  }

  /** The rows of one user, in table order. */
  function RowsOfUser(cart: seq<CartRow>, email: string): seq<CartRow>
  {
    if cart == [] then []
    else if cart[0].userEmail == email then [cart[0]] + RowsOfUser(cart[1..], email)
    else RowsOfUser(cart[1..], email)
  }

  /** Removing an item deletes exactly the rows with that id that belong to
      that user: another user's rows are untouched even if the id is theirs. */
  lemma {:induction false} RemoveScopedToUser(cart: seq<CartRow>, id: int, email: string, other: string)
    ensures forall r :: r in WithoutItem(cart, id, email) <==> r in cart && !(r.id == id && r.userEmail == email)
    ensures other != email ==> RowsOfUser(WithoutItem(cart, id, email), other) == RowsOfUser(cart, other)
  {
    if cart != [] {
      RemoveScopedToUser(cart[1..], id, email, other);
      assert cart == [cart[0]] + cart[1..];
      var rest := WithoutItem(cart[1..], id, email);
      assert ([cart[0]] + rest)[0] == cart[0] && ([cart[0]] + rest)[1..] == rest;
    }
  }

  /** Clearing a cart leaves that user no rows and every other user's rows
      as they were, in their order. */
  lemma {:induction false} ClearScopedToUser(cart: seq<CartRow>, email: string, other: string)
    ensures RowsOfUser(WithoutUser(cart, email), email) == []
    ensures other != email ==> RowsOfUser(WithoutUser(cart, email), other) == RowsOfUser(cart, other)
    ensures forall r :: r in WithoutUser(cart, email) <==> r in cart && r.userEmail != email
  {
    if cart != [] {
      ClearScopedToUser(cart[1..], email, other);
      assert cart == [cart[0]] + cart[1..];
      var rest := WithoutUser(cart[1..], email);
      assert ([cart[0]] + rest)[0] == cart[0] && ([cart[0]] + rest)[1..] == rest;
    }
  }

  // ---------------------------------------------------------------------
  // calculate_cart_total
  // ---------------------------------------------------------------------

  /** `int(item.get('quantity', 1))`. */
  function ItemQuantity(item: LineItem): int
  {
    match item.quantity
    case None => 1
    case Some(q) => q
  }

  /** `calculate_cart_total`: the sum of price times quantity, left to right. */
  function CartTotal(items: seq<LineItem>): (r: int)
    ensures items == [] ==> r == 0
    ensures (forall i :: 0 <= i < |items| ==> items[i].price >= 0 && ItemQuantity(items[i]) >= 0) ==> r >= 0
  {
    if items == [] then 0
    else CartTotal(items[..|items| - 1]) + items[|items| - 1].price * ItemQuantity(items[|items| - 1])
  }

  /** The total of two lists of items is the sum of their totals. */
  lemma {:induction false} CartTotalAppend(a: seq<LineItem>, b: seq<LineItem>)
    ensures CartTotal(a + b) == CartTotal(a) + CartTotal(b)
  {
    if b != [] {
      assert (a + b)[..|a + b| - 1] == a + b[..|b| - 1];
      CartTotalAppend(a, b[..|b| - 1]);
    } else {
      assert a + b == a;
    }
  }

  /** An empty cart totals 0; with prices and quantities never negative
      the total is never negative, and an item without a quantity counts
      once. */
  lemma {:induction false} CartTotalBounds(items: seq<LineItem>)
    ensures items == [] ==> CartTotal(items) == 0
    ensures (forall i :: 0 <= i < |items| ==> items[i].price >= 0 && ItemQuantity(items[i]) >= 0)
            ==> CartTotal(items) >= 0
    ensures forall price :: CartTotal([LineItem(price, None)]) == price
  {
    if items != [] {
      CartTotalBounds(items[..|items| - 1]);
      var last := items[|items| - 1];
      if last.price >= 0 && ItemQuantity(last) >= 0 {
        assert last.price * ItemQuantity(last) >= 0;
      }
    }
    forall price ensures CartTotal([LineItem(price, None)]) == price {
      assert [LineItem(price, None)][..0] == [];
    }
  }

  /** The rows the JOIN with `products` keeps: those whose product is
      still in the table, in their order. */
  function Joined(rows: seq<CartRow>, products: seq<Product>): (r: seq<CartRow>)
    ensures |r| <= |rows|
    ensures forall x :: x in r <==> x in rows && exists p :: p in products && p.id == x.productId
  {
    if rows == [] then []
    else
      var rest := Joined(rows[1..], products);
      if FindProduct(products, rows[0].productId).Some? then [rows[0]] + rest else rest
  }

  /** The items `get_cart_items` lists for one user: that user's rows whose
      product still exists, newest first. */
  function CartItems(cart: seq<CartRow>, products: seq<Product>, email: string): (r: seq<LineItem>)
    ensures |r| <= |RowsOfUser(cart, email)|
  {
    ItemsOf(Joined(RowsOfUser(cart, email), products))
  }

  /** The cart page's items of a list of rows, newest first as
      `ORDER BY created_at DESC` lists them. */
  function ItemsOf(rows: seq<CartRow>): (r: seq<LineItem>)
    ensures |r| == |rows|
    ensures forall i :: 0 <= i < |rows| ==>
              r[i] == LineItem(rows[|rows| - 1 - i].price, Some(rows[|rows| - 1 - i].quantity))
  {
    if rows == [] then [] else ItemsOf(rows[1..]) + [LineItem(rows[0].price, Some(rows[0].quantity))]
  }

  /** The total over those items is each row's price times its quantity,
      summed over the user's rows. */
  lemma {:induction false} ItemsOfTotal(rows: seq<CartRow>)
    ensures CartTotal(ItemsOf(rows)) == RowsTotal(rows)
  {
    if rows != [] {
      ItemsOfTotal(rows[1..]);
      var item := LineItem(rows[0].price, Some(rows[0].quantity));
      assert ItemsOf(rows) == ItemsOf(rows[1..]) + [item];
      CartTotalAppend(ItemsOf(rows[1..]), [item]);
      assert CartTotal([item]) == rows[0].price * rows[0].quantity by {
        assert [item][..0] == [];
      }
    }
  }

  function RowsTotal(rows: seq<CartRow>): int
  {
    if rows == [] then 0 else rows[0].price * rows[0].quantity + RowsTotal(rows[1..])
  }

  /** `str(total)`: the empty sum is the integer 0, any other a float. */
  function TotalText(items: seq<LineItem>): (r: string)
    ensures items == [] ==> r == "0"
    ensures items != [] ==> r == FloatText(CartTotal(items)) && '.' in r
  {
    if items == [] then "0" else FloatText(CartTotal(items))
  }

  // ---------------------------------------------------------------------
  // The tables
  // ---------------------------------------------------------------------

  /** The products, cart and orders tables; new cart and order rows take the
      next auto-increment id. */
  class Shop {
    var products: seq<Product>
    var cart: seq<CartRow>
    var orders: seq<Order>
    var nextCartId: int
    var nextOrderId: int

    /** Ids are unique and below the next auto-increment value. */
    ghost predicate Valid()
      reads this
    {
      && UniqueIds(cart)
      && (forall i :: 0 <= i < |cart| ==> cart[i].id < nextCartId)
      && (forall i :: 0 <= i < |orders| ==> orders[i].id < nextOrderId)
    }

    constructor (products: seq<Product>)
      ensures Valid()
      ensures this.products == products && cart == [] && orders == []
    {
      this.products := products;
      cart := [];
      orders := [];
      nextCartId := 1;
      nextOrderId := 1;
    }

    /** `add_to_cart`: the three checks in order (a NULL stock makes the
        comparison raise), then a merge into the user's existing row for the
        product or a new row carrying the product's current name and price.
        `notice` is what the page shows. */
    method AddToCart(email: string, productId: int, quantity: int) returns (ok: bool, notice: string)
      requires Valid()
      modifies this
      ensures Valid()
      ensures products == old(products) && orders == old(orders) && nextOrderId == old(nextOrderId)
      ensures ok <==> AddCheck(old(products), productId, quantity).Ok?
      ensures !ok ==> notice == AddCheck(old(products), productId, quantity).error
                      && cart == old(cart) && nextCartId == old(nextCartId)
      ensures ok ==> notice == "Added to cart!"
                     && (cart, nextCartId)
                        == AfterAdd(old(cart), old(nextCartId), AddCheck(old(products), productId, quantity).value,
                                    email, quantity)
    {
      var product := FindProduct(products, productId);
      if product.None? {
        return false, "Product not found";
      }
      if quantity <= 0 {
        return false, "Quantity must be greater than 0";
      }
      if product.value.stock.None? {
        return false, StockTypeError;
      }
      if product.value.stock.value < quantity {
        return false, "Insufficient stock. Available: " + IntText(product.value.stock.value);
      }
      var i := FirstMatch(cart, email, productId);
      if i >= 0 {
        var newQuantity := cart[i].quantity + quantity;
        cart := SetQuantity(cart, cart[i].id, newQuantity);
      } else {
        var p := product.value;
        cart := cart + [CartRow(nextCartId, email, productId, p.name, p.price, quantity)];
        nextCartId := nextCartId + 1;
      }
      return true, "Added to cart!";
    }

    /** `remove_from_cart`. */
    method RemoveFromCart(cartItemId: int, email: string) returns (ok: bool)
      requires Valid()
      modifies this
      ensures Valid()
      ensures ok
      ensures cart == WithoutItem(old(cart), cartItemId, email)
      ensures products == old(products) && orders == old(orders)
      ensures nextCartId == old(nextCartId) && nextOrderId == old(nextOrderId)
    {
      var kept := WithoutItem(cart, cartItemId, email);
      RemoveKeeps(cart, cartItemId, email, nextCartId);
      cart := kept;
      return true;
    }

    /** `clear_cart`. */
    method ClearCart(email: string) returns (ok: bool)
      requires Valid()
      modifies this
      ensures Valid()
      ensures ok
      ensures cart == WithoutUser(old(cart), email)
      ensures products == old(products) && orders == old(orders)
      ensures nextCartId == old(nextCartId) && nextOrderId == old(nextOrderId)
    {
      var kept := WithoutUser(cart, email);
      ClearKeeps(cart, email, nextCartId);
      cart := kept;
      return true;
    }

    /** `place_order`: one order row carrying the total of the given items,
        then the user's cart is cleared. */
    method PlaceOrder(email: string, items: seq<LineItem>) returns (ok: bool, notice: string)
      requires Valid()
      modifies this
      ensures Valid()
      ensures ok
      ensures orders == old(orders) + [Order(old(nextOrderId), email, CartTotal(items))]
      ensures nextOrderId == old(nextOrderId) + 1
      ensures cart == WithoutUser(old(cart), email)
      ensures products == old(products) && nextCartId == old(nextCartId)
      ensures notice == "Order placed successfully! Total: \U{E2}\U{201A}\U{B9}" + TotalText(items)
    {
      var total := CartTotal(items);
      orders := orders + [Order(nextOrderId, email, total)];
      nextOrderId := nextOrderId + 1;
      var cleared := ClearCart(email);
      notice := "Order placed successfully! Total: \U{E2}\U{201A}\U{B9}" + TotalText(items);
      return true, notice;
    }
  }

  /** Deleting rows keeps the ids unique and the rows that stay. */
  lemma {:induction false} RemoveKeeps(cart: seq<CartRow>, id: int, email: string, bound: int)
    requires UniqueIds(cart)
    requires forall i :: 0 <= i < |cart| ==> cart[i].id < bound
    ensures UniqueIds(WithoutItem(cart, id, email))
    ensures forall r :: r in WithoutItem(cart, id, email) ==> r in cart
    ensures forall i :: 0 <= i < |WithoutItem(cart, id, email)| ==> WithoutItem(cart, id, email)[i].id < bound
  {
    if cart != [] {
      assert UniqueIds(cart[1..]) by {
        forall a, b | 0 <= a < b < |cart[1..]| ensures cart[1..][a].id != cart[1..][b].id {
          assert cart[1..][a] == cart[a + 1] && cart[1..][b] == cart[b + 1];
        }
      }
      RemoveKeeps(cart[1..], id, email, bound);
      var rest := WithoutItem(cart[1..], id, email);
      if !(cart[0].id == id && cart[0].userEmail == email) {
        forall k | 0 <= k < |rest| ensures rest[k].id != cart[0].id {
          assert rest[k] in rest;
          assert rest[k] in cart[1..];
        }
      }
    }
  }

  lemma {:induction false} ClearKeeps(cart: seq<CartRow>, email: string, bound: int)
    requires UniqueIds(cart)
    requires forall i :: 0 <= i < |cart| ==> cart[i].id < bound
    ensures UniqueIds(WithoutUser(cart, email))
    ensures forall r :: r in WithoutUser(cart, email) ==> r in cart
    ensures forall i :: 0 <= i < |WithoutUser(cart, email)| ==> WithoutUser(cart, email)[i].id < bound
  {
    if cart != [] {
      assert UniqueIds(cart[1..]) by {
        forall a, b | 0 <= a < b < |cart[1..]| ensures cart[1..][a].id != cart[1..][b].id {
          assert cart[1..][a] == cart[a + 1] && cart[1..][b] == cart[b + 1];
        }
      }
      ClearKeeps(cart[1..], email, bound);
      var rest := WithoutUser(cart[1..], email);
      if cart[0].userEmail != email {
        forall k | 0 <= k < |rest| ensures rest[k].id != cart[0].id {
          assert rest[k] in rest;
          assert rest[k] in cart[1..];
        }
      }
    }
  }

  /** Placing an order from the items the cart page lists records the sum
      of price times quantity over the user's rows whose product still
      exists; afterwards the user has no rows left, including rows whose
      product is gone and which were never charged, and the others keep
      theirs. */
  lemma OrderFromOwnCart(cart: seq<CartRow>, products: seq<Product>, email: string, other: string)
    ensures CartTotal(CartItems(cart, products, email)) == RowsTotal(Joined(RowsOfUser(cart, email), products))
    ensures RowsOfUser(WithoutUser(cart, email), email) == []
    ensures other != email ==> RowsOfUser(WithoutUser(cart, email), other) == RowsOfUser(cart, other)
  {
    ItemsOfTotal(Joined(RowsOfUser(cart, email), products));
    ClearScopedToUser(cart, email, other);
  }
}
