/**
 The data of one shop session: the catalog of products and the cart of
 reserved lines, both kept in entry order. Money is held in whole cents.
 */
module Model {
  import opened Sums

  datatype Option<T> = None | Some(value: T)

  /** A catalog product. `id` is its 1-based position at setup; only `stock` ever changes. */
  datatype Product = Product(id: int, name: string, price: int, stock: int)

  /** A cart line: the product it reserves, a name and price snapshot taken when the
      line was created, and the number of units reserved. */
  datatype CartLine = CartLine(productId: int, name: string, price: int, qty: int)

  datatype State = State(products: seq<Product>, cart: seq<CartLine>)

  /** Why an operation was rejected. */
  datatype Error =
    | NoProducts            // add on an empty catalog
    | CartEmpty             // update, remove or checkout on an empty cart
    | InvalidSelection      // a product or cart number outside 1..length
    | OutOfStock            // add on a product whose stock is zero
    | InvalidQuantity       // a quantity outside the currently allowed range
    | ProductNotFound       // a cart line whose product id is not in the catalog
    | InsufficientPayment   // a payment below the cart total

  datatype Status = Done | Failed(error: Error)

  /** The state after an operation, together with whether it took effect. */
  datatype Reply = Reply(state: State, status: Status)

  // ----- Validity -----

  predicate ValidProduct(p: Product)
  {
    p.name != [] && p.price >= 1 && p.stock >= 0
  }

  predicate ValidLine(l: CartLine)
  {
    l.price >= 1 && l.qty >= 1
  }

  predicate UniqueProductIds(products: seq<Product>)
  {
    forall i, j :: 0 <= i < j < |products| ==> products[i].id != products[j].id
  }

  /** No two cart lines reserve the same product. */
  predicate UniqueLineIds(cart: seq<CartLine>)
  {
    forall i, j :: 0 <= i < j < |cart| ==> cart[i].productId != cart[j].productId
  }

  predicate Catalogued(products: seq<Product>, id: int)
  {
    exists i :: 0 <= i < |products| && products[i].id == id
  }

  /** The well-formedness a session starts with and every operation keeps. */
  predicate Valid(s: State)
  {
    && (forall i :: 0 <= i < |s.products| ==> ValidProduct(s.products[i]))
    && UniqueProductIds(s.products)
    && (forall k :: 0 <= k < |s.cart| ==> ValidLine(s.cart[k]))
    && UniqueLineIds(s.cart)
    && (forall k :: 0 <= k < |s.cart| ==> Catalogued(s.products, s.cart[k].productId))
  }

  /** `after` lists the same products as `before` (ids, names, prices); only stock may differ. */
  predicate SameCatalog(before: seq<Product>, after: seq<Product>)
  {
    && |after| == |before|
    && forall i :: 0 <= i < |before| ==>
         after[i].id == before[i].id && after[i].name == before[i].name && after[i].price == before[i].price
  }

  // ----- Quantities that are summed -----

  /** Per product, its stock if it carries `id`, else zero. */
  function StockColumn(products: seq<Product>, id: int): (col: seq<int>)
    ensures |col| == |products|
  {
    seq(|products|, i requires 0 <= i < |products| => if products[i].id == id then products[i].stock else 0)
  }

  /** Units of product `id` still available in the catalog. */
  function StockOf(products: seq<Product>, id: int): (r: int)
  {
    Sum(StockColumn(products, id))
  }

  /** Per cart line, its quantity if it reserves `id`, else zero. */
  function QtyColumn(cart: seq<CartLine>, id: int): (col: seq<int>)
    ensures |col| == |cart|
  {
    seq(|cart|, k requires 0 <= k < |cart| => if cart[k].productId == id then cart[k].qty else 0)
  }

  /** Units of product `id` reserved by the cart. */
  function Reserved(cart: seq<CartLine>, id: int): (r: int)
  {
    Sum(QtyColumn(cart, id))
  }

  /** Units of product `id` the session holds: available plus reserved. */
  function Held(s: State, id: int): (r: int)
  {
    StockOf(s.products, id) + Reserved(s.cart, id)
  }

  /** Per cart line, price times quantity. */
  function Subtotals(cart: seq<CartLine>): (col: seq<int>)
    ensures |col| == |cart|
  {
    seq(|cart|, k requires 0 <= k < |cart| => cart[k].price * cart[k].qty)
  }

  /** What the cart costs, using the prices snapshotted in its lines. */
  function Total(cart: seq<CartLine>): (r: int)
  {
    Sum(Subtotals(cart))
  }

  /** With distinct ids, the stock held for a product's id is that product's own stock. */
  lemma StockOfUnique(products: seq<Product>, i: int)
    requires UniqueProductIds(products)
    requires 0 <= i < |products|
    ensures StockOf(products, products[i].id) == products[i].stock
  {
    SumSingle(StockColumn(products, products[i].id), i);
  }

  /** With distinct cart ids, the units reserved for a line's product are that line's quantity. */
  lemma ReservedUnique(cart: seq<CartLine>, k: int)
    requires UniqueLineIds(cart)
    requires 0 <= k < |cart|
    ensures Reserved(cart, cart[k].productId) == cart[k].qty
  {
    SumSingle(QtyColumn(cart, cart[k].productId), k);
  }

  /** A product id that is in no cart line has nothing reserved. */
  lemma ReservedAbsent(cart: seq<CartLine>, id: int)
    requires forall k :: 0 <= k < |cart| ==> cart[k].productId != id
    ensures Reserved(cart, id) == 0
  {
    SumZero(QtyColumn(cart, id));
  }

  /** A non-empty cart of valid lines costs at least one cent per line. */
  lemma TotalPositive(cart: seq<CartLine>)
    requires forall k :: 0 <= k < |cart| ==> ValidLine(cart[k])
    ensures Total(cart) >= |cart|
  {
    var col := Subtotals(cart);
    forall k | 0 <= k < |col|
      ensures col[k] >= 1
    {
      assert col[k] == cart[k].price * cart[k].qty;
      assert cart[k].price >= 1 && cart[k].qty >= 1;
    }
    SumAtLeastLength(col);
  }

  // ----- How the sums move under single edits -----

  lemma StockOfUpdate(products: seq<Product>, k: int, p: Product, id: int)
    requires 0 <= k < |products|
    ensures StockOf(products[k := p], id)
         == StockOf(products, id)
            - (if products[k].id == id then products[k].stock else 0)
            + (if p.id == id then p.stock else 0)
  {
    var col := StockColumn(products, id);
    assert StockColumn(products[k := p], id) == col[k := if p.id == id then p.stock else 0];
    SumUpdate(col, k, if p.id == id then p.stock else 0);
  }

  lemma ReservedUpdate(cart: seq<CartLine>, k: int, l: CartLine, id: int)
    requires 0 <= k < |cart|
    ensures Reserved(cart[k := l], id)
         == Reserved(cart, id)
            - (if cart[k].productId == id then cart[k].qty else 0)
            + (if l.productId == id then l.qty else 0)
  {
    var col := QtyColumn(cart, id);
    assert QtyColumn(cart[k := l], id) == col[k := if l.productId == id then l.qty else 0];
    SumUpdate(col, k, if l.productId == id then l.qty else 0);
  }

  lemma ReservedAppend(cart: seq<CartLine>, l: CartLine, id: int)
    ensures Reserved(cart + [l], id) == Reserved(cart, id) + (if l.productId == id then l.qty else 0)
  {
    var col := QtyColumn(cart + [l], id);
    assert col[..|col| - 1] == QtyColumn(cart, id);
  }

  lemma ReservedRemove(cart: seq<CartLine>, k: int, id: int)
    requires 0 <= k < |cart|
    ensures Reserved(cart[..k] + cart[k + 1..], id)
         == Reserved(cart, id) - (if cart[k].productId == id then cart[k].qty else 0)
  {
    var col := QtyColumn(cart, id);
    assert QtyColumn(cart[..k] + cart[k + 1..], id) == col[..k] + col[k + 1..];
    SumRemove(col, k);
  }
}
