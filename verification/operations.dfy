/**
 The reservation operations (add, update, remove) and checkout, each as a pure
 function from the session state and the numbers the operator entered to the
 next state. Every operation validates all of its inputs before changing
 anything: a rejected call returns the state it was given.
 */
module Operations {
  import opened Sums
  import opened Model
  import opened Catalog
  import opened Cart

  /** The line a new reservation of `p` creates: id, name and price copied from the product. */
  function NewLine(p: Product, qty: int): (l: CartLine)
  {
    CartLine(p.id, p.name, p.price, qty)
  }

  /** Reserve `qty` units of the product at 1-based catalog position `idx`. */
  function AddToCart(s: State, idx: int, qty: int): (r: Reply)
    ensures r.status.Failed? ==> r.state == s
    ensures r.status == Failed(NoProducts) <==> |s.products| == 0
    ensures r.status == Failed(InvalidSelection) <==> |s.products| > 0 && !(1 <= idx <= |s.products|)
    ensures r.status == Failed(OutOfStock) <==> 1 <= idx <= |s.products| && s.products[idx - 1].stock <= 0
    ensures r.status == Failed(InvalidQuantity) <==>
              1 <= idx <= |s.products| && s.products[idx - 1].stock > 0 && !(1 <= qty <= s.products[idx - 1].stock)
    ensures r.status == Done <==> 1 <= idx <= |s.products| && 1 <= qty <= s.products[idx - 1].stock
    // the selected product loses exactly `qty` units and stays non-negative; no other product changes
    ensures r.status == Done ==>
              && SameCatalog(s.products, r.state.products)
              && r.state.products[idx - 1].stock == s.products[idx - 1].stock - qty >= 0
              && forall j :: 0 <= j < |s.products| && j != idx - 1 ==> r.state.products[j] == s.products[j]
    // a product already in the cart grows its first line; otherwise a snapshot line is appended
    ensures r.status == Done ==>
              match FindCartItem(s.cart, s.products[idx - 1].id)
              case None =>
                r.state.cart == s.cart + [NewLine(s.products[idx - 1], qty)]
              case Some(k) =>
                && |r.state.cart| == |s.cart|
                && r.state.cart[k] == s.cart[k].(qty := s.cart[k].qty + qty)
                && forall j :: 0 <= j < |s.cart| && j != k ==> r.state.cart[j] == s.cart[j]
  {
    if |s.products| == 0 then Reply(s, Failed(NoProducts))
    else if !(1 <= idx <= |s.products|) then Reply(s, Failed(InvalidSelection))
    else
      var p := s.products[idx - 1];
      if p.stock <= 0 then Reply(s, Failed(OutOfStock))
      else if !(1 <= qty <= p.stock) then Reply(s, Failed(InvalidQuantity))
      else
        var products := s.products[idx - 1 := p.(stock := p.stock - qty)];
        var cart :=
          match FindCartItem(s.cart, p.id)
          case Some(k) => s.cart[k := s.cart[k].(qty := s.cart[k].qty + qty)]
          case None => s.cart + [NewLine(p, qty)];
        Reply(State(products, cart), Done)
  }

  /** Set the quantity of the cart line at 1-based position `idx` to `newQty`,
      drawing the difference from, or returning it to, the product's stock. */
  function UpdateCartQty(s: State, idx: int, newQty: int): (r: Reply)
    ensures r.status.Failed? ==> r.state == s
    ensures r.status == Failed(CartEmpty) <==> |s.cart| == 0
    ensures r.status == Failed(InvalidSelection) <==> |s.cart| > 0 && !(1 <= idx <= |s.cart|)
    ensures r.status == Failed(ProductNotFound) <==>
              1 <= idx <= |s.cart| && !Catalogued(s.products, s.cart[idx - 1].productId)
    ensures r.status == Failed(InvalidQuantity) <==>
              1 <= idx <= |s.cart| && Catalogued(s.products, s.cart[idx - 1].productId)
              && var p := s.products[FindProduct(s.products, s.cart[idx - 1].productId).value];
                 !(1 <= newQty <= s.cart[idx - 1].qty + p.stock)
    ensures r.status == Done <==>
              1 <= idx <= |s.cart| && Catalogued(s.products, s.cart[idx - 1].productId)
              && var p := s.products[FindProduct(s.products, s.cart[idx - 1].productId).value];
                 1 <= newQty <= s.cart[idx - 1].qty + p.stock
    // the line takes the new quantity; the first product with its id absorbs the difference
    ensures r.status == Done ==>
              var line := s.cart[idx - 1];
              var k := FindProduct(s.products, line.productId).value;
              && 1 <= newQty
              && |r.state.cart| == |s.cart|
              && r.state.cart[idx - 1] == line.(qty := newQty)
              && (forall j :: 0 <= j < |s.cart| && j != idx - 1 ==> r.state.cart[j] == s.cart[j])
              && SameCatalog(s.products, r.state.products)
              && r.state.products[k].stock == s.products[k].stock - (newQty - line.qty) >= 0
              && (forall j :: 0 <= j < |s.products| && j != k ==> r.state.products[j] == s.products[j])
  {
    if |s.cart| == 0 then Reply(s, Failed(CartEmpty))
    else if !(1 <= idx <= |s.cart|) then Reply(s, Failed(InvalidSelection))
    else
      var line := s.cart[idx - 1];
      match FindProduct(s.products, line.productId)
      case None => Reply(s, Failed(ProductNotFound))
      case Some(k) =>
        var p := s.products[k];
        var maxQty := line.qty + p.stock;
        if !(1 <= newQty <= maxQty) then Reply(s, Failed(InvalidQuantity))
        else
          var diff := newQty - line.qty;
          var stock := if diff > 0 then p.stock - diff else if diff < 0 then p.stock + -diff else p.stock;
          Reply(State(s.products[k := p.(stock := stock)], s.cart[idx - 1 := line.(qty := newQty)]), Done)
  }

  /** Delete the cart line at 1-based position `idx` and give its units back to the
      first product with its id; when there is none, the units are dropped. */
  function RemoveFromCart(s: State, idx: int): (r: Reply)
    ensures r.status.Failed? ==> r.state == s
    ensures r.status == Failed(CartEmpty) <==> |s.cart| == 0
    ensures r.status == Failed(InvalidSelection) <==> |s.cart| > 0 && !(1 <= idx <= |s.cart|)
    ensures r.status == Done <==> 1 <= idx <= |s.cart|
    // exactly that line goes, the others keep their order
    ensures r.status == Done ==>
              && |r.state.cart| == |s.cart| - 1
              && (forall j :: 0 <= j < idx - 1 ==> r.state.cart[j] == s.cart[j])
              && (forall j :: idx - 1 <= j < |r.state.cart| ==> r.state.cart[j] == s.cart[j + 1])
    ensures r.status == Done ==>
              var line := s.cart[idx - 1];
              && SameCatalog(s.products, r.state.products)
              && (!Catalogued(s.products, line.productId) ==> r.state.products == s.products)
              && (Catalogued(s.products, line.productId) ==>
                    var k := FindProduct(s.products, line.productId).value;
                    && r.state.products[k].stock == s.products[k].stock + line.qty
                    && forall j :: 0 <= j < |s.products| && j != k ==> r.state.products[j] == s.products[j])
  {
    if |s.cart| == 0 then Reply(s, Failed(CartEmpty))
    else if !(1 <= idx <= |s.cart|) then Reply(s, Failed(InvalidSelection))
    else
      var line := s.cart[idx - 1];
      var cart := s.cart[..idx - 1] + s.cart[idx..];
      var products :=
        match FindProduct(s.products, line.productId)
        case Some(k) => s.products[k := s.products[k].(stock := s.products[k].stock + line.qty)]
        case None => s.products;
      Reply(State(products, cart), Done)
  }

  // ----- Checkout -----

  /** One printed receipt row. */
  datatype ReceiptLine = ReceiptLine(name: string, qty: int, lineTotal: int)

  datatype Receipt = Receipt(lines: seq<ReceiptLine>, total: int, payment: int, change: int)

  /** A completed sale, or why checkout did nothing. */
  datatype Sale = Sold(receipt: Receipt) | Refused(error: Error)

  datatype CheckoutReply = CheckoutReply(state: State, sale: Sale)

  /** The receipt rows for a cart, one per line in cart order. */
  function ReceiptLines(cart: seq<CartLine>): (rows: seq<ReceiptLine>)
    ensures |rows| == |cart|
    ensures forall k :: 0 <= k < |cart| ==>
              rows[k].name == cart[k].name && rows[k].qty == cart[k].qty
              && rows[k].lineTotal == cart[k].price * cart[k].qty
    ensures Sum(seq(|rows|, k requires 0 <= k < |rows| => rows[k].lineTotal)) == Total(cart)
  {
    var rows := seq(|cart|, k requires 0 <= k < |cart| => ReceiptLine(cart[k].name, cart[k].qty, cart[k].price * cart[k].qty));
    assert seq(|rows|, k requires 0 <= k < |rows| => rows[k].lineTotal) == Subtotals(cart);
    rows
  }

  /** Pay for the cart with `payment` cents: refuse an empty cart or an underpayment;
      otherwise give change, issue the receipt and empty the cart. Stock is never
      touched: it left the catalog when the units were reserved. */
  function Checkout(s: State, payment: int): (r: CheckoutReply)
    ensures r.state.products == s.products
    ensures r.sale.Refused? ==> r.state == s
    ensures r.sale == Refused(CartEmpty) <==> |s.cart| == 0
    ensures r.sale == Refused(InsufficientPayment) <==> |s.cart| > 0 && payment < Total(s.cart)
    ensures r.sale.Sold? <==> |s.cart| > 0 && payment >= Total(s.cart)
    ensures r.sale.Sold? ==>
              && r.state.cart == []
              && r.sale.receipt.total == Total(s.cart)
              && r.sale.receipt.payment == payment
              && r.sale.receipt.change >= 0
              && r.sale.receipt.change + r.sale.receipt.total == payment
              && |r.sale.receipt.lines| == |s.cart|
              && forall k :: 0 <= k < |s.cart| ==>
                   r.sale.receipt.lines[k].name == s.cart[k].name
                   && r.sale.receipt.lines[k].qty == s.cart[k].qty
                   && r.sale.receipt.lines[k].lineTotal == s.cart[k].price * s.cart[k].qty
  {
    var total := Total(s.cart);
    if |s.cart| == 0 then CheckoutReply(s, Refused(CartEmpty))
    else if payment < total then CheckoutReply(s, Refused(InsufficientPayment))
    else
      var change := payment - total;
      CheckoutReply(State(s.products, []), Sold(Receipt(ReceiptLines(s.cart), total, payment, change)))
  }
}
