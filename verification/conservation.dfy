/**
 What the operations keep: every unit of a product is either in stock or
 reserved by the cart, the session stays well-formed, and the reservation
 operations undo one another.
 */
module Conservation {
  import opened Sums
  import opened Model
  import opened Catalog
  import opened Cart
  import opened Operations

  // ----- Conservation of units -----

  /** Adding moves units from stock into the cart: for every product id, stock plus
      reserved units is unchanged, whether the add succeeds or is rejected. */
  lemma {:induction false} AddConserves(s: State, idx: int, qty: int, id: int)
    ensures Held(AddToCart(s, idx, qty).state, id) == Held(s, id)
  {
    var r := AddToCart(s, idx, qty);
    if r.status == Done {
      var p := s.products[idx - 1];
      StockOfUpdate(s.products, idx - 1, p.(stock := p.stock - qty), id);
      match FindCartItem(s.cart, p.id)
      case Some(k) =>
        ReservedUpdate(s.cart, k, s.cart[k].(qty := s.cart[k].qty + qty), id);
      case None =>
        ReservedAppend(s.cart, NewLine(p, qty), id);
    }
  }

  /** Changing a line's quantity moves the difference between the line and its
      product's stock: stock plus reserved units is unchanged for every id. */
  lemma {:induction false} UpdateConserves(s: State, idx: int, newQty: int, id: int)
    ensures Held(UpdateCartQty(s, idx, newQty).state, id) == Held(s, id)
  {
    var r := UpdateCartQty(s, idx, newQty);
    if r.status == Done {
      var line := s.cart[idx - 1];
      var k := FindProduct(s.products, line.productId).value;
      StockOfUpdate(s.products, k, r.state.products[k], id);
      ReservedUpdate(s.cart, idx - 1, line.(qty := newQty), id);
    }
  }

  /** Removing a line returns its units to the catalog, so stock plus reserved units
      is unchanged for every product the catalog lists. (Units of a line whose
      product is missing from the catalog are dropped.) */
  lemma {:induction false} RemoveConserves(s: State, idx: int, id: int)
    requires Catalogued(s.products, id)
    ensures Held(RemoveFromCart(s, idx).state, id) == Held(s, id)
  {
    var r := RemoveFromCart(s, idx);
    if r.status == Done {
      var line := s.cart[idx - 1];
      assert s.cart[idx..] == s.cart[idx - 1 + 1..];
      ReservedRemove(s.cart, idx - 1, id);
      match FindProduct(s.products, line.productId)
      case Some(k) =>
        StockOfUpdate(s.products, k, r.state.products[k], id);
      case None =>
        assert line.productId != id;
    }
  }

  // ----- Distinct cart lines -----

  /** Add merges into an existing line rather than opening a second one, so no two
      cart lines ever reserve the same product. */
  lemma AddKeepsLinesDistinct(s: State, idx: int, qty: int)
    requires UniqueLineIds(s.cart)
    ensures UniqueLineIds(AddToCart(s, idx, qty).state.cart)
  {
  }

  // ----- Well-formedness -----

  lemma AddKeepsValid(s: State, idx: int, qty: int)
    requires Valid(s)
    ensures Valid(AddToCart(s, idx, qty).state)
  {
    var r := AddToCart(s, idx, qty);
    if r.status == Done {
      AddKeepsLinesDistinct(s, idx, qty);
      var s' := r.state;
      forall k | 0 <= k < |s'.cart|
        ensures Catalogued(s'.products, s'.cart[k].productId)
      {
        if k < |s.cart| {
          var i :| 0 <= i < |s.products| && s.products[i].id == s.cart[k].productId;
          assert s'.products[i].id == s'.cart[k].productId;
        } else {
          assert s'.products[idx - 1].id == s'.cart[k].productId;
        }
      }
    }
  }

  lemma UpdateKeepsValid(s: State, idx: int, newQty: int)
    requires Valid(s)
    ensures Valid(UpdateCartQty(s, idx, newQty).state)
  {
    var r := UpdateCartQty(s, idx, newQty);
    if r.status == Done {
      var s' := r.state;
      forall k | 0 <= k < |s'.cart|
        ensures Catalogued(s'.products, s'.cart[k].productId)
      {
        var i :| 0 <= i < |s.products| && s.products[i].id == s.cart[k].productId;
        assert s'.products[i].id == s'.cart[k].productId;
      }
    }
  }

  lemma RemoveKeepsValid(s: State, idx: int)
    requires Valid(s)
    ensures Valid(RemoveFromCart(s, idx).state)
  {
    var r := RemoveFromCart(s, idx);
    if r.status == Done {
      var s' := r.state;
      forall k | 0 <= k < |s'.cart|
        ensures Catalogued(s'.products, s'.cart[k].productId)
      {
        var k0 := if k < idx - 1 then k else k + 1;
        assert s'.cart[k] == s.cart[k0];
        var i :| 0 <= i < |s.products| && s.products[i].id == s.cart[k0].productId;
        assert s'.products[i].id == s'.cart[k].productId;
      }
      forall i, j | 0 <= i < j < |s'.cart|
        ensures s'.cart[i].productId != s'.cart[j].productId
      {
        var i0 := if i < idx - 1 then i else i + 1;
        var j0 := if j < idx - 1 then j else j + 1;
        assert s'.cart[i] == s.cart[i0] && s'.cart[j] == s.cart[j0];
      }
    }
  }

  lemma CheckoutKeepsValid(s: State, payment: int)
    requires Valid(s)
    ensures Valid(Checkout(s, payment).state)
  {
  }

  /** In a well-formed session every cart line's product is in the catalog, so the
      data-integrity rejection of update never happens. */
  lemma UpdateNeverMissesProduct(s: State, idx: int, newQty: int)
    requires Valid(s)
    ensures UpdateCartQty(s, idx, newQty).status != Failed(ProductNotFound)
  {
  }

  // ----- Operations undoing one another -----

  /** Setting a line to a new quantity and then back to its old one restores the
      session exactly. */
  lemma UpdateRoundTrip(s: State, idx: int, newQty: int)
    requires UpdateCartQty(s, idx, newQty).status == Done
    requires s.cart[idx - 1].qty >= 1
    requires forall i :: 0 <= i < |s.products| ==> s.products[i].stock >= 0
    ensures UpdateCartQty(UpdateCartQty(s, idx, newQty).state, idx, s.cart[idx - 1].qty) == Reply(s, Done)
  {
    var s1 := UpdateCartQty(s, idx, newQty).state;
    var line := s.cart[idx - 1];
    var k := FindProduct(s.products, line.productId).value;
    FindProductSameCatalog(s.products, s1.products, line.productId);
    assert s1.cart[idx - 1] == line.(qty := newQty);
    var s2 := UpdateCartQty(s1, idx, line.qty).state;
    assert s2.products[k].stock == s.products[k].stock;
    assert s2.products[k] == s.products[k];
    assert s2.products == s.products;
    assert s2.cart == s.cart;
  }

  /** Adding a product the cart lacks and then removing the line it created restores
      the session exactly (the catalog's ids being distinct, so the units go back to
      the product they came from). */
  lemma AddThenRemove(s: State, idx: int, qty: int)
    requires UniqueProductIds(s.products)
    requires AddToCart(s, idx, qty).status == Done
    requires forall k :: 0 <= k < |s.cart| ==> s.cart[k].productId != s.products[idx - 1].id
    ensures var s1 := AddToCart(s, idx, qty).state;
            RemoveFromCart(s1, |s1.cart|) == Reply(s, Done)
  {
    var s1 := AddToCart(s, idx, qty).state;
    FindProductUnique(s.products, idx - 1);
    FindProductSameCatalog(s.products, s1.products, s.products[idx - 1].id);
    var s2 := RemoveFromCart(s1, |s1.cart|).state;
    assert s2.cart == s1.cart[..|s.cart|] == s.cart;
    assert s2.products[idx - 1] == s.products[idx - 1];
    assert s2.products == s.products;
  }

  /** Adding `a` units and then `b` units of one product leaves the same session as
      adding `a + b` units at once: a single line holds the sum. */
  lemma AddMerges(s: State, idx: int, a: int, b: int)
    requires AddToCart(s, idx, a).status == Done
    requires 1 <= b && a + b <= s.products[idx - 1].stock
    ensures AddToCart(AddToCart(s, idx, a).state, idx, b) == AddToCart(s, idx, a + b)
  {
    var r2 := AddToCart(AddToCart(s, idx, a).state, idx, b);
    var rd := AddToCart(s, idx, a + b);
    AddMergesCatalog(s, idx, a, b);
    AddMergesCart(s, idx, a, b);
    assert r2.state == rd.state;
  }

  lemma AddMergesCatalog(s: State, idx: int, a: int, b: int)
    requires AddToCart(s, idx, a).status == Done
    requires 1 <= b && a + b <= s.products[idx - 1].stock
    ensures AddToCart(AddToCart(s, idx, a).state, idx, b).status == Done
    ensures AddToCart(s, idx, a + b).status == Done
    ensures AddToCart(AddToCart(s, idx, a).state, idx, b).state.products
         == AddToCart(s, idx, a + b).state.products
  {
    var p := s.products[idx - 1];
    var s1 := AddToCart(s, idx, a).state;
    var p1 := s1.products[idx - 1];
    assert p1 == p.(stock := p.stock - a);
    var products := s.products[idx - 1 := p.(stock := p.stock - (a + b))];
    assert AddToCart(s1, idx, b).state.products == s1.products[idx - 1 := p1.(stock := p1.stock - b)] == products;
  }

  lemma AddMergesCart(s: State, idx: int, a: int, b: int)
    requires AddToCart(s, idx, a).status == Done
    requires 1 <= b && a + b <= s.products[idx - 1].stock
    ensures AddToCart(AddToCart(s, idx, a).state, idx, b).state.cart
         == AddToCart(s, idx, a + b).state.cart
  {
    var p := s.products[idx - 1];
    var s1 := AddToCart(s, idx, a).state;
    assert s1.products[idx - 1] == p.(stock := p.stock - a);
    var c2 := AddToCart(s1, idx, b).state.cart;
    var cd := AddToCart(s, idx, a + b).state.cart;
    match FindCartItem(s.cart, p.id)
    case Some(k) =>
      var line := s.cart[k];
      assert s1.cart == s.cart[k := line.(qty := line.qty + a)];
      FindCartItemSameIds(s.cart, s1.cart, p.id);
      assert c2 == s1.cart[k := s1.cart[k].(qty := s1.cart[k].qty + b)];
      assert cd == s.cart[k := line.(qty := line.qty + (a + b))];
    case None =>
      assert s1.cart == s.cart + [NewLine(p, a)];
      FindCartItemAppended(s.cart, NewLine(p, a));
      assert c2 == s1.cart[|s.cart| := NewLine(p, a + b)];
      assert cd == s.cart + [NewLine(p, a + b)];
  }

  // ----- Checkout -----

  /** The receipt rows add up to the receipt total. */
  lemma ReceiptAddsUp(s: State, payment: int)
    requires Checkout(s, payment).sale.Sold?
    ensures var rows := Checkout(s, payment).sale.receipt.lines;
            Sum(seq(|rows|, k requires 0 <= k < |rows| => rows[k].lineTotal))
            == Checkout(s, payment).sale.receipt.total
  {
    var rows := Checkout(s, payment).sale.receipt.lines;
    assert seq(|rows|, k requires 0 <= k < |rows| => rows[k].lineTotal) == Subtotals(s.cart);
  }

  /** A second checkout right after a sale finds the cart empty and does nothing. */
  lemma CheckoutTwice(s: State, payment: int, again: int)
    requires Checkout(s, payment).sale.Sold?
    ensures var s1 := Checkout(s, payment).state;
            Checkout(s1, again) == CheckoutReply(s1, Refused(CartEmpty))
  {
  }

  /** In a well-formed session a sale takes at least one cent per cart line. */
  lemma CheckoutChargesSomething(s: State, payment: int)
    requires Valid(s)
    requires Checkout(s, payment).sale.Sold?
    ensures Checkout(s, payment).sale.receipt.total >= |s.cart| >= 1
  {
    TotalPositive(s.cart);
  }
}
