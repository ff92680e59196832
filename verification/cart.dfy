/**
 Looking up cart lines and adding up the cart.
 */
module Cart {
  import opened Sums
  import opened Model

  /** The position of the first cart line reserving product `id`, or None. */
  function FindCartItem(cart: seq<CartLine>, id: int): (r: Option<nat>)
    ensures r.Some? ==> r.value < |cart| && cart[r.value].productId == id
    ensures r.Some? ==> forall j :: 0 <= j < r.value ==> cart[j].productId != id
    ensures r.None? <==> forall j :: 0 <= j < |cart| ==> cart[j].productId != id
  {
    if |cart| == 0 then None
    else if cart[0].productId == id then Some(0)
    else match FindCartItem(cart[1..], id)
      case None => None
      case Some(k) => Some(k + 1)
  }

  /** Lookup depends only on the product ids of the lines, not on their quantities. */
  lemma FindCartItemSameIds(before: seq<CartLine>, after: seq<CartLine>, id: int)
    requires |after| == |before|
    requires forall k :: 0 <= k < |before| ==> after[k].productId == before[k].productId
    ensures FindCartItem(after, id) == FindCartItem(before, id)
  {
  }

  /** A line appended for a product the cart lacked is the one lookup then finds. */
  lemma FindCartItemAppended(cart: seq<CartLine>, l: CartLine)
    requires FindCartItem(cart, l.productId).None?
    ensures FindCartItem(cart + [l], l.productId) == Some(|cart|)
  {
    assert (cart + [l])[|cart|].productId == l.productId;
  }

  /** With no two lines for one product, a line's own product finds that line. */
  lemma FindCartItemUnique(cart: seq<CartLine>, k: int)
    requires UniqueLineIds(cart)
    requires 0 <= k < |cart|
    ensures FindCartItem(cart, cart[k].productId) == Some(k)
  {
  }

  /** The running total shown with the cart: price times quantity per line,
      added up in cart order. */
  method CartTotal(cart: seq<CartLine>) returns (total: int)
    ensures total == Total(cart)
    ensures (forall k :: 0 <= k < |cart| ==> ValidLine(cart[k])) ==> total >= |cart|
    ensures |cart| == 0 ==> total == 0
  {
    total := 0;
    var i := 0;
    while i < |cart|
      invariant 0 <= i <= |cart|
      invariant total == Sum(Subtotals(cart)[..i])
    {
      var subtotal := cart[i].price * cart[i].qty;
      assert Subtotals(cart)[..i + 1][..i] == Subtotals(cart)[..i];
      total := total + subtotal;
      i := i + 1;
    }
    assert Subtotals(cart)[..i] == Subtotals(cart);
    if forall k :: 0 <= k < |cart| ==> ValidLine(cart[k]) {
      TotalPositive(cart);
    }
  }
}
