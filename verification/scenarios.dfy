/**
 Worked examples: small concrete sessions whose outcome follows from the
 general contracts.
 */
module Scenarios {
  import opened Sums
  import opened Model
  import opened Catalog
  import opened Operations

  /** Setup skips a rejected entry, numbers the accepted ones and stops at the first empty name. */
  lemma SetupExample()
    ensures Accepted([Entry("Tea", 0, 5), Entry("Tea", 250, 5), Entry("Jam", 400, -1),
                      Entry("Rice", 500, 0), Entry("", 0, 0), Entry("Salt", 90, 9)])
         == [Entry("Tea", 250, 5), Entry("Rice", 500, 0)]
  {
  }

  /** Adding 2 and then 3 units of a product with stock 10 leaves one line of 5 and stock 5. */
  lemma MergeExample()
    ensures var s0 := State([Product(1, "Bread", 350, 10)], []);
            var s1 := AddToCart(s0, 1, 2).state;
            AddToCart(s1, 1, 3) == Reply(State([Product(1, "Bread", 350, 5)], [CartLine(1, "Bread", 350, 5)]), Done)
  {
  }

  /** A line of 5 over a stock of 3 can go up to 8 and back to 5, restoring stock 3. */
  lemma UpdateExample()
    ensures var s0 := State([Product(1, "Milk", 620, 3)], [CartLine(1, "Milk", 620, 5)]);
            var r1 := UpdateCartQty(s0, 1, 8);
            && r1 == Reply(State([Product(1, "Milk", 620, 0)], [CartLine(1, "Milk", 620, 8)]), Done)
            && UpdateCartQty(r1.state, 1, 9).status == Failed(InvalidQuantity)
            && UpdateCartQty(r1.state, 1, 0).status == Failed(InvalidQuantity)
            && UpdateCartQty(r1.state, 1, 5) == Reply(s0, Done)
  {
  }

  /** Adding a product whose stock is zero is refused and changes nothing. */
  lemma OutOfStockExample()
    ensures var s0 := State([Product(1, "Eggs", 990, 0)], []);
            AddToCart(s0, 1, 1) == Reply(s0, Failed(OutOfStock))
  {
  }

  /** Removing a line of 4 gives its units back to a product with stock 2. */
  lemma RemoveExample()
    ensures var s0 := State([Product(1, "Eggs", 990, 2)], [CartLine(1, "Eggs", 990, 4)]);
            RemoveFromCart(s0, 1) == Reply(State([Product(1, "Eggs", 990, 6)], []), Done)
  {
  }

  /** Two of Bread at 3.50 and one of Milk at 6.20 cost 13.20; paying 20.00 gives 6.80 back,
      and a second checkout finds the cart empty. */
  lemma CheckoutExample()
    ensures var s0 := State([], [CartLine(1, "Bread", 350, 2), CartLine(2, "Milk", 620, 1)]);
            var r := Checkout(s0, 2000);
            && r.sale.Sold?
            && r.sale.receipt.total == 1320
            && r.sale.receipt.change == 680
            && r.sale.receipt.lines == [ReceiptLine("Bread", 2, 700), ReceiptLine("Milk", 1, 620)]
            && r.state.cart == []
            && Checkout(r.state, 2000).sale == Refused(CartEmpty)
            && Checkout(s0, 1319) == CheckoutReply(s0, Refused(InsufficientPayment))
  {
    var cart := [CartLine(1, "Bread", 350, 2), CartLine(2, "Milk", 620, 1)];
    assert Subtotals(cart) == [700, 620];
    assert [700, 620][..1] == [700];
    assert [700][..0] == [];
    assert Sum([700, 620]) == 1320;
    assert ReceiptLines(cart) == [ReceiptLine("Bread", 2, 700), ReceiptLine("Milk", 1, 620)];
  }
}
