# Supermarket cart engine — a Dafny model

This project models the inventory/cart consistency engine of a small terminal
point-of-sale script (`TODOLIST.py`). An operator enters a catalog of products
(or gets a three-item default catalog). A customer then reserves units into a
cart (add), changes a line's quantity (update), drops a line (remove) and pays
(checkout). Stock and cart quantities are kept consistent by moving units
between a product's `stock` and a cart line's `qty`.

Each interactive operation becomes a pure function. It takes the session state
(`State(products, cart)`), the 1-based index and the quantity or payment the
operator typed. Add, update and remove return a `Reply`: the new state and `Done`,
or the **unchanged** state and `Failed(error)`. Checkout returns a `CheckoutReply`
whose `Sale` is `Sold(receipt)` with the emptied cart, or `Refused(error)` with the
unchanged state. Prices and payments are whole cents: the source's
`min_val=0.01` price check becomes `price >= 1`.

Files, one module each:

- `sums.dfy` (`Sums`): `Sum` over integer sequences and how it changes under an update, a deletion or a concatenation.
- `model.dfy` (`Model`): `Product`, `CartLine`, `State`, `Error`, `Reply`. Also the well-formedness predicate `Valid`, and the summed quantities `StockOf`, `Reserved`, `Held` and `Total`.
- `catalog.dfy` (`Catalog`): catalog setup (`SetupProducts`, `Accepted`, `DefaultCatalog`) and lookup of a product by id (`FindProduct`).
- `cart.dfy` (`Cart`): `FindCartItem` and the cart total loop (`CartTotal`).
- `operations.dfy` (`Operations`): `AddToCart`, `UpdateCartQty`, `RemoveFromCart`, `Checkout`.
- `conservation.dfy` (`Conservation`): unit conservation, preservation of `Valid`, and round trips between operations.
- `session.dfy` (`Session`): an arbitrary sequence of reservation operations, conservation across it, and a whole session from setup onwards (`OpenAndRun`).
- `scenarios.dfy` (`Scenarios`): concrete worked examples.

`Held(s, id)` is the stock of the products carrying `id` plus the units reserved for
`id` in the cart. Conservation says it never changes under add or update, for every
id, nor under remove for every catalogued id, whether the call succeeds or is rejected. With distinct product ids (which setup
guarantees) it is exactly "this product's stock plus its reserved units"
(`Session.RunKeepsEachProduct`).

Points where the code's behaviour is easy to misread, modelled as the code does it:

- An empty catalog makes add fail with its own error (`NoProducts`). It is not an invalid selection.
- Update, remove and checkout on an empty cart report `CartEmpty`.
- Removing a line whose product is missing from the catalog succeeds silently and drops the units. No error is reported.
- An empty product name ends setup. It is not an invalid entry.
- Python's `if existing:` on a found cart line is always true, because a line is a non-empty dict. So it is modelled as "a line was found".

## Model

| member | source | states |
|---|---|---|
| Catalog.SetupProducts | TODOLIST.py:40-78 | Accepted entries become products numbered 1..n in entry order with their name, price and stock; when none is accepted the result is exactly Bread 350c/20, Milk 620c/15, Eggs 990c/10; every product has id = position + 1, a non-empty name, price >= 1 cent and stock >= 0 |
| Catalog.ReadProducts | TODOLIST.py:45-68 | The setup entry loop yields exactly the accepted entries, in entry order, as products numbered 1, 2, 3, ... with the entered name, price and stock |
| Catalog.Accepted | TODOLIST.py:45-66 | The entries kept by setup are no more than the input, each with a non-empty name, price >= 1 cent and stock >= 0 |
| Catalog.AcceptedStopsAtBlank | TODOLIST.py:46-48 | Nothing after the first empty product name is read |
| Catalog.FindProduct | TODOLIST.py:182-186 | Returns the first catalog position carrying the id, or None exactly when no product has that id |
| Catalog.FindProductUnique | TODOLIST.py:60-62 | With distinct ids, looking up a product's own id finds that product |
| Catalog.FindProductSameCatalog | TODOLIST.py:183-185 | Lookup by id is unaffected by stock changes |
| Catalog.SetupIsValid | TODOLIST.py:60-76 | The catalog setup produces, with an empty cart, a well-formed session |
| Cart.FindCartItem | TODOLIST.py:122-126 | Returns the first cart line whose product id matches, or None exactly when no line matches |
| Cart.FindCartItemAppended | TODOLIST.py:154-163 | After appending a line for a product the cart lacked, lookup finds that new last line |
| Cart.FindCartItemUnique | TODOLIST.py:122-126 | With distinct cart ids, a line's own product id finds that line |
| Cart.FindCartItemSameIds | TODOLIST.py:122-126 | Lookup depends only on the lines' product ids, not their quantities |
| Cart.CartTotal | TODOLIST.py:97-118 | The running total equals the sum of price x qty over all lines (0 for an empty cart) and is at least one cent per line when lines are valid |
| Model.TotalPositive | TODOLIST.py:106-109 | A cart of lines with positive price and quantity costs at least one cent per line |
| Model.StockOfUnique | TODOLIST.py:60-62 | With distinct product ids, the stock held for an id is that product's own stock |
| Model.ReservedUnique | TODOLIST.py:154-156 | With distinct cart ids, the units reserved for a product are its line's qty |
| Operations.AddToCart | TODOLIST.py:129-165 | Rejected with state unchanged on an empty catalog, an index outside 1..n, zero stock, or a quantity outside 1..stock (each error exactly in its case); on success the selected product's stock drops by qty and stays >= 0, other products are unchanged, and the first line for the product grows by qty or else a snapshot line (id, name, price, qty) is appended |
| Operations.UpdateCartQty | TODOLIST.py:168-207 | Rejected with state unchanged on an empty cart, an index outside 1..len(cart), a line whose product is not catalogued, or a new quantity outside 1..qty+stock (so 0 is rejected); on success the line takes the new qty, the first matching product's stock becomes stock - (new - current) >= 0, and nothing else changes |
| Operations.RemoveFromCart | TODOLIST.py:210-229 | Rejected with state unchanged on an empty cart or out-of-range index; otherwise exactly the line at idx-1 is deleted with the rest in order, and its qty goes back to the first product with its id, or no stock changes when none has it |
| Operations.Checkout | TODOLIST.py:232-255 | Never changes stock; an empty cart is a no-op; a payment below the total is refused with no change; otherwise the receipt holds one row per line (name, qty, price x qty), the total, the payment and change = payment - total >= 0, and the cart becomes empty |
| Operations.ReceiptLines | TODOLIST.py:245-247 | One receipt row per cart line, in cart order, with the line's name, its qty and price × qty; the rows add up to the cart total |
| Conservation.AddConserves | TODOLIST.py:150-163 | For every product id, stock plus reserved units is the same before and after an add, accepted or rejected |
| Conservation.UpdateConserves | TODOLIST.py:200-206 | For every product id, stock plus reserved units is the same before and after an update, accepted or rejected |
| Conservation.RemoveConserves | TODOLIST.py:221-227 | For every catalogued product id, stock plus reserved units is the same before and after a remove, accepted or rejected |
| Conservation.AddKeepsLinesDistinct | TODOLIST.py:153-163 | If no two cart lines share a product id before an add, none do after |
| Conservation.AddKeepsValid | TODOLIST.py:129-165 | Add keeps the session well-formed: stock >= 0, qty >= 1, distinct ids, every line's product catalogued |
| Conservation.UpdateKeepsValid | TODOLIST.py:168-207 | Update keeps the session well-formed |
| Conservation.RemoveKeepsValid | TODOLIST.py:210-229 | Remove keeps the session well-formed |
| Conservation.CheckoutKeepsValid | TODOLIST.py:232-255 | Checkout keeps the session well-formed |
| Conservation.UpdateNeverMissesProduct | TODOLIST.py:181-190 | In a well-formed session the "product not found" branch of update is unreachable |
| Conservation.UpdateRoundTrip | TODOLIST.py:192-206 | Updating a line to a new quantity and then back to its old one restores the session exactly |
| Conservation.AddThenRemove | TODOLIST.py:150-227 | Adding a product the cart lacks and removing the line it created restores the session exactly |
| Conservation.AddMerges | TODOLIST.py:151-156 | Adding a then b units of one product yields the same session as adding a + b at once |
| Conservation.AddMergesCatalog | TODOLIST.py:141-151 | Both ways of adding a + b units succeed and leave the same catalog |
| Conservation.AddMergesCart | TODOLIST.py:154-163 | Both ways of adding a + b units leave the same cart |
| Conservation.ReceiptAddsUp | TODOLIST.py:242-250 | The receipt's line totals add up to the receipt total |
| Conservation.CheckoutTwice | TODOLIST.py:232-255 | A checkout right after a sale finds the cart empty and does nothing |
| Conservation.CheckoutChargesSomething | TODOLIST.py:232-242 | In a well-formed session a sale's total is at least one cent per line |
| Session.Run | TODOLIST.py:275-286 | Any sequence of add, update and remove keeps the catalog's products, names and prices |
| Session.Step | TODOLIST.py:277-284 | One add, update or remove menu choice: a rejected choice leaves the session unchanged, no choice alters the catalog's ids, names or prices, and a successful add or remove always changes the cart |
| Session.StepKeepsCatalog | TODOLIST.py:151-227 | No single operation adds, drops, renames or reprices a product |
| Session.StepConserves | TODOLIST.py:151-227 | Each menu operation conserves stock plus reserved units of a catalogued product |
| Session.RunConserves | TODOLIST.py:275-286 | After any sequence of add/update/remove, stock plus reserved units of every catalogued product is unchanged |
| Session.StepKeepsValid | TODOLIST.py:129-229 | Each menu operation keeps the session well-formed |
| Session.RunKeepsValid | TODOLIST.py:275-286 | After any sequence from a well-formed state, no stock is negative, every line reserves at least one unit and no two lines share a product |
| Session.RunKeepsEachProduct | TODOLIST.py:151-227 | In a well-formed session each product's stock plus its reserved units equals its starting value after any sequence |
| Session.OpenAndRun | TODOLIST.py:40-78 | A session opened from any entries (or the default catalog) and driven by any add/update/remove sequence stays well-formed and keeps the catalog; for every product, stock plus units reserved in the cart equals the stock entered at setup |
| Scenarios.SetupExample | TODOLIST.py:45-66 | A rejected price, a negative stock and everything after an empty name are skipped |
| Scenarios.MergeExample | TODOLIST.py:151-156 | 2 then 3 units from stock 10 give one line of 5 and stock 5 |
| Scenarios.UpdateExample | TODOLIST.py:192-206 | A line of 5 over stock 3 goes to 8 (stock 0), 9 and 0 are refused, and back to 5 restores stock 3 |
| Scenarios.OutOfStockExample | TODOLIST.py:141-143 | Adding a zero-stock product is refused and changes nothing |
| Scenarios.RemoveExample | TODOLIST.py:221-227 | Removing a line of 4 returns the units to a product with stock 2, giving 6 |
| Scenarios.CheckoutExample | TODOLIST.py:232-255 | 2 x 3.50 + 1 x 6.20 = 13.20; paying 20.00 gives 6.80 change and empties the cart; 13.19 is refused |

## Left out

- Terminal I/O: prompts, messages, the ANSI colour constants and the `main` menu loop (TODOLIST.py:1-8, 259-291). The menu loop appears only as `Session.Run` over a list of operations.
- Prompt parsing in `ask_int`/`ask_float` (TODOLIST.py:16-36). Indices, quantities, prices and payments arrive as integers. Ordinary non-numeric text takes the same rejection branch as an out-of-range number, so it is folded into that case. Two crash paths of the source are not modelled: a character that `isdigit` accepts but `int` refuses (such as '²' or '①', TODOLIST.py:18-20) raises an uncaught ValueError at any stock, index or quantity prompt, and end of input at any `input()` (such as TODOLIST.py:46) raises an uncaught EOFError. Surrounding whitespace stripping of names is taken as already done.
- Floating point. Prices, totals and payments are exact integer cents. The source's float totals can carry rounding error: two items at 0.10 and 0.20 total 0.30000000000000004, so a typed payment of 0.30 fails `min_val=total`. The model does not reproduce this. Prices with more than two decimals are also not representable.
- NaN and infinity. `ask_float` accepts the text "nan" because `nan < min_val` is false (TODOLIST.py:34). So the source's checkout accepts a NaN payment for any total, prints NaN change and clears the cart (TODOLIST.py:237-255), and setup accepts a NaN or infinite price (TODOLIST.py:50). Integer cents cannot represent these values, so `Operations.Checkout` refuses every payment below the total and the model has no such prices.
- Display: `money` formatting and column rendering (TODOLIST.py:12-13, 82-118, 244-253), and the 20-character name truncation in `show_products`/`show_cart` (TODOLIST.py:93, 110). The receipt prints full names, as `ReceiptLine` keeps them. Only the summation of the total is kept, plus the receipt's row data.
- Conservation.RemoveConserves: stated only for ids present in the catalog. The units of a line whose product is missing are dropped, as in the source, so no conservation holds for such an id.
- Conservation.UpdateRoundTrip: requires the line's qty >= 1 and non-negative stock. Without them the return to the old quantity is outside the range update accepts.
- Checkout is not part of `Session.Run`. A sale removes units from the session permanently, so stock plus reserved units is not conserved across it.
