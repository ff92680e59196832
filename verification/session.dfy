/**
 A session as the menu drives it: a sequence of reservation operations applied
 one after another to the catalog and cart. Whatever the sequence, and whether
 each operation succeeds or is rejected, every unit of every catalogued product
 is still either in stock or in the cart, and the session stays well-formed.
 */
module Session {
  import opened Model
  import opened Catalog
  import opened Operations
  import opened Conservation

  /** One menu choice that reserves or releases units, with the numbers entered for it. */
  datatype Op =
    | AddOp(idx: int, qty: int)
    | UpdateOp(idx: int, newQty: int)
    | RemoveOp(idx: int)

  /** Applies one menu choice; a rejected choice leaves the session as it was. */
  function Step(s: State, op: Op): (r: Reply)
    ensures r.status.Failed? ==> r.state == s
    ensures SameCatalog(s.products, r.state.products)
    ensures r.status == Done && (op.AddOp? || op.RemoveOp?) ==> r.state.cart != s.cart
  {
    match op
    case AddOp(idx, qty) => AddToCart(s, idx, qty)
    case UpdateOp(idx, newQty) => UpdateCartQty(s, idx, newQty)
    case RemoveOp(idx) => RemoveFromCart(s, idx)
  }

  /** The state after applying `ops` in order; the catalog keeps its products. */
  function Run(s: State, ops: seq<Op>): (t: State)
    ensures SameCatalog(s.products, t.products)
    decreases |ops|
  {
    if |ops| == 0 then s else Run(Step(s, ops[0]).state, ops[1..])
  }

  /** No operation adds, drops, renames or reprices a product. */
  lemma StepKeepsCatalog(s: State, op: Op)
    ensures SameCatalog(s.products, Step(s, op).state.products)
  {
  }

  lemma StepConserves(s: State, op: Op, id: int)
    requires Catalogued(s.products, id)
    ensures Held(Step(s, op).state, id) == Held(s, id)
  {
    match op
    case AddOp(idx, qty) => AddConserves(s, idx, qty, id);
    case UpdateOp(idx, newQty) => UpdateConserves(s, idx, newQty, id);
    case RemoveOp(idx) => RemoveConserves(s, idx, id);
  }

  /** After any sequence of adds, updates and removes, stock plus reserved units of
      every catalogued product is what it was at the start. */
  lemma {:induction false} RunConserves(s: State, ops: seq<Op>, id: int)
    requires Catalogued(s.products, id)
    ensures Held(Run(s, ops), id) == Held(s, id)
    decreases |ops|
  {
    if |ops| > 0 {
      var s1 := Step(s, ops[0]).state;
      StepConserves(s, ops[0], id);
      StepKeepsCatalog(s, ops[0]);
      var i :| 0 <= i < |s.products| && s.products[i].id == id;
      assert s1.products[i].id == id;
      RunConserves(s1, ops[1..], id);
    }
  }

  lemma StepKeepsValid(s: State, op: Op)
    requires Valid(s)
    ensures Valid(Step(s, op).state)
  {
    match op
    case AddOp(idx, qty) => AddKeepsValid(s, idx, qty);
    case UpdateOp(idx, newQty) => UpdateKeepsValid(s, idx, newQty);
    case RemoveOp(idx) => RemoveKeepsValid(s, idx);
  }

  /** After any sequence of operations from a well-formed state, no stock is negative,
      every cart line reserves at least one unit, and no two lines share a product. */
  lemma {:induction false} RunKeepsValid(s: State, ops: seq<Op>)
    requires Valid(s)
    ensures Valid(Run(s, ops))
    ensures forall i :: 0 <= i < |Run(s, ops).products| ==> Run(s, ops).products[i].stock >= 0
    ensures forall k :: 0 <= k < |Run(s, ops).cart| ==> Run(s, ops).cart[k].qty >= 1
    decreases |ops|
  {
    if |ops| > 0 {
      StepKeepsValid(s, ops[0]);
      RunKeepsValid(Step(s, ops[0]).state, ops[1..]);
    }
  }

  /** In a well-formed session each product's stock plus its cart line's quantity
      (zero when it has none) is the stock it started the session with. */
  lemma {:induction false} RunKeepsEachProduct(s: State, ops: seq<Op>, i: int)
    requires Valid(s)
    requires 0 <= i < |s.products|
    ensures var t := Run(s, ops);
            t.products[i].stock + Reserved(t.cart, t.products[i].id) == s.products[i].stock + Reserved(s.cart, s.products[i].id)
  {
    var t := Run(s, ops);
    var id := s.products[i].id;
    RunKeepsValid(s, ops);
    RunConserves(s, ops, id);
    StockOfUnique(s.products, i);
    StockOfUnique(t.products, i);
  }

  /** Open a session from the operator's product entries and apply `ops` to it: every
      product's stock plus its reserved units is still the stock it was entered with
      (or the default catalog's stock when nothing was entered). */
  method OpenAndRun(entries: seq<Entry>, ops: seq<Op>) returns (catalog: seq<Product>, t: State)
    ensures |Accepted(entries)| == 0 ==> catalog == DefaultCatalog()
    ensures |Accepted(entries)| > 0 ==>
              |catalog| == |Accepted(entries)|
              && forall i :: 0 <= i < |catalog| ==> catalog[i].stock == Accepted(entries)[i].stock
    ensures Valid(t)
    ensures SameCatalog(catalog, t.products)
    ensures forall i :: 0 <= i < |catalog| ==>
              t.products[i].stock + Reserved(t.cart, t.products[i].id) == catalog[i].stock
  {
    catalog := SetupProducts(entries);
    SetupIsValid(catalog);
    var s0 := State(catalog, []);
    t := Run(s0, ops);
    RunKeepsValid(s0, ops);
    forall i | 0 <= i < |catalog|
      ensures t.products[i].stock + Reserved(t.cart, t.products[i].id) == catalog[i].stock
    {
      RunKeepsEachProduct(s0, ops, i);
      ReservedAbsent([], catalog[i].id);
    }
  }
}
