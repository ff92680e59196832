/**
 Building the catalog at the start of a session, and looking products up by id.
 */
module Catalog {
  import opened Model

  /** One product definition as the operator typed it: a (trimmed) name, a price in
      cents and a stock count. Ordinary text that does not parse is modelled as an
      out-of-range value, since the source rejects both the same way; inputs that
      make the source's parsing crash are not modelled. */
  datatype Entry = Entry(name: string, price: int, stock: int)

  /** An entry survives the price check (at least one cent) and the stock check (not negative). */
  predicate Acceptable(e: Entry)
  {
    e.price >= 1 && e.stock >= 0
  }

  /** The entries that become products: the acceptable ones, in order, up to the
      first entry with an empty name (which ends setup). Running out of entries
      without an empty name stands for a session the source would abort at its
      next read; the model simply stops there. */
  function Accepted(entries: seq<Entry>): (r: seq<Entry>)
    ensures |r| <= |entries|
    ensures forall k :: 0 <= k < |r| ==> Acceptable(r[k]) && r[k].name != []
  {
    if |entries| == 0 || entries[0].name == [] then []
    else (if Acceptable(entries[0]) then [entries[0]] else []) + Accepted(entries[1..])
  }

  /** The catalog used when the operator enters no product. */
  function DefaultCatalog(): (r: seq<Product>)
  {
    [ Product(1, "Bread", 350, 20),
      Product(2, "Milk", 620, 15),
      Product(3, "Eggs", 990, 10) ]
  }

  /** `products` are `accepted`, in order, numbered 1, 2, 3, ... */
  predicate NumberedFrom(products: seq<Product>, accepted: seq<Entry>)
  {
    && |products| == |accepted|
    && forall j :: 0 <= j < |accepted| ==>
         products[j] == Product(j + 1, accepted[j].name, accepted[j].price, accepted[j].stock)
  }

  /** Reads product definitions until an empty name, skipping rejected ones; each
      accepted product gets the next id. Falls back to the default catalog when
      nothing was accepted. */
  method SetupProducts(entries: seq<Entry>) returns (products: seq<Product>)
    ensures |Accepted(entries)| == 0 ==> products == DefaultCatalog()
    ensures |Accepted(entries)| > 0 ==> NumberedFrom(products, Accepted(entries))
    ensures |products| > 0
    ensures forall j :: 0 <= j < |products| ==> products[j].id == j + 1 && ValidProduct(products[j])
  {
    products := ReadProducts(entries);
    if |products| == 0 {
      products := DefaultCatalog();
    }
  }

  /** The entry loop of setup: the accepted entries, numbered from 1. */
  method ReadProducts(entries: seq<Entry>) returns (products: seq<Product>)
    ensures NumberedFrom(products, Accepted(entries))
  {
    products := [];
    ghost var accepted: seq<Entry> := [];
    var i := 0;
    while i < |entries| && entries[i].name != []
      invariant 0 <= i <= |entries|
      invariant accepted + Accepted(entries[i..]) == Accepted(entries)
      invariant NumberedFrom(products, accepted)
      decreases |entries| - i
    {
      var e := entries[i];
      AcceptedStep(entries, i, accepted);
      if Acceptable(e) {
        NumberedAppend(products, accepted, e);
        products := products + [Product(|products| + 1, e.name, e.price, e.stock)];
        accepted := accepted + [e];
      }
      i := i + 1;
    }
    AcceptedAtEnd(entries, i, accepted);
  }

  /** Numbering one more accepted entry gives it the next id. */
  lemma NumberedAppend(products: seq<Product>, accepted: seq<Entry>, e: Entry)
    requires NumberedFrom(products, accepted)
    ensures NumberedFrom(products + [Product(|products| + 1, e.name, e.price, e.stock)], accepted + [e])
  {
  }

  /** One step of setup: the entry at `i` is kept or skipped, and the rest follows. */
  lemma AcceptedStep(entries: seq<Entry>, i: int, accepted: seq<Entry>)
    requires 0 <= i < |entries| && entries[i].name != []
    requires accepted + Accepted(entries[i..]) == Accepted(entries)
    ensures Acceptable(entries[i]) ==> (accepted + [entries[i]]) + Accepted(entries[i + 1..]) == Accepted(entries)
    ensures !Acceptable(entries[i]) ==> accepted + Accepted(entries[i + 1..]) == Accepted(entries)
  {
    var xs := entries[i..];
    assert xs[0] == entries[i];
    assert xs[1..] == entries[i + 1..];
    var rest := Accepted(entries[i + 1..]);
    AcceptedFirst(xs);
    if Acceptable(entries[i]) {
      assert Accepted(xs) == [entries[i]] + rest;
      ConcatAssoc(accepted, [entries[i]], rest);
    } else {
      assert Accepted(xs) == [] + rest;
      assert [] + rest == rest;
    }
  }

  /** Accepted, unfolded once on a non-blank first entry. */
  lemma AcceptedFirst(xs: seq<Entry>)
    requires |xs| > 0 && xs[0].name != []
    ensures Accepted(xs) == (if Acceptable(xs[0]) then [xs[0]] else []) + Accepted(xs[1..])
  {
  }

  /** Concatenation regroups freely. */
  lemma ConcatAssoc(a: seq<Entry>, b: seq<Entry>, c: seq<Entry>)
    ensures (a + b) + c == a + (b + c)
  {
  }

  /** Setup stops at an empty name or at the end of the entries; either way nothing is left to accept. */
  lemma AcceptedAtEnd(entries: seq<Entry>, i: int, accepted: seq<Entry>)
    requires 0 <= i <= |entries|
    requires i == |entries| || entries[i].name == []
    requires accepted + Accepted(entries[i..]) == Accepted(entries)
    ensures accepted == Accepted(entries)
  {
    assert Accepted(entries[i..]) == [];
    assert accepted + [] == accepted;
  }

  /** Setup never reads past the first empty name. */
  lemma {:induction false} AcceptedStopsAtBlank(entries: seq<Entry>, rest: seq<Entry>, price: int, stock: int)
    ensures Accepted(entries + [Entry([], price, stock)] + rest) == Accepted(entries + [Entry([], price, stock)])
    decreases |entries|
  {
    var blank := Entry([], price, stock);
    if |entries| == 0 {
      assert (entries + [blank] + rest)[0] == blank;
      assert (entries + [blank])[0] == blank;
    } else {
      assert (entries + [blank] + rest)[1..] == entries[1..] + [blank] + rest;
      assert (entries + [blank])[1..] == entries[1..] + [blank];
      AcceptedStopsAtBlank(entries[1..], rest, price, stock);
    }
  }

  /** The first catalog position holding product `id`, or None. */
  function FindProduct(products: seq<Product>, id: int): (r: Option<nat>)
    ensures r.Some? ==> r.value < |products| && products[r.value].id == id
    ensures r.Some? ==> forall j :: 0 <= j < r.value ==> products[j].id != id
    ensures r.None? <==> !Catalogued(products, id)
  {
    if |products| == 0 then None
    else if products[0].id == id then Some(0)
    else match FindProduct(products[1..], id)
      case None => None
      case Some(k) => Some(k + 1)
  }

  /** Lookup by id depends only on the ids, so a stock change never moves it. */
  lemma FindProductSameCatalog(before: seq<Product>, after: seq<Product>, id: int)
    requires SameCatalog(before, after)
    ensures FindProduct(after, id) == FindProduct(before, id)
  {
  }

  /** With distinct ids, looking up a product's own id finds that product. */
  lemma FindProductUnique(products: seq<Product>, i: int)
    requires UniqueProductIds(products)
    requires 0 <= i < |products|
    ensures FindProduct(products, products[i].id) == Some(i)
  {
  }

  /** Setup starts a well-formed session with an empty cart. */
  lemma SetupIsValid(products: seq<Product>)
    requires |products| > 0
    requires forall j :: 0 <= j < |products| ==> products[j].id == j + 1 && ValidProduct(products[j])
    ensures Valid(State(products, []))
  {
  }
}
