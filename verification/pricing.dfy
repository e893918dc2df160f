/**
 Cart pricing (app.py, cart_items): the cart is walked in insertion order and
 joined against the product catalog; ids the catalog does not know are
 skipped, every other entry becomes a priced line, and a grand total is
 accumulated. Prices are exact (`real`).
 */
module Pricing {
  import opened Cart

  /** A catalog product, with the fields the cart and the checkout read. */
  datatype Product = Product(id: ProductId, title: string, price: real)

  /** The product table, by id. */
  type Catalog = map<ProductId, Product>

  /** Every product is filed under its own id (the id is the table's primary key). */
  ghost predicate WellFormedCatalog(catalog: Catalog)
  {
    forall k :: k in catalog ==> catalog[k].id == k
  }

  /** A priced cart line: a product, its quantity and price * quantity. */
  datatype Line = Line(product: Product, qty: int, lineTotal: real)

  /** Price times quantity, exactly. */
  function Amount(price: real, qty: int): real
  {
    price * qty as real
  }

  /** The line an entry of the cart becomes when its product is known. */
  function Priced(p: Product, qty: int): Line
  {
    Line(p, qty, Amount(p.price, qty))
  }

  /** The priced lines of a cart: one per entry whose id is in the catalog, in cart order. */
  function Lines(s: seq<Entry>, catalog: Catalog): (r: seq<Line>)
    ensures |r| <= |s|
    ensures forall j :: 0 <= j < |r| ==> r[j].lineTotal == Amount(r[j].product.price, r[j].qty)
  {
    if s == [] then []
    else if s[0].pid in catalog then [Priced(catalog[s[0].pid], s[0].qty)] + Lines(s[1..], catalog)
    else Lines(s[1..], catalog)
  }

  /** The sum of the line totals. */
  function SumLineTotals(lines: seq<Line>): real
  {
    if lines == [] then 0.0 else lines[0].lineTotal + SumLineTotals(lines[1..])
  }

  /** The sum of the quantities on the lines. */
  function SumLineQty(lines: seq<Line>): int
  {
    if lines == [] then 0 else lines[0].qty + SumLineQty(lines[1..])
  }

  /** Reference total: price * quantity summed over the entries the catalog knows. */
  function CartTotal(s: seq<Entry>, catalog: Catalog): real
  {
    if s == [] then 0.0
    else (if s[0].pid in catalog then Amount(catalog[s[0].pid].price, s[0].qty) else 0.0)
         + CartTotal(s[1..], catalog)
  }

  /** True iff no entry of the cart names a product of the catalog. */
  predicate NoneKnown(s: seq<Entry>, catalog: Catalog)
  {
    forall i :: 0 <= i < |s| ==> s[i].pid !in catalog
  }

  /** Pricing a concatenation prices the parts and concatenates the lines. */
  lemma {:induction false} LinesAppend(s: seq<Entry>, t: seq<Entry>, catalog: Catalog)
    ensures Lines(s + t, catalog) == Lines(s, catalog) + Lines(t, catalog)
  {
    if s != [] {
      assert (s + t)[0] == s[0] && (s + t)[1..] == s[1..] + t;
      LinesAppend(s[1..], t, catalog);
    } else {
      assert s + t == t;
    }
  }

  lemma {:induction false} SumLineTotalsAppend(a: seq<Line>, b: seq<Line>)
    ensures SumLineTotals(a + b) == SumLineTotals(a) + SumLineTotals(b)
  {
    if a != [] {
      assert (a + b)[0] == a[0] && (a + b)[1..] == a[1..] + b;
      SumLineTotalsAppend(a[1..], b);
    } else {
      assert a + b == b;
    }
  }

  /** The grand total is the sum of the line totals, i.e. of price * qty over known entries. */
  lemma {:induction false} TotalIsSumOfLines(s: seq<Entry>, catalog: Catalog)
    ensures SumLineTotals(Lines(s, catalog)) == CartTotal(s, catalog)
  {
    if s != [] {
      TotalIsSumOfLines(s[1..], catalog);
    }
  }

  /** Pricing yields no line exactly when no entry names a known product. */
  lemma {:induction false} NoLinesIffNoneKnown(s: seq<Entry>, catalog: Catalog)
    ensures Lines(s, catalog) == [] <==> NoneKnown(s, catalog)
  {
    if s != [] {
      NoLinesIffNoneKnown(s[1..], catalog);
      assert NoneKnown(s, catalog) <==> s[0].pid !in catalog && NoneKnown(s[1..], catalog) by {
        if s[0].pid !in catalog && NoneKnown(s[1..], catalog) {
          forall i | 0 <= i < |s| ensures s[i].pid !in catalog {
            if i > 0 { assert s[i] == s[1..][i - 1]; }
          }
        }
      }
    }
  }

  /**
   Each line stands for an entry of the cart: its product is the catalog's
   product for a key of the cart, and its quantity is that key's quantity.
   */
  lemma {:induction false} LineMatchesEntry(s: seq<Entry>, catalog: Catalog, j: int)
    requires WellFormedCatalog(catalog) && DistinctKeys(s)
    requires 0 <= j < |Lines(s, catalog)|
    ensures var l := Lines(s, catalog)[j];
      && Has(s, l.product.id)
      && l.product.id in catalog && l.product == catalog[l.product.id]
      && l.qty == Get(s, l.product.id)
  {
    var l := Lines(s, catalog)[j];
    if s[0].pid in catalog && j == 0 {
    } else {
      var j' := if s[0].pid in catalog then j - 1 else j;
      assert l == Lines(s[1..], catalog)[j'];
      LineMatchesEntry(s[1..], catalog, j');
      assert l.product.id != s[0].pid;
    }
  }

  /**
   The quantities on the lines never exceed the cart-count badge, and match it
   when every entry names a known product.
   */
  lemma {:induction false} LineQtyWithinCount(s: seq<Entry>, catalog: Catalog)
    requires Positive(s)
    ensures SumLineQty(Lines(s, catalog)) <= QtySum(s)
    ensures (forall i :: 0 <= i < |s| ==> s[i].pid in catalog) ==> SumLineQty(Lines(s, catalog)) == QtySum(s)
  {
    if s != [] {
      assert forall i :: 0 <= i < |s| - 1 ==> s[1..][i] == s[i + 1];
      LineQtyWithinCount(s[1..], catalog);
    }
  }

  /** Pricing one more entry adds its line, if any, at the end. */
  lemma LinesSnoc(s: seq<Entry>, i: int, catalog: Catalog)
    requires 0 <= i < |s|
    ensures Lines(s[..i + 1], catalog)
         == Lines(s[..i], catalog) + (if s[i].pid in catalog then [Priced(catalog[s[i].pid], s[i].qty)] else [])
  {
    LinesAppend(s[..i], [s[i]], catalog);
    assert s[..i + 1] == s[..i] + [s[i]];
  }

  /**
   `cart_items`: walk the cart in order, price every entry the catalog knows
   and accumulate the total. The cart is only read.
   */
  method PriceCart(cart: SessionCart, catalog: Catalog) returns (items: seq<Line>, total: real)
    requires cart.Valid()
    ensures items == Lines(cart.Items(), catalog)
    ensures total == SumLineTotals(items) && total == CartTotal(cart.Items(), catalog)
    ensures cart.Items() == [] ==> items == [] && total == 0.0
  {
    ghost var s := cart.Items();
    items, total := [], 0.0;
    var i := 0;
    while i < |cart.keys|
      invariant 0 <= i <= |s|
      invariant items == Lines(s[..i], catalog)
      invariant total == SumLineTotals(items)
    {
      var pid := cart.keys[i];
      var qty := cart.qty[pid];
      assert s[i] == Entry(pid, qty);
      LinesSnoc(s, i, catalog);
      if pid in catalog {
        var p := catalog[pid];
        var lineTotal := Amount(p.price, qty);
        assert Priced(p, qty) == Line(p, qty, lineTotal);
        SumLineTotalsAppend(items, [Line(p, qty, lineTotal)]);
        total := total + lineTotal;
        items := items + [Line(p, qty, lineTotal)];
      }
      i := i + 1;
    }
    assert s[..i] == s;
    TotalIsSumOfLines(s, catalog);
  }
}
