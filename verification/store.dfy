/**
 The storefront's persistent state and the request handlers that change it
 (app.py): the product table, the order table and the user table, "add to
 cart", checkout and registration. The tables are in memory; the database
 engine behind them is not part of this model.
 */
module Store {
  import opened Wrappers
  import opened Cart
  import opened Pricing
  import opened Accounts

  /** One purchased line as the order keeps it, decoupled from the live product. */
  datatype OrderItem = OrderItem(productId: ProductId, title: string, qty: int, price: real)

  /** A placed order: the buyer (none for a guest), the item snapshot and the total. */
  datatype Order = Order(userId: Option<int>, items: seq<OrderItem>, total: real)

  /**
   The snapshot of priced lines: product id, title, quantity and price of each,
   in order. SnapshotTotalIsLinesTotal and OrderItemMatchesCart tie it to the cart.
   */
  function Snapshot(lines: seq<Line>): (r: seq<OrderItem>)
    ensures |r| == |lines|
    ensures forall j :: 0 <= j < |r| ==>
      r[j] == OrderItem(lines[j].product.id, lines[j].product.title, lines[j].qty, lines[j].product.price)
  {
    seq(|lines|, j requires 0 <= j < |lines| =>
      OrderItem(lines[j].product.id, lines[j].product.title, lines[j].qty, lines[j].product.price))
  }

  /** The sum of quantity * price over an order's items. */
  function SnapshotTotal(items: seq<OrderItem>): real
  {
    if items == [] then 0.0 else Amount(items[0].price, items[0].qty) + SnapshotTotal(items[1..])
  }

  /** The total the checkout stores is the one its own snapshot adds up to. */
  lemma {:induction false} SnapshotTotalIsLinesTotal(lines: seq<Line>)
    requires forall j :: 0 <= j < |lines| ==> lines[j].lineTotal == Amount(lines[j].product.price, lines[j].qty)
    ensures SnapshotTotal(Snapshot(lines)) == SumLineTotals(lines)
  {
    if lines != [] {
      assert Snapshot(lines)[1..] == Snapshot(lines[1..]);
      SnapshotTotalIsLinesTotal(lines[1..]);
    }
  }

  /**
   The order a checkout of cart `s` writes, if any: none when pricing yields no
   line, otherwise the snapshot of the lines, their total and the buyer.
   */
  function PlaceOrder(s: seq<Entry>, catalog: Catalog, user: Option<int>): (r: Option<Order>)
    ensures r.None? <==> NoneKnown(s, catalog)
    ensures r.Some? ==> r.value.userId == user && |r.value.items| > 0
    ensures r.Some? ==> r.value.total == SnapshotTotal(r.value.items) == CartTotal(s, catalog)
  {
    var lines := Lines(s, catalog);
    NoLinesIffNoneKnown(s, catalog);
    if lines == [] then None
    else
      TotalIsSumOfLines(s, catalog);
      SnapshotTotalIsLinesTotal(lines);
      var o := Order(user, Snapshot(lines), SumLineTotals(lines));
      assert |o.items| > 0;
      Some(o)
  }

  /**
   Each item of a placed order names a product of the cart and of the catalog,
   with the catalog's title and price and the cart's quantity for it.
   */
  lemma OrderItemMatchesCart(s: seq<Entry>, catalog: Catalog, user: Option<int>, j: int)
    requires WellFormedCatalog(catalog) && DistinctKeys(s)
    requires PlaceOrder(s, catalog, user).Some?
    requires 0 <= j < |PlaceOrder(s, catalog, user).value.items|
    ensures var it := PlaceOrder(s, catalog, user).value.items[j];
      && Has(s, it.productId) && it.productId in catalog
      && it.title == catalog[it.productId].title
      && it.price == catalog[it.productId].price
      && it.qty == Get(s, it.productId)
  {
    LineMatchesEntry(s, catalog, j);
  }

  class Shop {
    /** The product table. */
    var products: Catalog
    /** The order table, oldest first. */
    var orders: seq<Order>
    /** The user table, oldest first. */
    var users: seq<User>

    ghost predicate Valid()
      reads this
    {
      WellFormedCatalog(products) && UniqueEmails(users) && NormalizedEmails(users)
    }

    /** A shop over a given catalog, with no orders and no users yet. */
    constructor (catalog: Catalog)
      requires WellFormedCatalog(catalog)
      ensures Valid() && products == catalog && orders == [] && users == []
    {
      products := catalog;
      orders := [];
      users := [];
    }

    /**
     "Add to cart": an unknown product is a "not found" answer and leaves the
     cart alone; a known one gets max(1, n) more units.
     */
    method AddToCart(cart: SessionCart, pid: ProductId, n: int) returns (found: bool)
      requires cart.Valid()
      modifies cart
      ensures cart.Valid()
      ensures found <==> pid in products
      ensures found ==> cart.Items() == Added(old(cart.Items()), pid, n)
      ensures !found ==> cart.Items() == old(cart.Items())
    {
      if pid !in products {
        return false;
      }
      cart.Add(pid, n);
      found := true;
    }

    /**
     Checkout: price the cart; with no line, write nothing and keep the cart;
     otherwise append one order and only then empty the cart. The answer is
     the position of the new order.
     */
    method Checkout(cart: SessionCart, user: Option<int>) returns (placed: Option<nat>)
      requires cart.Valid()
      modifies this`orders, cart
      ensures cart.Valid()
      ensures PlaceOrder(old(cart.Items()), products, user).None? ==>
        placed == None && orders == old(orders) && cart.Items() == old(cart.Items())
      ensures PlaceOrder(old(cart.Items()), products, user).Some? ==>
        && placed == Some(|old(orders)|)
        && orders == old(orders) + [PlaceOrder(old(cart.Items()), products, user).value]
        && cart.Items() == []
    {
      var items, total := PriceCart(cart, products);
      NoLinesIffNoneKnown(cart.Items(), products);
      if items == [] {
        return None;
      }
      var order := Order(user, Snapshot(items), total);
      orders := orders + [order];
      placed := Some(|orders| - 1);
      cart.Clear();
    }

    /**
     Registration: a user is appended unless a stored user already has the
     normalized address; stored addresses stay unique.
     */
    method Register(name: string, email: string, password: string, hash: string -> string)
      returns (created: bool)
      requires Valid()
      modifies this`users
      ensures Valid()
      ensures created <==> !EmailTaken(old(users), NormalizeEmail(email))
      ensures users == Registered(old(users), name, email, password, hash)
    {
      var e := NormalizeEmail(email);
      if EmailTaken(users, e) {
        return false;
      }
      users := users + [User(Strip(name), e, hash(password))];
      created := true;
    }
  }
}
