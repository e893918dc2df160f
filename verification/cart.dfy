/**
 The session shopping cart of the storefront (app.py): an insertion-ordered
 table from product id to quantity, changed in place by add, update and clear.

 The abstract value of a cart is the sequence of its (key, quantity) pairs in
 the order the table yields them; the functions below give the meaning of
 each table operation on that sequence, and class SessionCart implements the
 table as a key order plus a map.
 */
module Cart {

  type ProductId = int

  /** One key/quantity pair of the cart table. */
  datatype Entry = Entry(pid: ProductId, qty: int)

  function Max(a: int, b: int): int
  {
    if a >= b then a else b
  }

  /** True iff `pid` is a key of the cart. */
  predicate Has(s: seq<Entry>, pid: ProductId)
  {
    s != [] && (s[0].pid == pid || Has(s[1..], pid))
  }

  /** Every key occurs once. */
  ghost predicate DistinctKeys(s: seq<Entry>)
  {
    s == [] || (!Has(s[1..], s[0].pid) && DistinctKeys(s[1..]))
  }

  /** Every quantity is at least one. */
  ghost predicate Positive(s: seq<Entry>)
  {
    s == [] || (s[0].qty >= 1 && Positive(s[1..]))
  }

  /** The invariant of a cart: each key once, with a quantity of at least one. */
  ghost predicate WellFormed(s: seq<Entry>)
  {
    DistinctKeys(s) && Positive(s)
  }

  /** The quantity stored under `pid`, or 0 when it is absent (a lookup with default 0). */
  function Get(s: seq<Entry>, pid: ProductId): (v: int)
    ensures !Has(s, pid) ==> v == 0
    ensures Positive(s) ==> (v >= 1 <==> Has(s, pid))
  {
    if s == [] then 0
    else if s[0].pid == pid then s[0].qty
    else Get(s[1..], pid)
  }

  /**
   Assignment `cart[pid] = v`: an existing key keeps its place and takes the
   new quantity, a new key goes last.
   */
  function Put(s: seq<Entry>, pid: ProductId, v: int): (r: seq<Entry>)
    ensures !Has(s, pid) ==> r == s + [Entry(pid, v)]
    ensures Has(s, pid) ==> |r| == |s|
    ensures Has(r, pid) && Get(r, pid) == v
  {
    if s == [] then [Entry(pid, v)]
    else if s[0].pid == pid then [Entry(pid, v)] + s[1..]
    else [s[0]] + Put(s[1..], pid, v)
  }

  /**
   Removal `cart.pop(pid, None)`: the entry for `pid` goes, the others keep
   their order, and an absent key is no error.
   */
  function Pop(s: seq<Entry>, pid: ProductId): (r: seq<Entry>)
    ensures !Has(s, pid) ==> r == s
    ensures Has(s, pid) ==> |r| == |s| - 1
  {
    if s == [] then []
    else if s[0].pid == pid then s[1..]
    else [s[0]] + Pop(s[1..], pid)
  }

  /** Assignment leaves every other key as it was. */
  lemma {:induction false} PutOthers(s: seq<Entry>, pid: ProductId, v: int, k: ProductId)
    requires k != pid
    ensures Get(Put(s, pid, v), k) == Get(s, k)
    ensures Has(Put(s, pid, v), k) == Has(s, k)
  {
    if s != [] && s[0].pid != pid {
      PutOthers(s[1..], pid, v, k);
    }
  }

  /** Assignment keeps keys distinct and, for a positive value, quantities positive. */
  lemma {:induction false} PutWellFormed(s: seq<Entry>, pid: ProductId, v: int)
    ensures DistinctKeys(s) ==> DistinctKeys(Put(s, pid, v))
    ensures Positive(s) && v >= 1 ==> Positive(Put(s, pid, v))
  {
    if s != [] && s[0].pid != pid {
      PutWellFormed(s[1..], pid, v);
      PutOthers(s[1..], pid, v, s[0].pid);
    }
  }

  /** Removal leaves every other key as it was. */
  lemma {:induction false} PopOthers(s: seq<Entry>, pid: ProductId, k: ProductId)
    requires k != pid
    ensures Get(Pop(s, pid), k) == Get(s, k)
    ensures Has(Pop(s, pid), k) == Has(s, k)
  {
    if s != [] && s[0].pid != pid {
      PopOthers(s[1..], pid, k);
    }
  }

  /** Removal keeps the invariant, and with distinct keys the key is gone afterwards. */
  lemma {:induction false} PopWellFormed(s: seq<Entry>, pid: ProductId)
    ensures DistinctKeys(s) ==> DistinctKeys(Pop(s, pid)) && !Has(Pop(s, pid), pid)
    ensures Positive(s) ==> Positive(Pop(s, pid))
  {
    if s != [] && s[0].pid != pid {
      PopWellFormed(s[1..], pid);
      PopOthers(s[1..], pid, s[0].pid);
    }
  }

  /** The cart after "add to cart" of `n` units of `pid`: max(1, n) more units. */
  function Added(s: seq<Entry>, pid: ProductId, n: int): (r: seq<Entry>)
    ensures Has(r, pid) && Get(r, pid) == Get(s, pid) + Max(1, n)
    ensures WellFormed(s) ==> WellFormed(r) && Get(r, pid) > Get(s, pid) >= 0
  {
    PutWellFormed(s, pid, Get(s, pid) + Max(1, n));
    Put(s, pid, Get(s, pid) + Max(1, n))
  }

  /**
   The cart after the "update" action with quantity `n`: n is clamped to
   max(0, n); 0 removes the key, anything else replaces the quantity.
   */
  function Updated(s: seq<Entry>, pid: ProductId, n: int): (r: seq<Entry>)
    ensures n <= 0 && DistinctKeys(s) ==> !Has(r, pid)
    ensures n > 0 ==> Has(r, pid) && Get(r, pid) == n
    ensures WellFormed(s) ==> WellFormed(r)
  {
    var q := Max(0, n);
    PopWellFormed(s, pid);
    PutWellFormed(s, pid, q);
    if q == 0 then Pop(s, pid) else Put(s, pid, q)
  }

  /** Adding and updating change no key but `pid`. */
  lemma OnlyPidChanges(s: seq<Entry>, pid: ProductId, n: int, k: ProductId)
    requires k != pid
    ensures Get(Added(s, pid, n), k) == Get(s, k) && Has(Added(s, pid, n), k) == Has(s, k)
    ensures Get(Updated(s, pid, n), k) == Get(s, k) && Has(Updated(s, pid, n), k) == Has(s, k)
  {
    PutOthers(s, pid, Get(s, pid) + Max(1, n), k);
    PutOthers(s, pid, n, k);
    PopOthers(s, pid, k);
  }

  /** The sum of all quantities (the cart-count badge). */
  function QtySum(s: seq<Entry>): (c: int)
    ensures Positive(s) ==> c >= |s|
  {
    if s == [] then 0 else s[0].qty + QtySum(s[1..])
  }

  // ---------------------------------------------------------------------
  // Order of entries

  lemma {:induction false} HasAt(s: seq<Entry>, i: int)
    requires 0 <= i < |s|
    ensures Has(s, s[i].pid)
  {
    if i > 0 {
      HasAt(s[1..], i - 1);
    }
  }

  /** With distinct keys, the quantity stored at a position is the one looked up. */
  lemma {:induction false} GetAt(s: seq<Entry>, i: int)
    requires DistinctKeys(s) && 0 <= i < |s|
    ensures Get(s, s[i].pid) == s[i].qty
  {
    if i > 0 {
      HasAt(s[1..], i - 1);
      GetAt(s[1..], i - 1);
    }
  }

  /** Assigning to a present key replaces its entry in place. */
  lemma {:induction false} PutAt(s: seq<Entry>, i: int, v: int)
    requires DistinctKeys(s) && 0 <= i < |s|
    ensures Put(s, s[i].pid, v) == s[i := Entry(s[i].pid, v)]
  {
    if i > 0 {
      HasAt(s[1..], i - 1);
      PutAt(s[1..], i - 1, v);
      assert s[1..][i - 1 := Entry(s[i].pid, v)] == s[i := Entry(s[i].pid, v)][1..];
    }
  }

  /** Popping a present key cuts its entry out and keeps the others in order. */
  lemma {:induction false} PopAt(s: seq<Entry>, i: int)
    requires DistinctKeys(s) && 0 <= i < |s|
    ensures Pop(s, s[i].pid) == s[..i] + s[i + 1..]
  {
    if i > 0 {
      HasAt(s[1..], i - 1);
      PopAt(s[1..], i - 1);
      assert s[1..][..i - 1] + s[1..][i..] == (s[..i] + s[i + 1..])[1..];
    }
  }

  // ---------------------------------------------------------------------
  // Properties of the cart operations

  /** Assigning the value a key already has changes nothing. */
  lemma {:induction false} PutSame(s: seq<Entry>, pid: ProductId)
    requires Has(s, pid)
    ensures Put(s, pid, Get(s, pid)) == s
  {
    if s[0].pid != pid {
      PutSame(s[1..], pid);
    }
  }

  /** Popping the key that was appended last gives back the cart before. */
  lemma {:induction false} PopLast(s: seq<Entry>, e: Entry)
    requires !Has(s, e.pid)
    ensures Pop(s + [e], e.pid) == s
  {
    if s != [] {
      assert (s + [e])[1..] == s[1..] + [e];
      PopLast(s[1..], e);
    }
  }

  /**
   Adding a product that was not in the cart and then updating it to 0 gives
   back the original cart: no zero-quantity entry is left behind.
   */
  lemma AddThenRemoveRestores(s: seq<Entry>, pid: ProductId, n: int)
    requires !Has(s, pid)
    ensures Updated(Added(s, pid, n), pid, 0) == s
  {
    var e := Entry(pid, Get(s, pid) + Max(1, n));
    assert Added(s, pid, n) == s + [e];
    assert Updated(s + [e], pid, 0) == Pop(s + [e], pid);
    PopLast(s, e);
  }

  /** Applying the same update twice gives the same cart as applying it once. */
  lemma UpdateIdempotent(s: seq<Entry>, pid: ProductId, n: int)
    requires DistinctKeys(s)
    ensures Updated(Updated(s, pid, n), pid, n) == Updated(s, pid, n)
  {
    if n > 0 {
      PutSame(Updated(s, pid, n), pid);
    }
  }

  /** The count grows by exactly what is assigned minus what was there. */
  lemma {:induction false} QtySumPut(s: seq<Entry>, pid: ProductId, v: int)
    ensures QtySum(Put(s, pid, v)) == QtySum(s) - Get(s, pid) + v
  {
    if s != [] && s[0].pid != pid {
      QtySumPut(s[1..], pid, v);
    }
  }

  /** Removing a key lowers the count by that key's quantity. */
  lemma {:induction false} QtySumPop(s: seq<Entry>, pid: ProductId)
    ensures QtySum(Pop(s, pid)) == QtySum(s) - Get(s, pid)
  {
    if s != [] && s[0].pid != pid {
      QtySumPop(s[1..], pid);
    }
  }

  /** "Add to cart" raises the cart-count badge by max(1, n): a quantity of -3 counts as 1. */
  lemma AddRaisesCount(s: seq<Entry>, pid: ProductId, n: int)
    ensures QtySum(Added(s, pid, n)) == QtySum(s) + Max(1, n)
    ensures n <= 1 ==> QtySum(Added(s, pid, n)) == QtySum(s) + 1
  {
    QtySumPut(s, pid, Get(s, pid) + Max(1, n));
  }

  // ---------------------------------------------------------------------
  // The table in place

  /**
   The entries a key order and a quantity map stand for. What this means for
   the cart is stated by HasEntriesOf, EntriesOfWellFormed and EntriesOfWithout.
   */
  function EntriesOf(keys: seq<ProductId>, qty: map<ProductId, int>): (s: seq<Entry>)
    requires forall i :: 0 <= i < |keys| ==> keys[i] in qty
    ensures |s| == |keys|
    ensures forall i :: 0 <= i < |keys| ==> s[i] == Entry(keys[i], qty[keys[i]])
  {
    seq(|keys|, i requires 0 <= i < |keys| => Entry(keys[i], qty[keys[i]]))
  }

  /** A key is in the entries iff it is in the key order. */
  lemma {:induction false} HasEntriesOf(keys: seq<ProductId>, qty: map<ProductId, int>, k: ProductId)
    requires forall i :: 0 <= i < |keys| ==> keys[i] in qty
    ensures Has(EntriesOf(keys, qty), k) <==> k in keys
  {
    if keys != [] {
      assert EntriesOf(keys, qty)[1..] == EntriesOf(keys[1..], qty);
      HasEntriesOf(keys[1..], qty, k);
    }
  }

  /** Keys that occur once and positive quantities give a well-formed cart. */
  lemma {:induction false} EntriesOfWellFormed(keys: seq<ProductId>, qty: map<ProductId, int>)
    requires forall i :: 0 <= i < |keys| ==> keys[i] in qty
    requires forall i, j :: 0 <= i < j < |keys| ==> keys[i] != keys[j]
    ensures DistinctKeys(EntriesOf(keys, qty))
    ensures (forall i :: 0 <= i < |keys| ==> qty[keys[i]] >= 1) ==> Positive(EntriesOf(keys, qty))
  {
    if keys != [] {
      assert EntriesOf(keys, qty)[1..] == EntriesOf(keys[1..], qty);
      assert keys[0] !in keys[1..];
      HasEntriesOf(keys[1..], qty, keys[0]);
      EntriesOfWellFormed(keys[1..], qty);
    }
  }

  /**
   A key order and a quantity map that stand for a cart: each key once, the
   map's keys exactly the ordered ones, every quantity at least one.
   */
  ghost predicate IsTable(keys: seq<ProductId>, qty: map<ProductId, int>)
  {
    && (forall i, j :: 0 <= i < j < |keys| ==> keys[i] != keys[j])
    && (forall i :: 0 <= i < |keys| ==> keys[i] in qty)
    && (forall k :: k in qty ==> k in keys && qty[k] >= 1)
  }

  /** Assigning to a key already in the order replaces its entry in place. */
  lemma TableAssign(keys: seq<ProductId>, qty: map<ProductId, int>, i: int, v: int)
    requires IsTable(keys, qty) && 0 <= i < |keys| && v >= 1
    ensures IsTable(keys, qty[keys[i] := v])
    ensures EntriesOf(keys, qty[keys[i] := v]) == EntriesOf(keys, qty)[i := Entry(keys[i], v)]
  {
    var s, t := EntriesOf(keys, qty), EntriesOf(keys, qty[keys[i] := v]);
    forall j | 0 <= j < |keys|
      ensures t[j] == s[i := Entry(keys[i], v)][j]
    {
      if j != i {
        assert keys[j] != keys[i] by {
          if j < i {} else {}
        }
      }
    }
  }

  /** Assigning to a new key appends its entry. */
  lemma TableAppend(keys: seq<ProductId>, qty: map<ProductId, int>, pid: ProductId, v: int)
    requires IsTable(keys, qty) && pid !in qty && v >= 1
    ensures IsTable(keys + [pid], qty[pid := v])
    ensures EntriesOf(keys + [pid], qty[pid := v]) == EntriesOf(keys, qty) + [Entry(pid, v)]
  {
    var k2 := keys + [pid];
    forall i, j | 0 <= i < j < |k2|
      ensures k2[i] != k2[j]
    {
      if j == |keys| {
        assert k2[i] == keys[i];
      }
    }
  }

  /** The key order with `pid` taken out. */
  function Without(keys: seq<ProductId>, pid: ProductId): seq<ProductId>
  {
    if keys == [] then []
    else if keys[0] == pid then keys[1..]
    else [keys[0]] + Without(keys[1..], pid)
  }

  lemma {:induction false} WithoutAt(keys: seq<ProductId>, i: int)
    requires 0 <= i < |keys|
    requires forall j :: 0 <= j < i ==> keys[j] != keys[i]
    ensures Without(keys, keys[i]) == keys[..i] + keys[i + 1..]
  {
    if i > 0 {
      WithoutAt(keys[1..], i - 1);
      assert keys[1..][..i - 1] + keys[1..][i..] == (keys[..i] + keys[i + 1..])[1..];
    }
  }

  lemma {:induction false} WithoutAbsent(keys: seq<ProductId>, pid: ProductId)
    requires pid !in keys
    ensures Without(keys, pid) == keys
  {
    if keys != [] {
      WithoutAbsent(keys[1..], pid);
    }
  }

  /** Taking a key out of the order keeps the other keys, each once. */
  lemma {:induction false} WithoutKeys(keys: seq<ProductId>, pid: ProductId)
    requires forall i, j :: 0 <= i < j < |keys| ==> keys[i] != keys[j]
    ensures forall k :: k in Without(keys, pid) <==> k in keys && k != pid
    ensures forall i, j :: 0 <= i < j < |Without(keys, pid)| ==> Without(keys, pid)[i] != Without(keys, pid)[j]
  {
    if keys != [] {
      WithoutKeys(keys[1..], pid);
      if keys[0] != pid {
        assert keys[0] !in keys[1..];
        var w := Without(keys, pid);
        assert w == [keys[0]] + Without(keys[1..], pid);
      }
    }
  }

  /** Every key left in the order is still in the map once `pid` is removed from both. */
  lemma WithoutInDomain(keys: seq<ProductId>, qty: map<ProductId, int>, pid: ProductId)
    requires forall i :: 0 <= i < |keys| ==> keys[i] in qty
    requires forall i, j :: 0 <= i < j < |keys| ==> keys[i] != keys[j]
    ensures forall i :: 0 <= i < |Without(keys, pid)| ==> Without(keys, pid)[i] in qty - {pid}
  {
    var w := Without(keys, pid);
    WithoutKeys(keys, pid);
    forall i | 0 <= i < |w|
      ensures w[i] in qty - {pid}
    {
      assert w[i] in w;
      var j :| 0 <= j < |keys| && keys[j] == w[i];
    }
  }

  /** Cutting the key at position i out of the order and the map cuts its pair out of the pairs. */
  lemma EntriesOfCut(keys: seq<ProductId>, qty: map<ProductId, int>, i: int, w: seq<ProductId>)
    requires forall j :: 0 <= j < |keys| ==> keys[j] in qty
    requires 0 <= i < |keys|
    requires forall j :: 0 <= j < |keys| && j != i ==> keys[j] != keys[i]
    requires w == keys[..i] + keys[i + 1..]
    ensures forall j :: 0 <= j < |w| ==> w[j] in qty - {keys[i]}
    ensures EntriesOf(w, qty - {keys[i]}) == EntriesOf(keys, qty)[..i] + EntriesOf(keys, qty)[i + 1..]
  {
    var s := EntriesOf(keys, qty);
    var u := s[..i] + s[i + 1..];
    forall j | 0 <= j < |w|
      ensures j < i ==> w[j] == keys[j] && u[j] == s[j]
      ensures j >= i ==> w[j] == keys[j + 1] && u[j] == s[j + 1]
    {
    }
    var t := EntriesOf(w, qty - {keys[i]});
    forall j | 0 <= j < |w|
      ensures t[j] == u[j]
    {
    }
  }

  /** Taking a key out of both the order and the map pops its entry. */
  lemma EntriesOfWithout(keys: seq<ProductId>, qty: map<ProductId, int>, pid: ProductId)
    requires forall i :: 0 <= i < |keys| ==> keys[i] in qty
    requires forall i, j :: 0 <= i < j < |keys| ==> keys[i] != keys[j]
    requires forall i :: 0 <= i < |Without(keys, pid)| ==> Without(keys, pid)[i] in qty - {pid}
    ensures EntriesOf(Without(keys, pid), qty - {pid}) == Pop(EntriesOf(keys, qty), pid)
  {
    var s := EntriesOf(keys, qty);
    EntriesOfWellFormed(keys, qty);
    HasEntriesOf(keys, qty, pid);
    if pid in keys {
      var i :| 0 <= i < |keys| && keys[i] == pid;
      PopAt(s, i);
      WithoutAt(keys, i);
      EntriesOfCut(keys, qty, i, Without(keys, pid));
    } else {
      WithoutAbsent(keys, pid);
      assert EntriesOf(keys, qty - {pid}) == s;
    }
  }

  class SessionCart {
    /** The keys of the table in insertion order. */
    var keys: seq<ProductId>
    /** The table's key/quantity pairs. */
    var qty: map<ProductId, int>

    ghost predicate Valid()
      reads this
    {
      IsTable(keys, qty)
    }

    /** The cart's entries in the order the table yields them. */
    function Items(): (s: seq<Entry>)
      reads this
      requires Valid()
      ensures WellFormed(s)
    {
      EntriesOfWellFormed(keys, qty);
      EntriesOf(keys, qty)
    }

    /** The empty cart a session starts with. */
    constructor ()
      ensures Valid() && Items() == []
    {
      keys := [];
      qty := map[];
    }

    /** The cart-count badge: the sum of all quantities. */
    function Count(): (c: int)
      reads this
      requires Valid()
      ensures c >= |keys|
      ensures c == 0 <==> keys == []
    {
      QtySum(Items())
    }

    /** Add `n` units of `pid`: the quantity grows by max(1, n). */
    method Add(pid: ProductId, n: int)
      requires Valid()
      modifies this
      ensures Valid()
      ensures Items() == Added(old(Items()), pid, n)
    {
      ghost var before := Items();
      var current := if pid in qty then qty[pid] else 0;
      LookupMatchesGet(pid);
      assert Added(before, pid, n) == Put(before, pid, current + Max(1, n));
      Set(pid, current + Max(1, n));
    }

    /** The "update" action: quantity max(0, n); 0 removes the key, else it is replaced. */
    method Update(pid: ProductId, n: int)
      requires Valid()
      modifies this
      ensures Valid()
      ensures Items() == Updated(old(Items()), pid, n)
    {
      var q := Max(0, n);
      if q == 0 {
        Remove(pid);
      } else {
        Set(pid, q);
      }
    }

    /** The "clear" action: the cart becomes empty. */
    method Clear()
      modifies this
      ensures Valid() && Items() == []
    {
      keys := [];
      qty := map[];
    }

    /** A POST to the cart page: "update", "clear", or anything else, which changes nothing. */
    method Post(action: string, pid: ProductId, n: int)
      requires Valid()
      modifies this
      ensures Valid()
      ensures action == "update" ==> Items() == Updated(old(Items()), pid, n)
      ensures action == "clear" ==> Items() == []
      ensures action != "update" && action != "clear" ==> Items() == old(Items())
    {
      if action == "update" {
        Update(pid, n);
      } else if action == "clear" {
        Clear();
      }
    }

    /** The map lookup with default 0 agrees with Get on the entries. */
    lemma LookupMatchesGet(pid: ProductId)
      requires Valid()
      ensures Get(Items(), pid) == if pid in qty then qty[pid] else 0
    {
      HasEntriesOf(keys, qty, pid);
      if pid in qty {
        var i :| 0 <= i < |keys| && keys[i] == pid;
        GetAt(Items(), i);
      }
    }

    /** `cart[pid] = v`. */
    method Set(pid: ProductId, v: int)
      requires Valid() && v >= 1
      modifies this
      ensures Valid()
      ensures Items() == Put(old(Items()), pid, v)
    {
      ghost var before := Items();
      if pid in qty {
        var i :| 0 <= i < |keys| && keys[i] == pid;
        PutAt(before, i, v);
        TableAssign(keys, qty, i, v);
        qty := qty[pid := v];
      } else {
        HasEntriesOf(keys, qty, pid);
        TableAppend(keys, qty, pid, v);
        keys := keys + [pid];
        qty := qty[pid := v];
      }
    }

    /** `cart.pop(pid, None)`. */
    method Remove(pid: ProductId)
      requires Valid()
      modifies this
      ensures Valid()
      ensures Items() == Pop(old(Items()), pid)
    {
      WithoutKeys(keys, pid);
      WithoutInDomain(keys, qty, pid);
      EntriesOfWithout(keys, qty, pid);
      keys := Without(keys, pid);
      qty := qty - {pid};
    }
  }
}
