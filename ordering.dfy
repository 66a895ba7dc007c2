/** The order of the stored product list: ascending by quantity, produced
    by a stable sort of the fetched list. */
module Ordering {
  import opened Products
  import opened Sequences

  predicate SortedByQuantity(s: seq<Product>) {
    forall i, j | 0 <= i < j < |s| :: s[i].quantity <= s[j].quantity
  }

  /** `p` placed in front of the first element whose quantity is not below its own. */
  function Insert(p: Product, s: seq<Product>): (r: seq<Product>)
    requires SortedByQuantity(s)
    ensures SortedByQuantity(r)
    ensures multiset(r) == multiset(s) + multiset{p}
  {
    if s == [] || p.quantity <= s[0].quantity then [p] + s
    else
      var rest := Insert(p, s[1..]);
      assert s == [s[0]] + s[1..];
      LowerBoundKept(s[0].quantity, p, s[1..], rest);
      PrependKeepsOrder(s[0], rest);
      assert multiset([s[0]] + rest) == multiset{s[0]} + multiset(rest);
      [s[0]] + rest
  }

  lemma PrependKeepsOrder(x: Product, r: seq<Product>)
    requires SortedByQuantity(r)
    requires forall i | 0 <= i < |r| :: x.quantity <= r[i].quantity
    ensures SortedByQuantity([x] + r)
  {
    var t := [x] + r;
    forall i, j | 0 <= i < j < |t| ensures t[i].quantity <= t[j].quantity {
      assert t[j] == r[j - 1];
      if i > 0 {
        assert t[i] == r[i - 1];
      }
    }
  }

  /** Every element of `r` is `p` or one of `s`, so a bound on both bounds `r`. */
  lemma LowerBoundKept(q: real, p: Product, s: seq<Product>, r: seq<Product>)
    requires q <= p.quantity
    requires forall i | 0 <= i < |s| :: q <= s[i].quantity
    requires multiset(r) == multiset(s) + multiset{p}
    ensures forall i | 0 <= i < |r| :: q <= r[i].quantity
  {
    forall i | 0 <= i < |r| ensures q <= r[i].quantity {
      assert r[i] in multiset(r);
      if r[i] != p {
        assert r[i] in multiset(s);
        assert r[i] in s;
      }
    }
  }

  /** The fetched list ordered by the comparator `a.quantity - b.quantity`. */
  function SortByQuantity(s: seq<Product>): (r: seq<Product>)
    ensures SortedByQuantity(r)
    ensures multiset(r) == multiset(s)
  {
    if s == [] then []
    else
      assert s == [s[0]] + s[1..];
      Insert(s[0], SortByQuantity(s[1..]))
  }

  /** An already ordered list is stored as it came. */
  lemma {:induction false} SortedIsUnchanged(s: seq<Product>)
    requires SortedByQuantity(s)
    ensures SortByQuantity(s) == s
  {
    if s != [] {
      SortedIsUnchanged(s[1..]);
    }
  }

  lemma SortIsIdempotent(s: seq<Product>)
    ensures SortByQuantity(SortByQuantity(s)) == SortByQuantity(s)
  {
    SortedIsUnchanged(SortByQuantity(s));
  }

  predicate HasQuantity(p: Product, q: real) {
    p.quantity == q
  }

  lemma {:induction false} InsertIsStable(p: Product, s: seq<Product>, q: real)
    requires SortedByQuantity(s)
    ensures Filter(Insert(p, s), x => HasQuantity(x, q)) == Filter([p] + s, x => HasQuantity(x, q))
  {
    var keep := x => HasQuantity(x, q);
    if s != [] && p.quantity > s[0].quantity {
      var head, rest := s[0], s[1..];
      var tail := Insert(p, rest);
      assert s == [head] + rest;
      assert Insert(p, s) == [head] + tail;
      InsertIsStable(p, rest, q);
      FilterCons(head, tail, keep);
      FilterCons(p, rest, keep);
      FilterCons(p, s, keep);
      FilterCons(head, rest, keep);
      assert !(keep(head) && keep(p));
    }
  }

  /** Stability: products of equal quantity keep their fetched relative order. */
  lemma {:induction false} SortIsStable(s: seq<Product>, q: real)
    ensures Filter(SortByQuantity(s), x => HasQuantity(x, q)) == Filter(s, x => HasQuantity(x, q))
  {
    if s != [] {
      SortIsStable(s[1..], q);
      InsertIsStable(s[0], SortByQuantity(s[1..]), q);
      assert ([s[0]] + SortByQuantity(s[1..]))[1..] == SortByQuantity(s[1..]);
    }
  }

  /** Whatever is kept of an ordered list is ordered: the displayed rows
      are as ordered as the stored list they are filtered from. */
  lemma {:induction false} SubsequenceKeepsOrder(r: seq<Product>, s: seq<Product>)
    requires IsSubsequence(r, s) && SortedByQuantity(s)
    ensures SortedByQuantity(r)
    decreases |s|
  {
    if r != [] {
      if r[0] == s[0] {
        SubsequenceKeepsOrder(r[1..], s[1..]);
        SubsequenceElements(r[1..], s[1..]);
        assert r == [r[0]] + r[1..];
        forall j | 1 <= j < |r| ensures r[0].quantity <= r[j].quantity {
          assert r[1..][j - 1] in s[1..];
        }
      } else {
        SubsequenceKeepsOrder(r, s[1..]);
      }
    }
  }
}
