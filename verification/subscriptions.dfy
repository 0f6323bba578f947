/** Subscriptions and the orderings over a list of them.

    A subscription is the record `{callback, scope, weight}` that `on` pushes
    onto an event's list. The list is kept in ascending weight order by an
    external stable sort; here that sort is an insertion sort whose contract
    is exactly "sorted, and within each weight the original order is kept".
 */
module Subscriptions {
  import opened Types

  /** One registered interest in an event. */
  datatype Sub = Sub(callback: Option<Callback>, scope: Option<Scope>, weight: int)

  /** The record `on` builds: `scope || null` and `weight || 0`. */
  function NewSub(callback: Option<Callback>, scope: Option<Scope>, weight: Option<int>): (s: Sub)
    ensures s.callback == callback && s.scope == scope
    ensures weight.None? ==> s.weight == 0
    ensures weight.Some? ==> s.weight == weight.value
  {
    Sub(callback, scope, weight.GetOr(0))
  }

  /** Ascending by weight. */
  predicate Sorted(l: seq<Sub>) {
    forall i, j :: 0 <= i < j < |l| ==> l[i].weight <= l[j].weight
  }

  /** The subscriptions of weight `v`, in the order they appear in `l`. */
  function WithWeight(l: seq<Sub>, v: int): seq<Sub> {
    if |l| == 0 then []
    else WithWeight(l[..|l| - 1], v) + (if l[|l| - 1].weight == v then [l[|l| - 1]] else [])
  }

  /** `n` copies of `s`. */
  function Repeat(s: Sub, n: nat): (r: seq<Sub>)
    ensures |r| == n
    ensures forall i :: 0 <= i < n ==> r[i] == s
  {
    if n == 0 then [] else [s] + Repeat(s, n - 1)
  }

  /** A positive number of copies starts with one copy. */
  lemma RepeatCons(s: Sub, n: nat)
    requires n > 0
    ensures Repeat(s, n) == [s] + Repeat(s, n - 1)
  {
  }

  /** Appending one element extends only that element's weight class. */
  lemma WithWeightSnoc(l: seq<Sub>, x: Sub, v: int)
    ensures WithWeight(l + [x], v) == WithWeight(l, v) + (if x.weight == v then [x] else [])
  {
    assert (l + [x])[..|l|] == l;
  }

  /** Weight classes distribute over concatenation. */
  lemma {:induction false} WithWeightAppend(a: seq<Sub>, b: seq<Sub>, v: int)
    ensures WithWeight(a + b, v) == WithWeight(a, v) + WithWeight(b, v)
    decreases |b|
  {
    if |b| == 0 {
      assert a + b == a;
    } else {
      var bi, y := b[..|b| - 1], b[|b| - 1];
      assert b == bi + [y];
      assert a + b == (a + bi) + [y];
      WithWeightAppend(a, bi, v);
      WithWeightSnoc(a + bi, y, v);
      WithWeightSnoc(bi, y, v);
    }
  }

  /** Stable insertion of `x` into `l`: `x` goes after every element whose
      weight is not larger than its own. This is what a stable sort makes of
      a sorted list with `x` pushed onto its end. */
  function Insert(l: seq<Sub>, x: Sub): (r: seq<Sub>)
    ensures |r| == |l| + 1
    decreases |l|
  {
    if |l| == 0 then [x]
    else if l[|l| - 1].weight <= x.weight then l + [x]
    else Insert(l[..|l| - 1], x) + [l[|l| - 1]]
  }

  /** A subscription no lighter than every listed one goes to the back. */
  lemma InsertBack(l: seq<Sub>, x: Sub)
    requires forall i :: 0 <= i < |l| ==> l[i].weight <= x.weight
    ensures Insert(l, x) == l + [x]
  {
    if |l| == 0 {
      assert l + [x] == [x];
    } else {
      assert l[|l| - 1].weight <= x.weight;
    }
  }

  /** A subscription lighter than every listed one goes to the front. */
  lemma {:induction false} InsertFront(l: seq<Sub>, x: Sub)
    requires forall i :: 0 <= i < |l| ==> x.weight < l[i].weight
    ensures Insert(l, x) == [x] + l
    decreases |l|
  {
    if |l| > 0 {
      var init := l[..|l| - 1];
      InsertFront(init, x);
      assert [x] + init + [l[|l| - 1]] == [x] + l;
    }
  }

  /** Insertion adds exactly one copy of `x` and keeps everything else. */
  lemma {:induction false} InsertCount(l: seq<Sub>, x: Sub)
    ensures multiset(Insert(l, x)) == multiset(l) + multiset{x}
    decreases |l|
  {
    if |l| > 0 && l[|l| - 1].weight > x.weight {
      assert l == l[..|l| - 1] + [l[|l| - 1]];
      InsertCount(l[..|l| - 1], x);
    }
  }

  /** Inserting into a sorted list keeps it sorted. */
  lemma {:induction false} InsertSorted(l: seq<Sub>, x: Sub)
    requires Sorted(l)
    ensures Sorted(Insert(l, x))
    decreases |l|
  {
    if |l| > 0 && l[|l| - 1].weight > x.weight {
      var init, last := l[..|l| - 1], l[|l| - 1];
      var mid := Insert(init, x);
      InsertSorted(init, x);
      InsertCount(init, x);
      forall i | 0 <= i < |mid| ensures mid[i].weight <= last.weight {
        var y := mid[i];
        assert y in multiset(mid);
        assert y in multiset(init) || y == x;
        if y != x {
          assert y in init;
        }
      }
      SortedSnoc(mid, last);
    }
  }

  /** A sorted list followed by an element no lighter than any of its own is sorted. */
  lemma SortedSnoc(a: seq<Sub>, y: Sub)
    requires Sorted(a)
    requires forall i :: 0 <= i < |a| ==> a[i].weight <= y.weight
    ensures Sorted(a + [y])
  {
  }

  /** Inserting `x` appends it to its own weight class and leaves every other
      class alone: equal weights keep registration order. */
  lemma {:induction false} InsertStable(l: seq<Sub>, x: Sub, v: int)
    ensures WithWeight(Insert(l, x), v) == WithWeight(l, v) + (if x.weight == v then [x] else [])
    decreases |l|
  {
    if |l| == 0 {
      WithWeightSnoc([], x, v);
    } else if l[|l| - 1].weight <= x.weight {
      WithWeightSnoc(l, x, v);
    } else {
      var init, last := l[..|l| - 1], l[|l| - 1];
      assert l == init + [last];
      InsertStable(init, x, v);
      WithWeightSnoc(Insert(init, x), last, v);
      WithWeightSnoc(init, last, v);
    }
  }

  /** The stable ascending sort by weight that `on` applies after each push. */
  function SortByWeight(l: seq<Sub>): (r: seq<Sub>)
    ensures Sorted(r)
    ensures multiset(r) == multiset(l)
    ensures forall v :: WithWeight(r, v) == WithWeight(l, v)
  {
    if |l| == 0 then []
    else
      var init, last := l[..|l| - 1], l[|l| - 1];
      assert l == init + [last];
      var r := Insert(SortByWeight(init), last);
      InsertSorted(SortByWeight(init), last);
      InsertCount(SortByWeight(init), last);
      forall v ensures WithWeight(r, v) == WithWeight(l, v) {
        InsertStable(SortByWeight(init), last, v);
        WithWeightSnoc(init, last, v);
      }
      r
  }

  /** The weight classes of a list hold only its own elements, with that weight. */
  lemma {:induction false} WithWeightMembers(l: seq<Sub>, v: int, s: Sub)
    requires s in WithWeight(l, v)
    ensures s in l && s.weight == v
  {
    var init := l[..|l| - 1];
    if s in WithWeight(init, v) {
      WithWeightMembers(init, v, s);
    }
  }

  /** A sorted list is determined by its weight classes: a sorted list with
      the same classes as `l` is `SortByWeight(l)`, so the contract of
      `SortByWeight` pins down the one stable sort. */
  lemma {:induction false} SortedUnique(a: seq<Sub>, b: seq<Sub>)
    requires Sorted(a) && Sorted(b)
    requires forall v :: WithWeight(a, v) == WithWeight(b, v)
    ensures a == b
    decreases |a| + |b|
  {
    if |a| == 0 && |b| == 0 {
    } else if |a| == 0 {
      ClassOfLast(b);
      assert false;
    } else if |b| == 0 {
      ClassOfLast(a);
      assert false;
    } else {
      var ai, bi := a[..|a| - 1], b[..|b| - 1];
      LastAgrees(a, b);
      assert a == ai + [a[|a| - 1]] && b == bi + [a[|a| - 1]];
      InitClasses(ai, bi, a[|a| - 1]);
      assert Sorted(ai) && Sorted(bi);
      SortedUnique(ai, bi);
    }
  }

  /** Two sorted lists with the same weight classes end with the same element:
      the last of the heaviest class. */
  lemma LastAgrees(a: seq<Sub>, b: seq<Sub>)
    requires Sorted(a) && Sorted(b) && |a| > 0 && |b| > 0
    requires forall v :: WithWeight(a, v) == WithWeight(b, v)
    ensures a[|a| - 1] == b[|b| - 1]
  {
    var x, y := a[|a| - 1], b[|b| - 1];
    assert x.weight == y.weight by {
      ClassOfLast(a);
      ClassOfLast(b);
      LastOfClassIsBounded(b, x);
      LastOfClassIsBounded(a, y);
    }
    var c := WithWeight(a, x.weight);
    assert c == WithWeight(a[..|a| - 1], x.weight) + [x];
    assert c == WithWeight(b[..|b| - 1], y.weight) + [y];
    assert c[|c| - 1] == x && c[|c| - 1] == y;
  }

  /** Lists that end with the same element and have the same weight classes
      keep the same weight classes once that element is dropped. */
  lemma InitClasses(a: seq<Sub>, b: seq<Sub>, x: Sub)
    requires forall v :: WithWeight(a + [x], v) == WithWeight(b + [x], v)
    ensures forall v :: WithWeight(a, v) == WithWeight(b, v)
  {
    forall v ensures WithWeight(a, v) == WithWeight(b, v) {
      var t := if x.weight == v then [x] else [];
      WithWeightSnoc(a, x, v);
      WithWeightSnoc(b, x, v);
      CancelSuffix(WithWeight(a, v), WithWeight(b, v), t);
    }
  }

  /** Equal lists with equal suffixes have equal prefixes. */
  lemma CancelSuffix(p: seq<Sub>, q: seq<Sub>, t: seq<Sub>)
    requires p + t == q + t
    ensures p == q
  {
    assert |p| == |q|;
    assert p == (p + t)[..|p|];
    assert q == (q + t)[..|q|];
  }

  /** The last element of a non-empty list is in its own weight class. */
  lemma ClassOfLast(l: seq<Sub>)
    ensures |l| > 0 ==> WithWeight(l, l[|l| - 1].weight) != []
  {
  }

  /** In a sorted list `l` holding an element of `x`'s weight class, the last
      element weighs at least as much as `x`. */
  lemma LastOfClassIsBounded(l: seq<Sub>, x: Sub)
    requires Sorted(l) && |l| > 0
    requires WithWeight(l, x.weight) != []
    ensures x.weight <= l[|l| - 1].weight
  {
    var s := WithWeight(l, x.weight)[0];
    WithWeightMembers(l, x.weight, s);
  }

  /** A list that is already sorted is left as it is by the sort. */
  lemma SortSortedIsIdentity(l: seq<Sub>)
    requires Sorted(l)
    ensures SortByWeight(l) == l
  {
    SortedUnique(SortByWeight(l), l);
  }

  /** Pushing onto a sorted list and sorting is the stable insertion. */
  lemma SortAfterPush(l: seq<Sub>, x: Sub)
    requires Sorted(l)
    ensures SortByWeight(l + [x]) == Insert(l, x)
  {
    InsertSorted(l, x);
    forall v ensures WithWeight(SortByWeight(l + [x]), v) == WithWeight(Insert(l, x), v) {
      InsertStable(l, x, v);
      WithWeightSnoc(l, x, v);
    }
    SortedUnique(SortByWeight(l + [x]), Insert(l, x));
  }

  /** Where `Insert` places `x`: after the elements of weight at most `w`. */
  function InsertPosition(l: seq<Sub>, w: int): (k: nat)
    ensures k <= |l|
    ensures Sorted(l) ==> forall i :: 0 <= i < k ==> l[i].weight <= w
    ensures forall i :: k <= i < |l| ==> l[i].weight > w
  {
    if |l| == 0 || l[|l| - 1].weight <= w then |l|
    else InsertPosition(l[..|l| - 1], w)
  }

  /** For a sorted list, `Insert` splices `x` in between the elements that
      weigh at most as much as `x` and those that weigh more. */
  lemma {:induction false} InsertSplices(l: seq<Sub>, x: Sub)
    ensures Insert(l, x) == l[..InsertPosition(l, x.weight)] + [x] + l[InsertPosition(l, x.weight)..]
    decreases |l|
  {
    if |l| > 0 && l[|l| - 1].weight > x.weight {
      var init, last := l[..|l| - 1], l[|l| - 1];
      InsertSplices(init, x);
      var k := InsertPosition(l, x.weight);
      assert k == InsertPosition(init, x.weight);
      assert Insert(l, x) == Insert(init, x) + [last];
      assert init[..k] == l[..k];
      assert init[k..] + [last] == l[k..];
      assert init[..k] + [x] + init[k..] + [last] == init[..k] + [x] + (init[k..] + [last]);
    }
  }

  /** The list with every subscription whose callback is `cb` removed. */
  function Without(l: seq<Sub>, cb: Callback): (r: seq<Sub>)
    ensures |r| <= |l|
  {
    if |l| == 0 then []
    else (if l[0].callback == Some(cb) then [] else [l[0]]) + Without(l[1..], cb)
  }

  /** Removal drops every copy of a subscription with callback `cb` and keeps
      every other subscription as many times as it occurred. */
  lemma {:induction false} WithoutCount(l: seq<Sub>, cb: Callback)
    ensures forall s :: multiset(Without(l, cb))[s] == if s.callback == Some(cb) then 0 else multiset(l)[s]
  {
    if |l| > 0 {
      assert l == [l[0]] + l[1..];
      WithoutCount(l[1..], cb);
    }
  }

  /** Removal keeps exactly the subscriptions with another callback. */
  lemma WithoutMembers(l: seq<Sub>, cb: Callback)
    ensures forall s :: s in Without(l, cb) <==> s in l && s.callback != Some(cb)
  {
    WithoutCount(l, cb);
    forall s ensures s in Without(l, cb) <==> s in l && s.callback != Some(cb) {
      assert s in Without(l, cb) <==> s in multiset(Without(l, cb));
      assert s in l <==> s in multiset(l);
    }
  }

  /** Removal keeps a sorted list sorted. */
  lemma {:induction false} WithoutSorted(l: seq<Sub>, cb: Callback)
    requires Sorted(l)
    ensures Sorted(Without(l, cb))
  {
    if |l| > 0 {
      WithoutSorted(l[1..], cb);
      WithoutMembers(l[1..], cb);
    }
  }

  /** Removal distributes over concatenation: survivors keep their relative order. */
  lemma {:induction false} WithoutAppend(a: seq<Sub>, b: seq<Sub>, cb: Callback)
    ensures Without(a + b, cb) == Without(a, cb) + Without(b, cb)
  {
    if |a| > 0 {
      var head := if a[0].callback == Some(cb) then [] else [a[0]];
      assert (a + b)[0] == a[0];
      assert (a + b)[1..] == a[1..] + b;
      assert Without(a + b, cb) == head + Without(a[1..] + b, cb);
      WithoutAppend(a[1..], b, cb);
      assert Without(a, cb) == head + Without(a[1..], cb);
    } else {
      assert a + b == b;
    }
  }

  /** Removing the callback every subscription has empties the list. */
  lemma {:induction false} WithoutEverything(l: seq<Sub>, cb: Callback)
    requires forall i :: 0 <= i < |l| ==> l[i].callback == Some(cb)
    ensures Without(l, cb) == []
  {
    if |l| > 0 {
      WithoutEverything(l[1..], cb);
    }
  }

  /** Removing the same callback twice removes nothing more. */
  lemma {:induction false} WithoutIdempotent(l: seq<Sub>, cb: Callback)
    ensures Without(Without(l, cb), cb) == Without(l, cb)
  {
    if |l| > 0 {
      WithoutIdempotent(l[1..], cb);
      var head := if l[0].callback == Some(cb) then [] else [l[0]];
      WithoutAppend(head, Without(l[1..], cb), cb);
    }
  }
}
