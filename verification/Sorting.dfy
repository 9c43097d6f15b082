/** Stable sorting by a strict weak order, and the `k` smallest elements of a multiset. */
module Sorting {
  ghost predicate StrictWeak<T(!new)>(less: (T, T) -> bool) {
    && (forall x, y :: less(x, y) ==> !less(y, x))
    && (forall x, y, z :: less(x, z) ==> less(x, y) || less(y, z))
  }

  ghost predicate SortedBy<T>(less: (T, T) -> bool, s: seq<T>) {
    forall i, j :: 0 <= i < j < |s| ==> !less(s[j], s[i])
  }

  /** Inserts `x` behind every element that is not larger. */
  function Insert<T>(less: (T, T) -> bool, s: seq<T>, x: T): seq<T> {
    if s == [] || !less(x, s[|s| - 1]) then s + [x]
    else Insert(less, s[..|s| - 1], x) + [s[|s| - 1]]
  }

  /** The stable sort. */
  function Sort<T>(less: (T, T) -> bool, s: seq<T>): seq<T> {
    if s == [] then [] else Insert(less, Sort(less, s[..|s| - 1]), s[|s| - 1])
  }

  lemma {:induction false} InsertKeepsElements<T>(less: (T, T) -> bool, s: seq<T>, x: T)
    ensures multiset(Insert(less, s, x)) == multiset(s) + multiset{x}
  {
    if s == [] || !less(x, s[|s| - 1]) {
    } else {
      var front, top := s[..|s| - 1], s[|s| - 1];
      InsertKeepsElements(less, front, x);
      assert s == front + [top];
      assert multiset(Insert(less, front, x) + [top]) == multiset(Insert(less, front, x)) + multiset{top};
    }
  }

  lemma {:induction false} InsertSorted<T(!new)>(less: (T, T) -> bool, s: seq<T>, x: T)
    requires StrictWeak(less) && SortedBy(less, s)
    ensures SortedBy(less, Insert(less, s, x))
  {
    if s == [] {
    } else if !less(x, s[|s| - 1]) {
      var r := s + [x];
      forall i, j | 0 <= i < j < |r|
        ensures !less(r[j], r[i])
      {
        if j == |s| && i < |s| - 1 {
          assert !less(s[|s| - 1], s[i]);
        }
      }
    } else {
      var front, top := s[..|s| - 1], s[|s| - 1];
      InsertSorted(less, front, x);
      InsertKeepsElements(less, front, x);
      var inner := Insert(less, front, x);
      forall y | y in inner
        ensures !less(top, y)
      {
        assert y in multiset(inner);
        if y != x {
          assert y in front;
        }
      }
    }
  }

  /** Sorting yields a sorted permutation. */
  lemma {:induction false} SortSorts<T(!new)>(less: (T, T) -> bool, s: seq<T>)
    requires StrictWeak(less)
    ensures SortedBy(less, Sort(less, s))
    ensures multiset(Sort(less, s)) == multiset(s)
    ensures |Sort(less, s)| == |s|
  {
    if s != [] {
      hide Insert, StrictWeak, SortedBy;
      SortSorts(less, s[..|s| - 1]);
      InsertSorted(less, Sort(less, s[..|s| - 1]), s[|s| - 1]);
      InsertKeepsElements(less, Sort(less, s[..|s| - 1]), s[|s| - 1]);
      assert s == s[..|s| - 1] + [s[|s| - 1]];
    }
    assert |multiset(Sort(less, s))| == |multiset(s)|;
  }

  /** Elements of equal rank are equal. */
  ghost predicate RankInjective<T(!new)>(less: (T, T) -> bool, m: multiset<T>) {
    forall x, y :: x in m && y in m && !less(x, y) && !less(y, x) ==> x == y
  }

  lemma LastAgree<T(!new)>(less: (T, T) -> bool, s: seq<T>, t: seq<T>)
    requires SortedBy(less, s) && SortedBy(less, t) && s != [] && t != []
    requires multiset(s) == multiset(t)
    requires RankInjective(less, multiset(s))
    ensures s[|s| - 1] == t[|t| - 1]
  {
    var a, b := s[|s| - 1], t[|t| - 1];
    assert a in multiset(t) && b in multiset(s);
    var i :| 0 <= i < |t| && t[i] == a;
    var j :| 0 <= j < |s| && s[j] == b;
    assert i == |t| - 1 || !less(b, a);
    assert j == |s| - 1 || !less(a, b);
  }

  /** With injective ranks a multiset has one sorted listing. */
  lemma {:induction false} SortedUnique<T(!new)>(less: (T, T) -> bool, s: seq<T>, t: seq<T>)
    requires SortedBy(less, s) && SortedBy(less, t)
    requires multiset(s) == multiset(t)
    requires RankInjective(less, multiset(s))
    ensures s == t
  {
    hide SortedBy;
    hide RankInjective;
    SameLength(s, t);
    if s != [] {
      LastAgree(less, s, t);
      var p, q := s[..|s| - 1], t[..|t| - 1];
      DropLast(less, s);
      DropLast(less, t);
      SortedUnique(less, p, q);
      FrontAndLast(s, t);
    }
  }

  lemma FrontAndLast<T>(s: seq<T>, t: seq<T>)
    requires |s| == |t| > 0 && s[..|s| - 1] == t[..|t| - 1] && s[|s| - 1] == t[|t| - 1]
    ensures s == t
  {
    assert s == s[..|s| - 1] + [s[|s| - 1]] && t == t[..|t| - 1] + [t[|t| - 1]];
  }

  lemma SameLength<T>(s: seq<T>, t: seq<T>)
    requires multiset(s) == multiset(t)
    ensures |s| == |t|
  {
    assert |multiset(s)| == |multiset(t)|;
  }

  lemma DropLast<T(!new)>(less: (T, T) -> bool, s: seq<T>)
    requires s != [] && SortedBy(less, s) && RankInjective(less, multiset(s))
    ensures multiset(s[..|s| - 1]) == multiset(s) - multiset{s[|s| - 1]}
    ensures SortedBy(less, s[..|s| - 1]) && RankInjective(less, multiset(s[..|s| - 1]))
  {
    SplitLast(s);
    RankSubset(less, multiset(s[..|s| - 1]), multiset(s));
  }

  lemma SplitLast<T>(s: seq<T>)
    requires s != []
    ensures multiset(s) == multiset(s[..|s| - 1]) + multiset{s[|s| - 1]}
  {
    assert s == s[..|s| - 1] + [s[|s| - 1]];
  }

  lemma RemoveOne<T>(s: seq<T>, i: nat)
    requires i < |s|
    ensures multiset(s[..i] + s[i + 1..]) == multiset(s) - multiset{s[i]}
  {
    assert s == s[..i] + [s[i]] + s[i + 1..];
    assert multiset(s) == multiset(s[..i]) + multiset{s[i]} + multiset(s[i + 1..]);
  }

  lemma RankSubset<T(!new)>(less: (T, T) -> bool, a: multiset<T>, b: multiset<T>)
    requires a <= b && RankInjective(less, b)
    ensures RankInjective(less, a)
  {
    assert forall x :: x in a ==> x in b;
  }

  function Min(a: nat, b: nat): nat {
    if a <= b then a else b
  }

  /** `kept` holds `min(cap, |all|)` elements of `all`, none larger than an element left out. */
  ghost predicate KSmallest<T(!new)>(less: (T, T) -> bool, kept: multiset<T>, all: multiset<T>, cap: nat) {
    && kept <= all
    && |kept| == Min(cap, |all|)
    && (forall x, y :: x in kept && y in all - kept ==> !less(y, x))
  }

  lemma DifferenceSize<T>(a: multiset<T>, b: multiset<T>)
    requires b <= a
    ensures |a - b| == |a| - |b|
  {
    assert a == b + (a - b);
  }

  /** Below the cap everything is kept. */
  lemma SmallestUnderCap<T(!new)>(less: (T, T) -> bool, kept: multiset<T>, all: multiset<T>, cap: nat)
    requires KSmallest(less, kept, all, cap)
    requires |all| <= cap
    ensures kept == all
  {
    DifferenceSize(all, kept);
    assert all - kept == multiset{};
    assert all == kept + (all - kept);
  }

  /** Replacing a largest kept element by a smaller candidate keeps the smallest. */
  lemma SmallestReplace<T(!new)>(less: (T, T) -> bool, kept: multiset<T>, all: multiset<T>, cap: nat, m: T, c: T)
    requires StrictWeak(less) && KSmallest(less, kept, all, cap) && |kept| == cap
    requires m in kept && forall x :: x in kept ==> !less(m, x)
    requires less(c, m)
    ensures KSmallest(less, kept - multiset{m} + multiset{c}, all + multiset{c}, cap)
  {
    var now, total := kept - multiset{m} + multiset{c}, all + multiset{c};
    assert total - now == all - kept + multiset{m};
    assert |now| == |kept|;
  }

  /** Rejecting a candidate that is not smaller than the largest kept element. */
  lemma SmallestReject<T(!new)>(less: (T, T) -> bool, kept: multiset<T>, all: multiset<T>, cap: nat, m: T, c: T)
    requires StrictWeak(less) && KSmallest(less, kept, all, cap) && |kept| == cap
    requires m in kept && forall x :: x in kept ==> !less(m, x)
    requires !less(c, m)
    ensures KSmallest(less, kept, all + multiset{c}, cap)
  {
    assert all + multiset{c} - kept == all - kept + multiset{c};
  }

  /** Keeping the smallest of a batch before merging loses nothing. */
  lemma SmallestMerge<T(!new)>(less: (T, T) -> bool, kept: multiset<T>, mine: multiset<T>,
                               batch: multiset<T>, other: multiset<T>, cap: nat)
    requires StrictWeak(less)
    requires KSmallest(less, batch, other, cap)
    requires KSmallest(less, kept, mine + batch, cap)
    ensures KSmallest(less, kept, mine + other, cap)
  {
    if |other| <= cap {
      SmallestUnderCap(less, batch, other, cap);
    } else {
      forall x, y | x in kept && y in mine + other - kept
        ensures !less(y, x)
      {
        if less(y, x) {
          MergeCrowds(less, kept, mine, batch, other, x, y);
        }
      }
    }
  }

  /** If an element left out of the batch undercut a kept one, the kept ones would be too many. */
  lemma MergeCrowds<T(!new)>(less: (T, T) -> bool, kept: multiset<T>, mine: multiset<T>,
                             batch: multiset<T>, other: multiset<T>, x: T, y: T)
    requires StrictWeak(less)
    requires batch <= other && forall s, z :: s in batch && z in other - batch ==> !less(z, s)
    requires kept <= mine + batch && forall s, z :: s in kept && z in mine + batch - kept ==> !less(z, s)
    requires x in kept && y in mine + other - kept && less(y, x)
    ensures |kept| > |batch|
  {
    assert y !in mine + batch - kept;
    assert y in other - batch;
    assert x !in batch;
    forall s | s in batch
      ensures kept[s] >= batch[s]
    {
      assert less(s, x);
      assert s !in mine + batch - kept;
    }
    assert batch <= kept;
    DifferenceSize(kept, batch);
    assert x in kept - batch;
  }

  /** The smallest elements are unique when ranks are injective. */
  lemma SmallestUnique<T(!new)>(less: (T, T) -> bool, a: multiset<T>, b: multiset<T>, all: multiset<T>, cap: nat)
    requires KSmallest(less, a, all, cap) && KSmallest(less, b, all, cap)
    requires RankInjective(less, all)
    ensures a == b
  {
    if a != b {
      var x := Excess(a, b);
      var y := Excess(b, a);
      ExcessIncomparable(less, a, b, all, x, y);
    }
  }

  lemma ExcessIncomparable<T(!new)>(less: (T, T) -> bool, a: multiset<T>, b: multiset<T>, all: multiset<T>, x: T, y: T)
    requires a <= all && forall s, z :: s in a && z in all - a ==> !less(z, s)
    requires b <= all && forall s, z :: s in b && z in all - b ==> !less(z, s)
    requires a[x] > b[x] && b[y] > a[y]
    ensures x in all && y in all && !less(x, y) && !less(y, x)
  {
    assert x in all - b && y in all - a;
  }

  lemma SameSizeSubset<T>(a: multiset<T>, b: multiset<T>)
    requires a <= b && |a| == |b|
    ensures a == b
  {
    DifferenceSize(b, a);
    assert b == a + (b - a);
  }

  /** Of two different multisets of one size, each has an element in excess of the other. */
  lemma Excess<T>(a: multiset<T>, b: multiset<T>) returns (x: T)
    requires |a| == |b| && a != b
    ensures a[x] > b[x]
  {
    if a <= b {
      SameSizeSubset(a, b);
    }
    x :| x in a && a[x] > b[x];
  }

  /** The smallest elements, sorted, are the front of the sorted whole. */
  lemma SmallestSorted<T(!new)>(less: (T, T) -> bool, kept: seq<T>, all: seq<T>, cap: nat)
    requires StrictWeak(less) && RankInjective(less, multiset(all))
    requires KSmallest(less, multiset(kept), multiset(all), cap)
    ensures |Sort(less, all)| == |all|
    ensures Sort(less, kept) == Sort(less, all)[..Min(cap, |all|)]
  {
    SortSorts(less, kept);
    SortSorts(less, all);
    var s, k := Sort(less, all), Min(cap, |all|);
    FrontIsSmallest(less, s, cap);
    SmallestUnique(less, multiset(kept), multiset(s[..k]), multiset(all), cap);
    assert multiset(kept) <= multiset(all);
    SortedUnique(less, Sort(less, kept), s[..k]);
  }

  lemma FrontIsSmallest<T(!new)>(less: (T, T) -> bool, s: seq<T>, cap: nat)
    requires SortedBy(less, s)
    ensures KSmallest(less, multiset(s[..Min(cap, |s|)]), multiset(s), cap)
  {
    var k := Min(cap, |s|);
    assert s == s[..k] + s[k..];
    assert multiset(s) - multiset(s[..k]) == multiset(s[k..]);
    forall x, y | x in multiset(s[..k]) && y in multiset(s[k..])
      ensures !less(y, x)
    {
      var i :| 0 <= i < k && s[i] == x;
      var j :| k <= j < |s| && s[j] == y;
    }
  }

  lemma {:induction false} ListingExists<T(!new)>(less: (T, T) -> bool, elements: set<T>) returns (r: seq<T>)
    requires StrictWeak(less)
    ensures multiset(r) == multiset(elements) && SortedBy(less, r)
  {
    if elements == {} {
      r := [];
    } else {
      var x :| x in elements;
      var rest := ListingExists(less, elements - {x});
      hide StrictWeak, SortedBy, Insert;
      r := Insert(less, rest, x);
      InsertKeepsElements(less, rest, x);
      InsertSorted(less, rest, x);
      assert elements == (elements - {x}) + {x};
    }
  }

  /** A set in order. */
  ghost function Listing<T(!new)>(less: (T, T) -> bool, elements: set<T>): (r: seq<T>)
    requires StrictWeak(less)
    ensures multiset(r) == multiset(elements) && SortedBy(less, r)
    ensures forall x :: x in r <==> x in elements
  {
    assert exists r: seq<T> :: multiset(r) == multiset(elements) && SortedBy(less, r) by {
      var r := ListingExists(less, elements);
    }
    var r: seq<T> :| multiset(r) == multiset(elements) && SortedBy(less, r);
    assert forall x :: x in r <==> x in multiset(r);
    r
  }

  /** The listing of a set whose order is total increases strictly. */
  lemma ListingStrict<T(!new)>(less: (T, T) -> bool, elements: set<T>, i: nat, j: nat)
    requires StrictWeak(less) && RankInjective(less, multiset(elements))
    requires i < j < |Listing(less, elements)|
    ensures less(Listing(less, elements)[i], Listing(less, elements)[j])
  {
    var r := Listing(less, elements);
    assert r[i] in multiset(r) && r[j] in multiset(r);
    Twice(r, i, j);
  }

  lemma Twice<T>(s: seq<T>, i: nat, j: nat)
    requires i < j < |s|
    ensures s[i] == s[j] ==> multiset(s)[s[i]] >= 2
  {
    assert s == s[..i] + [s[i]] + s[i + 1..j] + [s[j]] + s[j + 1..];
  }

  /** Lists the elements of a set whose order is total. */
  method ListSet<T(==, !new)>(less: (T, T) -> bool, elements: set<T>) returns (r: seq<T>)
    requires StrictWeak(less) && RankInjective(less, multiset(elements))
    ensures r == Listing(less, elements)
  {
    hide StrictWeak, RankInjective;
    var left, listed: seq<T> := elements, [];
    while left != {}
      invariant left <= elements && multiset(listed) == multiset(elements - left)
    {
      var x :| x in left;
      assert elements - (left - {x}) == (elements - left) + {x};
      listed := listed + [x];
      left := left - {x};
    }
    assert elements - left == elements;
    r := Sort(less, listed);
    SortSorts(less, listed);
    SortedUnique(less, r, Listing(less, elements));
  }
}
