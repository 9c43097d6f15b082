/** Evaluated diagnostics, their report order, and the store that keeps the 10 000 smallest. */
module Diagnostics {
  import opened Sorting
  import opened TextOrder

  const MAX_DIAGNOSTICS: nat := 10_000

  /** `details` stands for the severity, message, range, language and evidence. */
  datatype Diagnostic = Diagnostic(ruleId: Text, path: Text, fingerprint: Text, details: Text)

  datatype Evaluated = Evaluated(diagnostic: Diagnostic, comparisonKey: Text, order: nat)

  /** `diagnostic_order`: path, rule, fingerprint, position in the file's facts. */
  predicate Precedes(a: Evaluated, b: Evaluated) {
    var p, q := a.diagnostic, b.diagnostic;
    if p.path != q.path then TextLess(p.path, q.path)
    else if p.ruleId != q.ruleId then TextLess(p.ruleId, q.ruleId)
    else if p.fingerprint != q.fingerprint then TextLess(p.fingerprint, q.fingerprint)
    else a.order < b.order
  }

  /** The report order is a strict weak order whose ties agree on all four keys. */
  lemma PrecedesStrictWeak()
    ensures StrictWeak(Precedes)
    ensures forall a, b :: !Precedes(a, b) && !Precedes(b, a) ==>
              && a.diagnostic.path == b.diagnostic.path && a.order == b.order
              && a.diagnostic.ruleId == b.diagnostic.ruleId && a.diagnostic.fingerprint == b.diagnostic.fingerprint
  {
    forall a, b
      ensures Precedes(a, b) ==> !Precedes(b, a)
      ensures !Precedes(a, b) && !Precedes(b, a) ==>
                && a.diagnostic.path == b.diagnostic.path && a.order == b.order
                && a.diagnostic.ruleId == b.diagnostic.ruleId && a.diagnostic.fingerprint == b.diagnostic.fingerprint
    {
      PrecedesTotal(a, b);
    }
    forall a, b, c
      ensures Precedes(a, c) ==> Precedes(a, b) || Precedes(b, c)
    {
      if Precedes(a, c) && !Precedes(b, c) {
        PrecedesCotransitive(a, b, c);
      }
    }
  }

  lemma PrecedesTotal(a: Evaluated, b: Evaluated)
    ensures Precedes(a, b) ==> !Precedes(b, a)
    ensures !Precedes(a, b) && !Precedes(b, a) ==>
              && a.diagnostic.path == b.diagnostic.path && a.order == b.order
              && a.diagnostic.ruleId == b.diagnostic.ruleId && a.diagnostic.fingerprint == b.diagnostic.fingerprint
  {
    var p, q := a.diagnostic, b.diagnostic;
    TextOrdered(p.path, q.path, p.path);
    TextOrdered(p.ruleId, q.ruleId, p.ruleId);
    TextOrdered(p.fingerprint, q.fingerprint, p.fingerprint);
  }

  lemma PrecedesCotransitive(a: Evaluated, b: Evaluated, c: Evaluated)
    requires Precedes(a, c) && !Precedes(b, c)
    ensures Precedes(a, b)
  {
    var p, q, r := a.diagnostic, b.diagnostic, c.diagnostic;
    TextOrdered(p.path, r.path, q.path);
    TextOrdered(q.path, r.path, p.path);
    TextOrdered(p.ruleId, r.ruleId, q.ruleId);
    TextOrdered(q.ruleId, r.ruleId, p.ruleId);
    TextOrdered(p.fingerprint, r.fingerprint, q.fingerprint);
    TextOrdered(q.fingerprint, r.fingerprint, p.fingerprint);
  }

  /** A vector below the cap, a max-heap once the cap has been exceeded. The heap is represented
      by its elements in some order; only its maximum is ever inspected. */
  datatype Storage = Exact(items: seq<Evaluated>) | Truncated(items: seq<Evaluated>)

  /** `BinaryHeap::peek`: the position of a largest element. */
  method PeekLargest(items: seq<Evaluated>) returns (m: nat)
    requires items != []
    ensures m < |items|
    ensures forall x :: x in items ==> !Precedes(items[m], x)
  {
    PrecedesStrictWeak();
    m := 0;
    for i := 1 to |items|
      invariant m < |items|
      invariant forall j :: 0 <= j < i ==> !Precedes(items[m], items[j])
    {
      if Precedes(items[m], items[i]) {
        m := i;
      }
    }
  }

  ghost predicate KeepsSmallest(items: seq<Evaluated>, all: multiset<Evaluated>) {
    KSmallest(Precedes, multiset(items), all, MAX_DIAGNOSTICS)
  }

  lemma RemoveAt(items: seq<Evaluated>, m: nat, c: Evaluated)
    requires m < |items|
    ensures multiset(items[..m] + items[m + 1..] + [c]) == multiset(items) - multiset{items[m]} + multiset{c}
  {
    assert items == items[..m] + [items[m]] + items[m + 1..];
    assert multiset(items) == multiset(items[..m]) + multiset{items[m]} + multiset(items[m + 1..]);
  }

  lemma StoreReplace(items: seq<Evaluated>, m: nat, c: Evaluated, all: multiset<Evaluated>)
    requires |items| == MAX_DIAGNOSTICS && KeepsSmallest(items, all)
    requires m < |items| && forall x :: x in items ==> !Precedes(items[m], x)
    requires Precedes(c, items[m])
    ensures KeepsSmallest(items[..m] + items[m + 1..] + [c], all + multiset{c})
  {
    PrecedesStrictWeak();
    RemoveAt(items, m, c);
    assert |multiset(items)| == |items|;
    assert forall x :: x in multiset(items) ==> x in items;
    SmallestReplace(Precedes, multiset(items), all, MAX_DIAGNOSTICS, items[m], c);
  }

  lemma StoreReject(items: seq<Evaluated>, m: nat, c: Evaluated, all: multiset<Evaluated>)
    requires |items| == MAX_DIAGNOSTICS && KeepsSmallest(items, all)
    requires m < |items| && forall x :: x in items ==> !Precedes(items[m], x)
    requires !Precedes(c, items[m])
    ensures KeepsSmallest(items, all + multiset{c})
  {
    PrecedesStrictWeak();
    assert |multiset(items)| == |items|;
    assert forall x :: x in multiset(items) ==> x in items;
    SmallestReject(Precedes, multiset(items), all, MAX_DIAGNOSTICS, items[m], c);
  }

  lemma StoreAppend(items: seq<Evaluated>, c: Evaluated, all: multiset<Evaluated>)
    requires |items| < MAX_DIAGNOSTICS && KeepsSmallest(items, all)
    ensures |all| == |items| && KeepsSmallest(items + [c], all + multiset{c})
  {
    assert |multiset(items)| == |items|;
    SmallestUnderCap(Precedes, multiset(items), all, MAX_DIAGNOSTICS);
    assert multiset(items + [c]) == all + multiset{c};
  }

  lemma StoreMerge(kept: seq<Evaluated>, mine: multiset<Evaluated>, batch: seq<Evaluated>, other: multiset<Evaluated>)
    requires KeepsSmallest(batch, other)
    requires KeepsSmallest(kept, mine + multiset(batch))
    ensures KeepsSmallest(kept, mine + other)
    ensures |other| <= MAX_DIAGNOSTICS ==> multiset(batch) == other
    ensures |other| > MAX_DIAGNOSTICS ==> |batch| == MAX_DIAGNOSTICS
  {
    PrecedesStrictWeak();
    SmallestMerge(Precedes, multiset(kept), mine, multiset(batch), other, MAX_DIAGNOSTICS);
    if |other| <= MAX_DIAGNOSTICS {
      SmallestUnderCap(Precedes, multiset(batch), other, MAX_DIAGNOSTICS);
    }
    assert |multiset(batch)| == |batch|;
  }

  lemma StoreSize(items: seq<Evaluated>, all: multiset<Evaluated>)
    requires KeepsSmallest(items, all)
    ensures |items| == Min(MAX_DIAGNOSTICS, |all|)
  {
    assert |multiset(items)| == |items|;
  }

  /** `retain_bounded`: a candidate replaces a largest element if it is smaller. */
  method RetainBounded(items: seq<Evaluated>, candidate: Evaluated, ghost all: multiset<Evaluated>) returns (retained: seq<Evaluated>)
    requires |items| == MAX_DIAGNOSTICS && KeepsSmallest(items, all)
    ensures |retained| == |items| && KeepsSmallest(retained, all + multiset{candidate})
  {
    hide KeepsSmallest;
    var m := PeekLargest(items);
    if Precedes(candidate, items[m]) {
      StoreReplace(items, m, candidate, all);
      retained := items[..m] + items[m + 1..] + [candidate];
    } else {
      StoreReject(items, m, candidate, all);
      retained := items;
    }
  }

  class BoundedDiagnostics {
    var storage: Storage
    var overflowed: bool
    /** Every diagnostic ever pushed, directly or through a merged store. */
    ghost var pushed: multiset<Evaluated>

    /** The stored diagnostics are the smallest of all pushed ones. */
    ghost predicate Holds()
      reads this
    {
      && KeepsSmallest(storage.items, pushed)
      && (storage.Truncated? ==> |storage.items| == MAX_DIAGNOSTICS)
    }

    ghost predicate Valid()
      reads this
    {
      Holds() && (overflowed <==> |pushed| > MAX_DIAGNOSTICS)
    }

    constructor ()
      ensures Valid() && pushed == multiset{} && storage == Exact([])
    {
      storage, overflowed, pushed := Exact([]), false, multiset{};
    }

    method Push(diagnostic: Evaluated)
      requires Holds()
      modifies this
      ensures Holds() && pushed == old(pushed) + multiset{diagnostic}
      ensures overflowed == (old(overflowed) || old(|pushed|) >= MAX_DIAGNOSTICS)
      ensures old(Valid()) ==> Valid()
    {
      hide KeepsSmallest;
      ghost var all := pushed;
      StoreSize(storage.items, all);
      match storage {
        case Exact(items) =>
          if |items| < MAX_DIAGNOSTICS {
            StoreAppend(items, diagnostic, all);
            storage := Exact(items + [diagnostic]);
          } else {
            overflowed := true;
            var retained := RetainBounded(items, diagnostic, all);
            storage := Truncated(retained);
          }
        case Truncated(items) =>
          overflowed := true;
          var retained := RetainBounded(items, diagnostic, all);
          storage := Truncated(retained);
      }
      pushed := all + multiset{diagnostic};
    }

    /** Pushes the diagnostics of a list one by one. */
    method PushAll(items: seq<Evaluated>)
      requires Holds() && (|pushed| > MAX_DIAGNOSTICS ==> overflowed)
      modifies this
      ensures Holds() && pushed == old(pushed) + multiset(items)
      ensures overflowed == (old(overflowed) || |pushed| > MAX_DIAGNOSTICS)
    {
      hide KeepsSmallest;
      ghost var mine := pushed;
      for i := 0 to |items|
        invariant Holds() && pushed == mine + multiset(items[..i])
        invariant overflowed == (old(overflowed) || |pushed| > MAX_DIAGNOSTICS)
      {
        assert multiset(items[..i + 1]) == multiset(items[..i]) + multiset{items[i]} by {
          assert items[..i + 1] == items[..i] + [items[i]];
        }
        Push(items[i]);
      }
      assert items[..|items|] == items;
    }

    /** Absorbs another store: the result is as if all its diagnostics had been pushed here. */
    method Merge(other: BoundedDiagnostics)
      requires this != other && Valid() && other.Valid()
      modifies this
      ensures Valid() && pushed == old(pushed) + other.pushed
    {
      hide KeepsSmallest;
      ghost var mine := pushed;
      overflowed := overflowed || other.overflowed;
      var items := other.storage.items;
      PushAll(items);
      StoreMerge(storage.items, mine, items, other.pushed);
      pushed := mine + other.pushed;
    }

    /** The stored diagnostics in report order: the front of the sorted whole. */
    method IntoSorted(ghost all: seq<Evaluated>) returns (sorted: seq<Evaluated>)
      requires Valid() && pushed == multiset(all) && RankInjective(Precedes, multiset(all))
      ensures |Sort(Precedes, all)| == |all|
      ensures sorted == Sort(Precedes, all)[..Min(MAX_DIAGNOSTICS, |all|)]
    {
      PrecedesStrictWeak();
      SmallestSorted(Precedes, storage.items, all, MAX_DIAGNOSTICS);
      sorted := Sort(Precedes, storage.items);
    }
  }
}
