/** The in-memory fact cache: first in, first out, within a byte and an entry budget. */
module MemoryCache {
  import opened Collections

  const MAX_BYTES: nat := 256 * 1024 * 1024
  const MAX_ENTRIES: nat := 50_000

  /** The sizes of the listed entries, added up. */
  function SumSizes<K, F>(entries: map<K, (F, nat)>, order: seq<K>): nat
    requires forall k :: k in order ==> k in entries
  {
    if order == [] then 0 else entries[order[0]].1 + SumSizes(entries, order[1..])
  }

  lemma {:induction false} SumFrame<K, F>(a: map<K, (F, nat)>, b: map<K, (F, nat)>, order: seq<K>)
    requires forall k :: k in order ==> k in a && k in b && a[k] == b[k]
    ensures SumSizes(a, order) == SumSizes(b, order)
  {
    if order != [] {
      SumFrame(a, b, order[1..]);
    }
  }

  lemma {:induction false} SumSnoc<K, F>(entries: map<K, (F, nat)>, order: seq<K>, k: K)
    requires k in entries && forall x :: x in order ==> x in entries
    ensures SumSizes(entries, order + [k]) == SumSizes(entries, order) + entries[k].1
  {
    if order != [] {
      SumSnoc(entries, order[1..], k);
      assert (order + [k])[1..] == order[1..] + [k];
    }
  }

  lemma SumOfNone<K, F>(entries: map<K, (F, nat)>)
    ensures SumSizes(entries, []) == 0
  {
  }

  /** A new entry of `size` bytes fits beside the listed entries. */
  ghost predicate Fits<K, F>(entries: map<K, (F, nat)>, order: seq<K>, size: nat)
    requires forall k :: k in order ==> k in entries
  {
    |order| < MAX_ENTRIES && SumSizes(entries, order) + size <= MAX_BYTES
  }

  /** It fits once the first `n` entries of the queue are evicted. */
  ghost predicate FitsAfter<K, F>(entries: map<K, (F, nat)>, order: seq<K>, size: nat, n: nat)
    requires n <= |order| && forall k :: k in order ==> k in entries
  {
    Fits(entries, order[n..], size)
  }

  /** `n` is the length of the shortest front of the queue whose eviction makes room. */
  ghost predicate ShortestEviction<K, F>(entries: map<K, (F, nat)>, order: seq<K>, size: nat, n: nat)
    requires forall k :: k in order ==> k in entries
  {
    && n <= |order|
    && FitsAfter(entries, order, size, n)
    && forall m: nat :: m < n ==> !FitsAfter(entries, order, size, m)
  }

  /** After evicting `n` entries, `entries` and `queue` hold the rest, and no shorter eviction
      would have made room. */
  ghost predicate Evicting<K(!new), F(!new)>(was: map<K, (F, nat)>, order: seq<K>, size: nat, n: nat,
                                             entries: map<K, (F, nat)>, queue: seq<K>) {
    && (forall k :: k in order ==> k in was)
    && n <= |order| && queue == order[n..]
    && (forall k :: k in entries ==> k in was && entries[k] == was[k])
    && forall m: nat :: m < n ==> !FitsAfter(was, order, size, m)
  }

  lemma EvictingStart<K(!new), F(!new)>(was: map<K, (F, nat)>, order: seq<K>, size: nat)
    requires forall k :: k in order ==> k in was
    ensures Evicting(was, order, size, 0, was, order)
  {
    assert order[0..] == order;
  }

  lemma EvictingStep<K(!new), F(!new)>(was: map<K, (F, nat)>, order: seq<K>, size: nat, n: nat,
                                       held: map<K, (F, nat)>, queue: seq<K>, entries: map<K, (F, nat)>)
    requires Evicting(was, order, size, n, held, queue) && queue != []
    requires forall k :: k in queue ==> k in held
    requires !Fits(held, queue, size)
    requires forall k :: k in entries ==> k in held && entries[k] == held[k]
    ensures Evicting(was, order, size, n + 1, entries, queue[1..])
  {
    SumFrame(held, was, queue);
    assert order[n..][1..] == order[n + 1..];
    assert !FitsAfter(was, order, size, n);
  }

  lemma EvictingDone<K(!new), F(!new)>(was: map<K, (F, nat)>, order: seq<K>, size: nat, n: nat,
                                       entries: map<K, (F, nat)>, queue: seq<K>)
    requires Evicting(was, order, size, n, entries, queue)
    requires forall k :: k in queue ==> k in entries
    requires Fits(entries, queue, size)
    ensures (forall k :: k in order ==> k in was) && ShortestEviction(was, order, size, n) && queue == order[n..]
    ensures forall k :: k in entries ==> k in was && entries[k] == was[k]
  {
    SumFrame(entries, was, queue);
  }

  class MemoryFactCache<K(==, !new), F(==, !new)> {
    var entries: map<K, (F, nat)>
    var insertionOrder: seq<K>
    var bytes: nat
    var hits: nat
    var misses: nat
    var writes: nat
    /** Serialized size of a fact value. */
    const size: F -> nat

    /** The queue lists every key once, the byte counter is the sum of the entry sizes, and both
        budgets hold. */
    ghost predicate Valid()
      reads this`entries, this`insertionOrder, this`bytes
    {
      && NoDuplicates(insertionOrder)
      && (forall k :: k in insertionOrder <==> k in entries) && |entries| == |insertionOrder|
      && bytes == SumSizes(entries, insertionOrder)
      && bytes <= MAX_BYTES && |insertionOrder| <= MAX_ENTRIES
      && (forall k :: k in entries ==> entries[k].1 == size(entries[k].0))
    }

    constructor (size: F -> nat)
      ensures Valid() && entries == map[] && insertionOrder == [] && this.size == size
    {
      entries, insertionOrder, bytes := map[], [], 0;
      hits, misses, writes := 0, 0, 0;
      this.size := size;
    }

    method Get(key: K) returns (facts: Option<F>)
      requires Valid()
      modifies this`hits, this`misses
      ensures Valid()
      ensures facts == if key in entries then Some(entries[key].0) else None
      ensures hits == old(hits) + (if key in entries then 1 else 0)
      ensures misses == old(misses) + (if key in entries then 0 else 1)
    {
      if key in entries {
        facts := Some(entries[key].0);
        hits := hits + 1;
      } else {
        facts := None;
        misses := misses + 1;
      }
    }

    /** Stores a fact. A conflicting value for a stored key is refused; an oversized value is
        ignored; otherwise the shortest sufficient front of the queue makes room. */
    method Put(key: K, facts: F) returns (deterministic: bool)
      requires Valid()
      modifies this`entries, this`insertionOrder, this`bytes, this`writes
      ensures Valid()
      ensures deterministic <==> size(facts) > MAX_BYTES || key !in old(entries) || old(entries)[key].0 == facts
      ensures size(facts) > MAX_BYTES || key in old(entries) ==>
                entries == old(entries) && insertionOrder == old(insertionOrder) && writes == old(writes)
      ensures size(facts) <= MAX_BYTES && key !in old(entries) ==>
                exists n :: Evicted(old(entries), old(insertionOrder), n, key, facts) && writes == old(writes) + 1
    {
      hide Valid, Evicted;
      var payloadBytes := size(facts);
      if payloadBytes > MAX_BYTES {
        return true;
      }
      if key in entries {
        return entries[key].0 == facts;
      }
      writes := writes + 1;
      ghost var n := Admit(key, facts);
      assert Evicted(old(entries), old(insertionOrder), n, key, facts);
      return true;
    }

    /** Makes room for a new entry and appends it. */
    method Admit(key: K, facts: F) returns (ghost n: nat)
      requires Valid() && key !in entries && size(facts) <= MAX_BYTES
      modifies this`entries, this`insertionOrder, this`bytes
      ensures Valid() && Evicted(old(entries), old(insertionOrder), n, key, facts)
    {
      hide SumSizes, NoDuplicates, ShortestEviction, Fits;
      n := MakeRoom(size(facts));
      Insert(key, facts);
    }

    /** Appends an entry that fits. */
    method Insert(key: K, facts: F)
      requires Valid() && key !in entries && Fits(entries, insertionOrder, size(facts))
      modifies this`entries, this`insertionOrder, this`bytes
      ensures Valid() && insertionOrder == old(insertionOrder) + [key]
      ensures entries == old(entries)[key := (facts, size(facts))]
    {
      hide SumSizes;
      ghost var kept := entries;
      entries := entries[key := (facts, size(facts))];
      assert |entries| == |kept| + 1;
      SumFrame(kept, entries, insertionOrder);
      SumSnoc(entries, insertionOrder, key);
      insertionOrder := insertionOrder + [key];
      bytes := bytes + size(facts);
    }

    /** Removes the entry at the front of the queue. */
    method EvictOldest()
      requires Valid() && insertionOrder != []
      modifies this`entries, this`insertionOrder, this`bytes
      ensures Valid() && insertionOrder == old(insertionOrder)[1..]
      ensures forall k :: k in entries ==> k in old(entries) && entries[k] == old(entries)[k]
    {
      var oldest := insertionOrder[0];
      ghost var before := entries;
      insertionOrder := insertionOrder[1..];
      bytes := bytes - entries[oldest].1;
      entries := map k | k in entries && k != oldest :: entries[k];
      SumFrame(before, entries, insertionOrder);
      KeyCount(entries, insertionOrder);
    }

    /** The new state holds `key` last, and before it what eviction of `n` entries left. */
    ghost predicate Evicted(was: map<K, (F, nat)>, order: seq<K>, n: nat, key: K, facts: F)
      reads this`entries, this`insertionOrder
    {
      && (forall k :: k in order ==> k in was)
      && ShortestEviction(was, order, size(facts), n)
      && insertionOrder == order[n..] + [key]
      && (forall k :: k in entries <==> k in insertionOrder)
      && (forall k :: k in order[n..] && k != key ==> k in entries && entries[k] == was[k])
      && key in entries && entries[key] == (facts, size(facts))
    }

    /** Evicts from the front of the queue while either budget would be exceeded. The queue is
        never found empty: an empty cache has room for every admissible entry. */
    method MakeRoom(payloadBytes: nat) returns (ghost n: nat)
      requires Valid() && payloadBytes <= MAX_BYTES
      modifies this`entries, this`insertionOrder, this`bytes
      ensures Valid()
      ensures ShortestEviction(old(entries), old(insertionOrder), payloadBytes, n)
      ensures insertionOrder == old(insertionOrder)[n..]
      ensures forall k :: k in entries ==> k in old(entries) && entries[k] == old(entries)[k]
      ensures Fits(entries, insertionOrder, payloadBytes)
    {
      hide Evicting;
      n := 0;
      ghost var was, order := entries, insertionOrder;
      EvictingStart(was, order, payloadBytes);
      while |entries| >= MAX_ENTRIES || bytes + payloadBytes > MAX_BYTES
        invariant Valid()
        invariant Evicting(was, order, payloadBytes, n, entries, insertionOrder)
        decreases |insertionOrder|
      {
        SumOfNone(entries);
        assert insertionOrder != [];
        ghost var held, queue := entries, insertionOrder;
        EvictOldest();
        EvictingStep(was, order, payloadBytes, n, held, queue, entries);
        n := n + 1;
      }
      EvictingDone(was, order, payloadBytes, n, entries, insertionOrder);
    }

    lemma KeyCount(entries: map<K, (F, nat)>, order: seq<K>)
      requires NoDuplicates(order) && forall k :: k in order <==> k in entries
      ensures |entries| == |order|
    {
      DistinctCount(order);
      assert entries.Keys == set k | k in order;
      assert |entries| == |entries.Keys|;
    }
  }

  lemma {:induction false} DistinctCount<K>(s: seq<K>)
    requires NoDuplicates(s)
    ensures |set k | k in s| == |s|
  {
    if s != [] {
      DistinctCount(s[1..]);
      assert (set k | k in s) == (set k | k in s[1..]) + {s[0]};
    }
  }
}
