/** Trimming a cache shard to its quota: oldest files first, until nine tenths of the limit remain. */
module QuotaTrim {
  import opened Sorting
  import opened TextOrder

  datatype Age = Unknown | Modified(time: nat)

  datatype Entry = Entry(age: Age, path: Text, size: nat)

  predicate AgeLess(a: Age, b: Age) {
    b.Modified? && (a.Modified? ==> a.time < b.time)
  }

  predicate Older(a: Entry, b: Entry) {
    AgeLess(a.age, b.age) || (a.age == b.age && TextLess(a.path, b.path))
  }

  lemma OlderIsOrder()
    ensures StrictWeak(Older)
  {
    forall a: Entry, b: Entry, c: Entry
      ensures TextLess(a.path, b.path) ==> !TextLess(b.path, a.path)
      ensures TextLess(a.path, b.path) || TextLess(b.path, a.path) || a.path == b.path
      ensures TextLess(a.path, b.path) && TextLess(b.path, c.path) ==> TextLess(a.path, c.path)
    {
      TextOrdered(a.path, b.path, c.path);
    }
  }

  /** Files of unknown age come first, then the earlier modified; files of one age in the order of their paths. */
  ghost predicate NotNewer(a: Entry, b: Entry) {
    && (a.age.Unknown? || (b.age.Modified? && a.age.time <= b.age.time))
    && (a.age == b.age ==> !TextLess(b.path, a.path))
  }

  lemma OlderTold(a: Entry, b: Entry)
    ensures !Older(b, a) <==> NotNewer(a, b)
  {
  }

  /** The files among the first `n` whose removal succeeds. */
  function Gone(s: seq<Entry>, removable: Entry -> bool, n: nat): seq<Entry>
    requires n <= |s|
  {
    if n == 0 then []
    else if removable(s[n - 1]) then Gone(s, removable, n - 1) + [s[n - 1]]
    else Gone(s, removable, n - 1)
  }

  /** Exactly the removable ones go. */
  lemma {:induction false} GoneTold(s: seq<Entry>, removable: Entry -> bool, n: nat, e: Entry)
    requires n <= |s|
    ensures multiset(Gone(s, removable, n))[e] == if removable(e) then multiset(s[..n])[e] else 0
  {
    if n > 0 {
      GoneTold(s, removable, n - 1, e);
      assert s[..n] == s[..n - 1] + [s[n - 1]];
    }
  }

  function Bytes(s: seq<Entry>): nat {
    if s == [] then 0 else Bytes(s[..|s| - 1]) + s[|s| - 1].size
  }

  lemma {:induction false} GoneBytes(s: seq<Entry>, removable: Entry -> bool, n: nat)
    requires n <= |s|
    ensures Bytes(Gone(s, removable, n)) <= Bytes(s[..n])
  {
    if n > 0 {
      GoneBytes(s, removable, n - 1);
      assert s[..n][..n - 1] == s[..n - 1];
      var gone := Gone(s, removable, n - 1);
      assert (gone + [s[n - 1]])[..|gone|] == gone;
    }
  }

  lemma {:induction false} BytesOf(s: seq<Entry>, t: seq<Entry>)
    requires multiset(s) == multiset(t)
    ensures Bytes(s) == Bytes(t)
  {
    if s == [] {
      assert |multiset(t)| == 0;
    } else {
      var x := s[|s| - 1];
      assert s == s[..|s| - 1] + [x];
      assert x in multiset(t);
      var i :| 0 <= i < |t| && t[i] == x;
      var u := t[..i] + t[i + 1..];
      assert t == t[..i] + [x] + t[i + 1..];
      assert multiset(u) == multiset(t) - multiset{x};
      BytesOf(s[..|s| - 1], u);
      BytesInsert(t[..i], x, t[i + 1..]);
    }
  }

  lemma {:induction false} BytesInsert(a: seq<Entry>, x: Entry, b: seq<Entry>)
    ensures Bytes(a + [x] + b) == Bytes(a + b) + x.size
    decreases |b|
  {
    if b == [] {
      assert a + [x] + b == a + [x] && a + b == a;
      assert (a + [x])[..|a|] == a;
    } else {
      var c := b[..|b| - 1];
      BytesInsert(a, x, c);
      assert (a + [x] + b)[..|a| + |b|] == a + [x] + c;
      assert (a + b)[..|a| + |b| - 1] == a + c;
    }
  }

  /** Removes nothing within the limit. Otherwise it goes through the files from the oldest, removing
      what it can, for exactly as long as more than the target is left. */
  method TrimShard(entries: seq<Entry>, limit: nat, removable: Entry -> bool) returns (removed: seq<Entry>, seen: nat)
    ensures |Sort(Older, entries)| == |entries| && seen <= |entries|
    ensures SortedBy(Older, Sort(Older, entries)) && multiset(Sort(Older, entries)) == multiset(entries)
    ensures forall i, j :: 0 <= i < j < |entries| ==> NotNewer(Sort(Older, entries)[i], Sort(Older, entries)[j])
    ensures removed == Gone(Sort(Older, entries), removable, seen)
    ensures Bytes(entries) <= limit ==> removed == []
    ensures Bytes(entries) > limit ==>
              forall n: nat :: n < seen ==> Bytes(entries) - Bytes(Gone(Sort(Older, entries), removable, n)) > limit * 9 / 10
    ensures Bytes(entries) > limit && seen < |entries| ==> Bytes(entries) - Bytes(removed) <= limit * 9 / 10
  {
    hide StrictWeak, SortedBy, Sort, Bytes, Gone;
    OlderIsOrder();
    SortSorts(Older, entries);
    InAgeOrder(Sort(Older, entries));
    var total := Bytes(entries);
    if total <= limit {
      removed, seen := [], 0;
      NoneGone(Sort(Older, entries), removable);
      return;
    }
    var sorted := Sort(Older, entries);
    BytesOf(sorted, entries);
    removed, seen := RemoveOldest(sorted, total, limit * 9 / 10, removable);
  }

  lemma InAgeOrder(s: seq<Entry>)
    requires SortedBy(Older, s)
    ensures forall i, j :: 0 <= i < j < |s| ==> NotNewer(s[i], s[j])
  {
    hide Older, NotNewer;
    forall i, j | 0 <= i < j < |s| ensures NotNewer(s[i], s[j]) {
      OlderTold(s[i], s[j]);
    }
  }

  lemma NoneGone(s: seq<Entry>, removable: Entry -> bool)
    ensures Gone(s, removable, 0) == []
  {
  }

  lemma NoBytes()
    ensures Bytes([]) == 0
  {
  }

  lemma BytesSnoc(s: seq<Entry>, e: Entry)
    ensures Bytes(s + [e]) == Bytes(s) + e.size
  {
    assert (s + [e])[..|s|] == s;
  }

  method RemoveOldest(sorted: seq<Entry>, size: nat, target: nat, removable: Entry -> bool)
    returns (removed: seq<Entry>, seen: nat)
    requires size == Bytes(sorted)
    ensures seen <= |sorted| && removed == Gone(sorted, removable, seen)
    ensures forall n: nat :: n < seen ==> size - Bytes(Gone(sorted, removable, n)) > target
    ensures seen < |sorted| ==> size - Bytes(removed) <= target
  {
    hide Bytes;
    removed, seen := [], 0;
    var total := size;
    NoBytes();
    while seen < |sorted| && total > target
      invariant seen <= |sorted| && removed == Gone(sorted, removable, seen)
      invariant total == size - Bytes(removed)
      invariant forall n: nat :: n < seen ==> size - Bytes(Gone(sorted, removable, n)) > target
    {
      var e := sorted[seen];
      GoneBytes(sorted, removable, seen + 1);
      BytesPrefix(sorted, seen + 1);
      BytesSnoc(removed, e);
      if removable(e) {
        removed := removed + [e];
        total := total - e.size;
      }
      seen := seen + 1;
    }
  }

  lemma {:induction false} BytesPrefix(s: seq<Entry>, n: nat)
    requires n <= |s|
    ensures Bytes(s[..n]) <= Bytes(s)
  {
    if n < |s| {
      BytesPrefix(s[..|s| - 1], n);
      assert s[..|s| - 1][..n] == s[..n];
    } else {
      assert s[..n] == s;
    }
  }
}
