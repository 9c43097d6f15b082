/** Small types and predicates shared by the other modules. */
module Collections {
  datatype Option<+T> = None | Some(value: T)

  ghost predicate NoDuplicates<T>(s: seq<T>) {
    forall i, j :: 0 <= i < j < |s| ==> s[i] != s[j]
  }

  ghost predicate Increasing(s: seq<nat>) {
    forall i, j :: 0 <= i < j < |s| ==> s[i] < s[j]
  }

  lemma Inhabited<T>(s: seq<T>)
    ensures s != [] ==> exists x :: x in s
  {
    assert s == [] || s[0] in s;
  }

  /** Increasing lists of the same numbers are equal. */
  lemma {:induction false} IncreasingUnique(a: seq<nat>, b: seq<nat>)
    requires Increasing(a) && Increasing(b) && forall x :: x in a <==> x in b
    ensures a == b
    decreases |a|
  {
    if a == [] || b == [] {
      Inhabited(a);
      Inhabited(b);
    } else {
      var m, n := |a| - 1, |b| - 1;
      assert a[m] in b && b[n] in a;
      forall x
        ensures x in a[..m] <==> x in b[..n]
      {
        assert x in a <==> x in a[..m] || x == a[m];
        assert x in b <==> x in b[..n] || x == b[n];
      }
      IncreasingUnique(a[..m], b[..n]);
      assert a == a[..m] + [a[m]] && b == b[..n] + [b[n]];
    }
  }
}
