/** Byte strings in lexicographic order. */
module TextOrder {
  import opened Sorting

  type Text = seq<nat>

  predicate TextLess(a: Text, b: Text) {
    if b == [] then false
    else if a == [] then true
    else a[0] < b[0] || (a[0] == b[0] && TextLess(a[1..], b[1..]))
  }

  /** The strings agree up to `n`, where the first ends or has the smaller character. */
  ghost predicate DiffersAt(a: Text, b: Text, n: nat) {
    n <= |a| && n < |b| && a[..n] == b[..n] && (n == |a| || a[n] < b[n])
  }

  /** The order is that of the first difference. */
  lemma {:induction false} FirstDifference(a: Text, b: Text)
    ensures TextLess(a, b) <==> exists n: nat :: DiffersAt(a, b, n)
  {
    if a == [] || b == [] || a[0] != b[0] {
      assert b != [] && (a == [] || a[0] < b[0]) ==> DiffersAt(a, b, 0);
      assert forall n: nat :: DiffersAt(a, b, n) && n > 0 ==> a[..n][0] == b[..n][0];
    } else {
      FirstDifference(a[1..], b[1..]);
      forall n: nat
        ensures DiffersAt(a[1..], b[1..], n) <==> DiffersAt(a, b, n + 1)
      {
        if n < |a| && n < |b| {
          assert a[..n + 1] == [a[0]] + a[1..][..n] && b[..n + 1] == [b[0]] + b[1..][..n];
          assert a[1..][..n] == a[..n + 1][1..] && b[1..][..n] == b[..n + 1][1..];
        }
      }
      if exists n: nat :: DiffersAt(a, b, n) {
        var n: nat :| DiffersAt(a, b, n);
        assert n > 0 && DiffersAt(a[1..], b[1..], n - 1);
      }
    }
  }

  lemma {:induction false} TextAsymmetric(a: Text, b: Text)
    requires TextLess(a, b)
    ensures !TextLess(b, a)
  {
    if a != [] && a[0] == b[0] {
      TextAsymmetric(a[1..], b[1..]);
    }
  }

  /** The order is total: strings of equal rank are equal. */
  lemma {:induction false} TextTotal(a: Text, b: Text)
    ensures TextLess(a, b) || TextLess(b, a) || a == b
  {
    if a != [] && b != [] && a[0] == b[0] {
      TextTotal(a[1..], b[1..]);
      assert a == [a[0]] + a[1..] && b == [b[0]] + b[1..];
    }
  }

  lemma {:induction false} TextTransitive(a: Text, b: Text, c: Text)
    requires TextLess(a, b) && TextLess(b, c)
    ensures TextLess(a, c)
  {
    if a != [] && a[0] == b[0] == c[0] {
      TextTransitive(a[1..], b[1..], c[1..]);
    }
  }

  lemma TextOrdered(a: Text, b: Text, c: Text)
    ensures TextLess(a, b) ==> !TextLess(b, a)
    ensures TextLess(a, b) || TextLess(b, a) || a == b
    ensures TextLess(a, b) && TextLess(b, c) ==> TextLess(a, c)
  {
    if TextLess(a, b) {
      TextAsymmetric(a, b);
      if TextLess(b, c) {
        TextTransitive(a, b, c);
      }
    }
    TextTotal(a, b);
  }

  // Composite keys: lists of strings, compared component by component.

  type Key = seq<Text>

  predicate KeyLess(a: Key, b: Key) {
    if b == [] then false
    else if a == [] then true
    else TextLess(a[0], b[0]) || (a[0] == b[0] && KeyLess(a[1..], b[1..]))
  }

  lemma {:induction false} KeyAsymmetric(a: Key, b: Key)
    requires KeyLess(a, b)
    ensures !KeyLess(b, a)
  {
    if a != [] {
      TextOrdered(a[0], b[0], a[0]);
      if a[0] == b[0] {
        TextOrdered(a[0], a[0], a[0]);
        if KeyLess(a[1..], b[1..]) {
          KeyAsymmetric(a[1..], b[1..]);
        }
      }
    }
  }

  lemma {:induction false} KeyTotal(a: Key, b: Key)
    ensures KeyLess(a, b) || KeyLess(b, a) || a == b
  {
    if a != [] && b != [] {
      TextTotal(a[0], b[0]);
      KeyTotal(a[1..], b[1..]);
      assert a == [a[0]] + a[1..] && b == [b[0]] + b[1..];
    }
  }

  /** What is below the one is below the other or has the other below itself. */
  lemma {:induction false} KeyCotransitive(a: Key, b: Key, c: Key)
    requires KeyLess(a, c)
    ensures KeyLess(a, b) || KeyLess(b, c)
  {
    if a != [] && b != [] {
      TextOrdered(a[0], b[0], c[0]);
      TextOrdered(a[0], c[0], b[0]);
      TextOrdered(b[0], a[0], c[0]);
      TextOrdered(b[0], c[0], a[0]);
      if a[0] == b[0] == c[0] && KeyLess(a[1..], c[1..]) {
        KeyCotransitive(a[1..], b[1..], c[1..]);
      }
    }
  }

  /** The order of strings is total. */
  lemma TextIsOrder()
    ensures StrictWeak(TextLess)
    ensures forall a, b :: !TextLess(a, b) && !TextLess(b, a) ==> a == b
    ensures forall m: multiset<Text> :: RankInjective(TextLess, m)
  {
    hide TextLess;
    forall a, b, c
      ensures TextLess(a, b) ==> !TextLess(b, a)
      ensures TextLess(a, c) ==> TextLess(a, b) || TextLess(b, c)
      ensures !TextLess(a, b) && !TextLess(b, a) ==> a == b
    {
      TextOrdered(a, b, c);
      TextOrdered(b, a, c);
      TextOrdered(b, c, a);
      TextOrdered(a, c, b);
      TextOrdered(c, b, a);
    }
  }

  /** Comparing by a key is an order, and a total one if the key identifies. */
  lemma OrderByKey<T(!new)>(less: (T, T) -> bool, key: T -> Key)
    requires forall a, b :: less(a, b) <==> KeyLess(key(a), key(b))
    ensures StrictWeak(less)
    ensures (forall a, b :: key(a) == key(b) ==> a == b) ==> forall m: multiset<T> :: RankInjective(less, m)
  {
    hide KeyLess;
    forall a, b | less(a, b) ensures !less(b, a) {
      KeyAsymmetric(key(a), key(b));
    }
    forall a, b, c | less(a, c) ensures less(a, b) || less(b, c) {
      KeyCotransitive(key(a), key(b), key(c));
    }
    forall a, b | !less(a, b) && !less(b, a) ensures key(a) == key(b) {
      KeyTotal(key(a), key(b));
    }
  }
}
