/** Winnowing of token-hash streams into anchors: the reference definitions.

    A k-gram is a run of 32 consecutive tokens; its hash is the direct polynomial hash of
    the run. Every run of 17 consecutive k-grams selects its rightmost minimum, and the
    anchors are the selected k-grams, each listed once. */
module Winnowing {
  import opened Collections
  import opened Words
  import opened RollingHash

  const KGRAM_TOKENS: nat := 32
  const WINNOW_SPAN: nat := 17
  const MIN_REGION_TOKENS: nat := KGRAM_TOKENS + WINNOW_SPAN - 1
  const MAX_ANCHORS: nat := 4096

  /** The multipliers of the two rolling hashes; the guarantees hold for every choice. */
  datatype Bases = Bases(one: u64, two: u64)

  type HashPair = (u64, u64)

  datatype Anchor = Anchor(hashOne: u64, hashTwo: u64, tokenIndex: nat)

  /** The lexicographic order of hash pairs. */
  predicate Less(a: HashPair, b: HashPair) {
    a.0 < b.0 || (a.0 == b.0 && a.1 < b.1)
  }

  /** It is total, and the first hash decides unless the two are equal. */
  lemma LessTold(a: HashPair, b: HashPair)
    ensures (Less(a, b) && a != b && !Less(b, a)) || (Less(b, a) && a != b && !Less(a, b)) || (a == b && !Less(a, b))
    ensures a.0 < b.0 ==> Less(a, b)
    ensures a.0 == b.0 && a.1 < b.1 ==> Less(a, b)
  {
  }

  function Firsts(w: seq<HashPair>): seq<int> {
    seq(|w|, i requires 0 <= i < |w| => w[i].0)
  }

  function Seconds(w: seq<HashPair>): seq<int> {
    seq(|w|, i requires 0 <= i < |w| => w[i].1)
  }

  /** The hash of a window computed from scratch. */
  function DirectHash(bases: Bases, w: seq<HashPair>): HashPair {
    (Poly(bases.one, Firsts(w)) % TWO64, Poly(bases.two, Seconds(w)) % TWO64)
  }

  function KgramAt(bases: Bases, tokens: seq<HashPair>, i: nat): HashPair
    requires i + KGRAM_TOKENS <= |tokens|
  {
    DirectHash(bases, tokens[i..i + KGRAM_TOKENS])
  }

  function Kgrams(bases: Bases, tokens: seq<HashPair>): seq<HashPair> {
    if |tokens| < KGRAM_TOKENS then []
    else seq(|tokens| - KGRAM_TOKENS + 1,
             i requires 0 <= i <= |tokens| - KGRAM_TOKENS => KgramAt(bases, tokens, i))
  }

  /** The k-grams of a stream are one for each run of 32 tokens: the polynomial hashes, modulo 2^64, of their first
      and of their second hashes. */
  lemma {:induction false} KgramsTold(bases: Bases, tokens: seq<HashPair>, i: nat, ones: seq<int>, twos: seq<int>)
    requires i + 32 <= |tokens| && |ones| == |twos| == 32
    requires forall j :: 0 <= j < 32 ==> ones[j] == tokens[i..][j].0 && twos[j] == tokens[i..][j].1
    ensures |Kgrams(bases, tokens)| == |tokens| - 31
    ensures Kgrams(bases, tokens)[i] == (Poly(bases.one, ones) % TWO64, Poly(bases.two, twos) % TWO64)
  {
    hide Poly;
    var w := tokens[i..i + KGRAM_TOKENS];
    forall j | 0 <= j < 32 ensures w[j] == tokens[i..][j] {
    }
    assert Firsts(w) == ones && Seconds(w) == twos;
  }

  lemma KgramOfPrefix(bases: Bases, tokens: seq<HashPair>, t: HashPair, i: nat)
    requires i + KGRAM_TOKENS <= |tokens|
    ensures KgramAt(bases, tokens + [t], i) == KgramAt(bases, tokens, i)
  {
    assert (tokens + [t])[i..i + KGRAM_TOKENS] == tokens[i..i + KGRAM_TOKENS];
  }

  /** Appending one token appends at most one k-gram. */
  lemma KgramsSnoc(bases: Bases, tokens: seq<HashPair>, t: HashPair)
    ensures |tokens| + 1 < KGRAM_TOKENS ==> Kgrams(bases, tokens + [t]) == Kgrams(bases, tokens)
    ensures |tokens| + 1 >= KGRAM_TOKENS ==>
              Kgrams(bases, tokens + [t]) == Kgrams(bases, tokens) + [DirectHash(bases, (tokens + [t])[|tokens| + 1 - KGRAM_TOKENS..])]
  {
    var more := tokens + [t];
    if |more| >= KGRAM_TOKENS {
      var last := |more| - KGRAM_TOKENS;
      var ks, prior := Kgrams(bases, more), Kgrams(bases, tokens);
      assert |ks| == last + 1 && |prior| == last;
      forall i | 0 <= i < last
        ensures ks[i] == prior[i]
      {
        KgramOfPrefix(bases, tokens, t, i);
      }
      assert more[last..] == more[last..last + KGRAM_TOKENS];
      assert ks[last] == DirectHash(bases, more[last..]);
      assert ks == prior + [ks[last]];
    }
  }

  /** `x` is the rightmost of the smallest k-grams in `lo..hi`. */
  ghost predicate IsRightmostMin(ks: seq<HashPair>, lo: nat, x: nat, hi: nat) {
    && lo <= x < hi <= |ks|
    && (forall i :: lo <= i < x ==> !Less(ks[i], ks[x]))
    && (forall i :: x < i < hi ==> Less(ks[x], ks[i]))
  }

  lemma RightmostMinUnique(ks: seq<HashPair>, lo: nat, x: nat, y: nat, hi: nat)
    requires IsRightmostMin(ks, lo, x, hi) && IsRightmostMin(ks, lo, y, hi)
    ensures x == y
  {
    var u, v := ks[x], ks[y];
    assert !(Less(u, v) && Less(v, u));
  }

  /** The rightmost minimum of `lo..hi`, by a left-to-right scan. */
  function RightmostMin(ks: seq<HashPair>, lo: nat, hi: nat): (x: nat)
    requires lo < hi <= |ks|
    ensures IsRightmostMin(ks, lo, x, hi)
  {
    if hi == lo + 1 then lo
    else
      var m := RightmostMin(ks, lo, hi - 1);
      if Less(ks[m], ks[hi - 1]) then m else hi - 1
  }

  /** The k-grams selected by the successive windows, each listed once. */
  function Selections(ks: seq<HashPair>): seq<nat> {
    if |ks| < WINNOW_SPAN then []
    else
      var before := Selections(ks[..|ks| - 1]);
      var x := RightmostMin(ks, |ks| - WINNOW_SPAN, |ks|);
      if before != [] && before[|before| - 1] == x then before else before + [x]
  }

  ghost predicate SelectedByWindow(ks: seq<HashPair>, w: nat, x: nat) {
    w + WINNOW_SPAN <= |ks| && IsRightmostMin(ks, w, x, w + WINNOW_SPAN)
  }

  ghost predicate SelectedBySome(ks: seq<HashPair>, x: nat) {
    exists w: nat :: SelectedByWindow(ks, w, x)
  }

  lemma SelectedByPrefix(ks: seq<HashPair>, w: nat, x: nat)
    requires |ks| > 0
    requires w + WINNOW_SPAN < |ks|
    ensures SelectedByWindow(ks[..|ks| - 1], w, x) <==> SelectedByWindow(ks, w, x)
  {
    var p := ks[..|ks| - 1];
    assert forall i :: 0 <= i < |p| ==> p[i] == ks[i];
  }

  /** Later windows never select an earlier k-gram. */
  lemma WindowsAdvance(ks: seq<HashPair>, w: nat, x: nat, y: nat)
    requires SelectedByWindow(ks, w, x) && SelectedByWindow(ks, w + 1, y)
    ensures x <= y
  {
    var u, v := ks[x], ks[y];
    assert y < x ==> !Less(v, u);
  }

  /** The selections strictly increase, and the last one belongs to the last window. */
  lemma {:induction false} SelectionsOrdered(ks: seq<HashPair>)
    ensures Increasing(Selections(ks))
    ensures (Selections(ks) != []) <==> |ks| >= WINNOW_SPAN
    ensures |ks| >= WINNOW_SPAN ==>
              SelectedByWindow(ks, |ks| - WINNOW_SPAN, Selections(ks)[|Selections(ks)| - 1])
    decreases |ks|
  {
    if |ks| >= WINNOW_SPAN {
      hide RightmostMin, Increasing;
      var before, x := Selections(ks[..|ks| - 1]), RightmostMin(ks, |ks| - WINNOW_SPAN, |ks|);
      assert SelectedByWindow(ks, |ks| - WINNOW_SPAN, x);
      hide SelectedByWindow, IsRightmostMin;
      SelectionsOrdered(ks[..|ks| - 1]);
      if before != [] {
        NextSelection(ks, before[|before| - 1]);
      }
      AppendIncreasing(before, x);
    }
  }

  lemma NextSelection(ks: seq<HashPair>, y: nat)
    requires |ks| > WINNOW_SPAN
    requires SelectedByWindow(ks[..|ks| - 1], |ks| - 1 - WINNOW_SPAN, y)
    ensures y <= RightmostMin(ks, |ks| - WINNOW_SPAN, |ks|)
  {
    var last := |ks| - WINNOW_SPAN;
    var x := RightmostMin(ks, last, |ks|);
    SelectedByPrefix(ks, last - 1, y);
    assert SelectedByWindow(ks, last, x);
    WindowsAdvance(ks, last - 1, y, x);
  }

  lemma AppendIncreasing(s: seq<nat>, x: nat)
    requires Increasing(s)
    ensures s == [] || s[|s| - 1] < x ==> Increasing(s + [x])
  {
  }

  /** The selections are exactly the rightmost minima of the windows. */
  lemma {:induction false} SelectionsExact(ks: seq<HashPair>)
    ensures forall x :: x in Selections(ks) <==> SelectedBySome(ks, x)
    decreases |ks|
  {
    if |ks| >= WINNOW_SPAN {
      SelectionsExact(ks[..|ks| - 1]);
      forall y
        ensures y in Selections(ks) <==> SelectedBySome(ks, y)
      {
        SelectionsMembers(ks, y);
      }
    }
  }

  lemma SelectionsMembers(ks: seq<HashPair>, y: nat)
    requires |ks| >= WINNOW_SPAN
    requires y in Selections(ks[..|ks| - 1]) <==> SelectedBySome(ks[..|ks| - 1], y)
    ensures y in Selections(ks) <==> SelectedBySome(ks, y)
  {
    var last := |ks| - WINNOW_SPAN;
    var x := RightmostMin(ks, last, |ks|);
    assert SelectedByWindow(ks, last, x);
    if y != x {
      assert y in Selections(ks) <==> y in Selections(ks[..|ks| - 1]);
      SelectedBySomePrefix(ks, x, y);
    }
  }

  lemma SelectedBySomePrefix(ks: seq<HashPair>, x: nat, y: nat)
    requires |ks| >= WINNOW_SPAN && SelectedByWindow(ks, |ks| - WINNOW_SPAN, x) && y != x
    ensures SelectedBySome(ks, y) <==> SelectedBySome(ks[..|ks| - 1], y)
  {
    if SelectedBySome(ks, y) {
      var w: nat :| SelectedByWindow(ks, w, y);
      if w == |ks| - WINNOW_SPAN {
        RightmostMinUnique(ks, w, x, y, |ks|);
      } else {
        SelectedByPrefix(ks, w, y);
      }
    }
    if SelectedBySome(ks[..|ks| - 1], y) {
      var w: nat :| SelectedByWindow(ks[..|ks| - 1], w, y);
      SelectedByPrefix(ks, w, y);
    }
  }

  /** Consecutive selections lie at most one span apart, and the first lies in the first span. */
  lemma {:induction false} SelectionGaps(ks: seq<HashPair>)
    ensures forall i :: 0 < i < |Selections(ks)| ==> Selections(ks)[i] - Selections(ks)[i - 1] <= WINNOW_SPAN
    ensures Selections(ks) != [] ==> Selections(ks)[0] < WINNOW_SPAN
    decreases |ks|
  {
    if |ks| >= WINNOW_SPAN {
      var p := ks[..|ks| - 1];
      SelectionGaps(p);
      SelectionsOrdered(p);
      SelectionsOrdered(ks);
    }
  }

  function AnchorAt(ks: seq<HashPair>, x: nat): Anchor
    requires x < |ks|
  {
    Anchor(ks[x].0, ks[x].1, SaturateU32(x))
  }

  function AnchorsAt(ks: seq<HashPair>, selected: seq<nat>): seq<Anchor>
    requires forall i :: 0 <= i < |selected| ==> selected[i] < |ks|
  {
    seq(|selected|, i requires 0 <= i < |selected| => AnchorAt(ks, selected[i]))
  }

  function {:induction false} SelectionsBounded(ks: seq<HashPair>): (s: seq<nat>)
    ensures s == Selections(ks) && forall i :: 0 <= i < |s| ==> s[i] < |ks|
  {
    SelectionsExact(ks);
    assert forall i :: 0 <= i < |Selections(ks)| ==> Selections(ks)[i] in Selections(ks);
    Selections(ks)
  }

  /** The selections of a prefix are a prefix of the selections. */
  lemma {:induction false} SelectionsGrow(ks: seq<HashPair>, n: nat)
    requires n <= |ks|
    ensures Selections(ks[..n]) <= Selections(ks)
    decreases |ks| - n
  {
    if n == |ks| {
      assert ks[..n] == ks;
    } else {
      SelectionsGrow(ks, n + 1);
      assert ks[..n + 1][..n] == ks[..n];
    }
  }

  /** The anchors of a stream of token hashes. */
  function Anchors(bases: Bases, tokens: seq<HashPair>): seq<Anchor> {
    var ks := Kgrams(bases, tokens);
    AnchorsAt(ks, SelectionsBounded(ks))
  }

  lemma SliceOfSlice(s: seq<HashPair>, a: nat, n: nat, i: nat, k: nat)
    requires a + n <= |s| && i + k <= n
    ensures s[a..a + n][i..i + k] == s[a + i..a + i + k]
  {
    var inner, direct := s[a..a + n][i..i + k], s[a + i..a + i + k];
    assert forall j :: 0 <= j < |inner| ==> inner[j] == direct[j];
  }

  /** A shared run of tokens yields equal k-grams at equal offsets. */
  lemma SharedKgram(bases: Bases, left: seq<HashPair>, right: seq<HashPair>, a: nat, b: nat, i: nat)
    requires a + MIN_REGION_TOKENS <= |left| && b + MIN_REGION_TOKENS <= |right|
    requires left[a..a + MIN_REGION_TOKENS] == right[b..b + MIN_REGION_TOKENS]
    requires i < WINNOW_SPAN
    ensures KgramAt(bases, left, a + i) == KgramAt(bases, right, b + i)
  {
    SliceOfSlice(left, a, MIN_REGION_TOKENS, i, KGRAM_TOKENS);
    SliceOfSlice(right, b, MIN_REGION_TOKENS, i, KGRAM_TOKENS);
  }

  /** Equal windows of k-grams select the same offset. */
  lemma EqualWindowsSelectSame(ls: seq<HashPair>, rs: seq<HashPair>, a: nat, b: nat) returns (d: nat)
    requires a + WINNOW_SPAN <= |ls| && b + WINNOW_SPAN <= |rs|
    requires forall i: nat :: b <= i < b + WINNOW_SPAN ==> rs[i] == ls[i - b + a]
    ensures d < WINNOW_SPAN && ls[a + d] == rs[b + d]
    ensures a + d in Selections(ls) && b + d in Selections(rs)
  {
    var x := RightmostMin(ls, a, a + WINNOW_SPAN);
    d := x - a;
    assert SelectedByWindow(ls, a, a + d);
    assert SelectedByWindow(rs, b, b + d);
    SelectionsExact(ls);
    SelectionsExact(rs);
  }

  ghost predicate HasAnchor(anchors: seq<Anchor>, h: HashPair, x: nat) {
    Anchor(h.0, h.1, SaturateU32(x)) in anchors
  }

  /** Both lists hold an anchor with hash pair `h`, at offset `d` below the span. */
  ghost predicate CommonAnchor(left: seq<Anchor>, right: seq<Anchor>, a: nat, b: nat, d: nat, h: HashPair) {
    d < WINNOW_SPAN && HasAnchor(left, h, a + d) && HasAnchor(right, h, b + d)
  }

  lemma AnchorOfSelection(ks: seq<HashPair>, x: nat)
    requires x in Selections(ks) && x < |ks|
    ensures HasAnchor(AnchorsAt(ks, SelectionsBounded(ks)), ks[x], x)
  {
    var s := SelectionsBounded(ks);
    var i :| 0 <= i < |s| && s[i] == x;
    assert AnchorsAt(ks, s)[i] == AnchorAt(ks, x);
  }

  lemma EqualWindowsShareAnchor(ls: seq<HashPair>, rs: seq<HashPair>, a: nat, b: nat)
    requires a + WINNOW_SPAN <= |ls| && b + WINNOW_SPAN <= |rs|
    requires forall i: nat :: b <= i < b + WINNOW_SPAN ==> rs[i] == ls[i - b + a]
    ensures exists d: nat, h: HashPair ::
              CommonAnchor(AnchorsAt(ls, SelectionsBounded(ls)), AnchorsAt(rs, SelectionsBounded(rs)), a, b, d, h)
  {
    var d := EqualWindowsSelectSame(ls, rs, a, b);
    var left, right := AnchorsAt(ls, SelectionsBounded(ls)), AnchorsAt(rs, SelectionsBounded(rs));
    assert HasAnchor(left, ls[a + d], a + d) by { AnchorOfSelection(ls, a + d); }
    assert HasAnchor(right, ls[a + d], b + d) by { AnchorOfSelection(rs, b + d); }
    assert CommonAnchor(left, right, a, b, d, ls[a + d]);
  }

  /** The winnowing guarantee: any run of 48 tokens shared by two streams leaves both an anchor
      with the same hash pair, at the same offset (below 17) into the run. */
  lemma SharedRunSharesAnchor(bases: Bases, left: seq<HashPair>, right: seq<HashPair>, a: nat, b: nat)
    requires a + MIN_REGION_TOKENS <= |left| && b + MIN_REGION_TOKENS <= |right|
    requires left[a..a + MIN_REGION_TOKENS] == right[b..b + MIN_REGION_TOKENS]
    ensures exists d: nat, h: HashPair ::
              CommonAnchor(Anchors(bases, left), Anchors(bases, right), a, b, d, h)
  {
    hide Poly;
    var ls, rs := Kgrams(bases, left), Kgrams(bases, right);
    forall i: nat | b <= i < b + WINNOW_SPAN
      ensures rs[i] == ls[i - b + a]
    {
      SharedKgram(bases, left, right, a, b, i - b);
    }
    EqualWindowsShareAnchor(ls, rs, a, b);
    assert Anchors(bases, left) == AnchorsAt(ls, SelectionsBounded(ls));
    assert Anchors(bases, right) == AnchorsAt(rs, SelectionsBounded(rs));
  }
}
