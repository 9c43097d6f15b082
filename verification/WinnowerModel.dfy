/** The streaming winnower: rolling hash, monotone deque and anchor list updated per token. */
module WinnowerModel {
  import opened Collections
  import opened Words
  import opened RollingHash
  import opened Winnowing

  type Candidate = (nat, HashPair)

  function WindowStart(n: nat): nat {
    if n > WINNOW_SPAN then n - WINNOW_SPAN else 0
  }

  /** First index that candidate `u` stands for: one past its predecessor. */
  function CoverStart(minima: seq<Candidate>, u: nat, start: nat): nat
    requires u <= |minima|
  {
    if u == 0 then start else minima[u - 1].0 + 1
  }

  /** The candidates are k-grams of `start..n`, increasing in index and in hash, and each is no
      larger than the k-grams between its predecessor and itself. */
  ghost predicate Ascending(minima: seq<Candidate>, ks: seq<HashPair>, start: nat) {
    && (forall u :: 0 <= u < |minima| ==> start <= minima[u].0 < |ks| && minima[u].1 == ks[minima[u].0])
    && (forall u, v :: 0 <= u < v < |minima| ==> minima[u].0 < minima[v].0 && Less(minima[u].1, minima[v].1))
    && (forall u :: 0 <= u < |minima| ==> Covers(minima, u, ks, start))
  }

  /** Candidate `u` is no larger than the k-grams between its predecessor and itself. */
  ghost predicate Covers(minima: seq<Candidate>, u: nat, ks: seq<HashPair>, start: nat)
    requires u < |minima| && minima[u].0 < |ks|
  {
    forall i :: CoverStart(minima, u, start) <= i < minima[u].0 ==> !Less(ks[i], minima[u].1)
  }

  /** The deque between two pushes: its last candidate is the newest k-gram. */
  ghost predicate MonotoneDeque(minima: seq<Candidate>, ks: seq<HashPair>) {
    && Ascending(minima, ks, WindowStart(|ks|))
    && (ks == [] ==> minima == [])
    && (ks != [] ==> minima != [] && minima[|minima| - 1].0 == |ks| - 1)
  }

  lemma {:induction false} AboveFront(minima: seq<Candidate>, ks: seq<HashPair>, start: nat, i: nat, u: nat)
    requires Ascending(minima, ks, start)
    requires u < |minima|
    requires minima[0].0 < i <= minima[u].0
    ensures Less(minima[0].1, ks[i])
  {
    if i == minima[u].0 {
    } else if u > 0 && i <= minima[u - 1].0 {
      AboveFront(minima, ks, start, i, u - 1);
    } else {
      assert Covers(minima, u, ks, start);
      assert !Less(ks[i], minima[u].1);
    }
  }

  /** The front of the deque is the rightmost minimum of the last 17 k-grams. */
  lemma DequeFront(minima: seq<Candidate>, ks: seq<HashPair>)
    requires MonotoneDeque(minima, ks) && ks != []
    ensures IsRightmostMin(ks, WindowStart(|ks|), minima[0].0, |ks|)
  {
    var start := WindowStart(|ks|);
    assert Covers(minima, 0, ks, start);
    forall i | minima[0].0 < i < |ks|
      ensures Less(ks[minima[0].0], ks[i])
    {
      AboveFront(minima, ks, start, i, |minima| - 1);
    }
  }

  /** Cutting the deque back to a prefix and appending the newest k-gram keeps it ascending. */
  lemma PushKeepsAscending(minima: seq<Candidate>, ks: seq<HashPair>, start: nat, l: nat)
    requires |ks| > 0 && start < |ks|
    requires Ascending(minima, ks[..|ks| - 1], start)
    requires l <= |minima|
    requires l > 0 ==> Less(minima[l - 1].1, ks[|ks| - 1])
    requires forall i :: CoverStart(minima, l, start) <= i < |ks| - 1 ==> !Less(ks[i], ks[|ks| - 1])
    ensures Ascending(minima[..l] + [(|ks| - 1, ks[|ks| - 1])], ks, start)
  {
    var p := ks[..|ks| - 1];
    var next := minima[..l] + [(|ks| - 1, ks[|ks| - 1])];
    assert forall u :: 0 <= u < l ==> next[u] == minima[u];
    assert forall u :: 0 <= u <= l ==> CoverStart(next, u, start) == CoverStart(minima, u, start);
    forall u: nat | u < |next|
      ensures Covers(next, u, ks, start)
    {
      if u < l {
        assert Covers(minima, u, p, start);
        assert forall i :: 0 <= i < |p| ==> p[i] == ks[i];
      }
    }
  }

  /** Raising the window start by dropping expired candidates keeps the deque ascending. */
  lemma DropKeepsAscending(minima: seq<Candidate>, ks: seq<HashPair>, start: nat, later: nat, f: nat)
    requires Ascending(minima, ks, start)
    requires start <= later
    requires f < |minima| && later <= minima[f].0
    requires f > 0 ==> minima[f - 1].0 < later
    ensures Ascending(minima[f..], ks, later)
  {
    var next := minima[f..];
    assert forall u :: 0 <= u < |next| ==> next[u] == minima[u + f];
    forall u: nat | u < |next|
      ensures Covers(next, u, ks, later)
    {
      assert Covers(minima, u + f, ks, start);
      assert CoverStart(minima, u + f, start) <= CoverStart(next, u, later);
    }
  }

  ghost predicate IsPopPoint(minima: seq<Candidate>, hash: HashPair, kept: nat) {
    && kept <= |minima|
    && (kept > 0 ==> Less(minima[kept - 1].1, hash))
    && (forall u :: kept <= u < |minima| ==> !Less(minima[u].1, hash))
  }

  ghost predicate IsDropPoint(minima: seq<Candidate>, index: nat, f: nat) {
    && f <= |minima|
    && (f < |minima| ==> index < minima[f].0 + WINNOW_SPAN)
    && (forall u :: 0 <= u < f ==> minima[u].0 + WINNOW_SPAN <= index)
  }

  /** Everything after the surviving candidates is at least the new hash. */
  lemma {:induction false} PoppedAtLeast(minima: seq<Candidate>, p: seq<HashPair>, hash: HashPair, kept: nat, i: nat, u: nat)
    requires MonotoneDeque(minima, p) && IsPopPoint(minima, hash, kept)
    requires kept <= u < |minima|
    requires CoverStart(minima, kept, WindowStart(|p|)) <= i <= minima[u].0
    ensures !Less(p[i], hash)
  {
    if i == minima[u].0 {
    } else if u > kept && i <= minima[u - 1].0 {
      PoppedAtLeast(minima, p, hash, kept, i, u - 1);
    } else {
      assert Covers(minima, u, p, WindowStart(|p|));
      assert !Less(p[i], minima[u].1);
    }
  }

  function Appended(was: seq<Candidate>, kept: nat, index: nat, hash: HashPair): seq<Candidate>
    requires kept <= |was|
  {
    was[..kept] + [(index, hash)]
  }

  lemma PushObserved(was: seq<Candidate>, kept: nat, ks: seq<HashPair>)
    requires |ks| > 0 && MonotoneDeque(was, ks[..|ks| - 1])
    requires IsPopPoint(was, ks[|ks| - 1], kept)
    ensures Ascending(Appended(was, kept, |ks| - 1, ks[|ks| - 1]), ks, WindowStart(|ks| - 1))
  {
    var index, hash, p := |ks| - 1, ks[|ks| - 1], ks[..|ks| - 1];
    var start := WindowStart(index);
    forall i | CoverStart(was, kept, start) <= i < index
      ensures !Less(ks[i], hash)
    {
      PoppedAtLeast(was, p, hash, kept, i, |was| - 1);
      assert p[i] == ks[i];
    }
    PushKeepsAscending(was, ks, start, kept);
  }

  /** Popping, appending and dropping turn the deque of a prefix into the deque of `ks`. */
  lemma ObservedDeque(was: seq<Candidate>, kept: nat, f: nat, ks: seq<HashPair>)
    requires |ks| > 0 && MonotoneDeque(was, ks[..|ks| - 1])
    requires IsPopPoint(was, ks[|ks| - 1], kept)
    requires IsDropPoint(Appended(was, kept, |ks| - 1, ks[|ks| - 1]), |ks| - 1, f)
    ensures MonotoneDeque(Appended(was, kept, |ks| - 1, ks[|ks| - 1])[f..], ks)
  {
    PushObserved(was, kept, ks);
    DropObserved(Appended(was, kept, |ks| - 1, ks[|ks| - 1]), f, ks);
  }

  lemma DropObserved(grown: seq<Candidate>, f: nat, ks: seq<HashPair>)
    requires |ks| > 0 && Ascending(grown, ks, WindowStart(|ks| - 1))
    requires grown != [] && grown[|grown| - 1].0 == |ks| - 1
    requires IsDropPoint(grown, |ks| - 1, f)
    ensures MonotoneDeque(grown[f..], ks)
  {
    DropKeepsAscending(grown, ks, WindowStart(|ks| - 1), WindowStart(|ks|), f);
  }

  class Winnower {
    const bases: Bases
    var tokenWindow: seq<HashPair>
    var minima: seq<Candidate>
    var hashOne: u64
    var hashTwo: u64
    var kgramCount: nat
    var previousSelection: Option<nat>
    var anchors: seq<Anchor>
    /** Every token pushed so far. */
    ghost var tokens: seq<HashPair>

    /** The rolling state holds the last 32 tokens and their direct hash. */
    ghost predicate WindowValid()
      reads this`tokenWindow, this`hashOne, this`hashTwo, this`tokens
    {
      && tokenWindow == (if |tokens| < KGRAM_TOKENS then tokens else tokens[|tokens| - KGRAM_TOKENS..])
      && (hashOne, hashTwo) == DirectHash(bases, tokenWindow)
    }

    /** The selection state reflects exactly the k-grams `ks`. */
    ghost predicate SelectionValid(ks: seq<HashPair>)
      reads this`kgramCount, this`minima, this`anchors, this`previousSelection
    {
      kgramCount == |ks| && MonotoneDeque(minima, ks) && RecordsSelections(ks)
    }

    /** The anchors are those of the selections of `ks`, within the per-file bound. */
    ghost predicate RecordsSelections(ks: seq<HashPair>)
      reads this`anchors, this`previousSelection
    {
      && anchors == AnchorsAt(ks, SelectionsBounded(ks))
      && |Selections(ks)| <= MAX_ANCHORS
      && previousSelection == LastSelection(ks)
    }

    ghost predicate Valid()
      reads this
    {
      WindowValid() && SelectionValid(Kgrams(bases, tokens))
    }

    constructor (bases: Bases)
      ensures Valid() && tokens == [] && this.bases == bases
      ensures anchors == [] && Anchors(bases, tokens) == []
    {
      this.bases := bases;
      tokenWindow, minima, hashOne, hashTwo, kgramCount := [], [], 0, 0, 0;
      previousSelection, anchors, tokens := None, [], [];
      new;
      assert Firsts([]) == [] && Seconds([]) == [];
    }

    /** Adds one token. The push fails exactly when the stream selects more anchors than the
        per-file bound; after a success the anchors are those of the whole stream. */
    method Push(token: HashPair) returns (ok: bool)
      requires Valid()
      modifies this
      ensures tokens == old(tokens) + [token]
      ensures ok <==> |Anchors(bases, tokens)| <= MAX_ANCHORS
      ensures ok ==> Valid() && anchors == Anchors(bases, tokens)
    {
      hide Poly;
      ghost var prior := Kgrams(bases, tokens);
      assert SelectionValid(prior);
      var full := AdvanceWindow(token);
      ghost var ks := Kgrams(bases, tokens);
      assert SelectionValid(prior);
      if !full {
        assert ks == prior;
        return true;
      }
      ok := ObserveKgram(ks);
      assert WindowValid();
    }

    /** Moves the token window; once it is full, its hash is the newest k-gram. */
    method AdvanceWindow(token: HashPair) returns (full: bool)
      requires WindowValid()
      modifies this`tokenWindow, this`hashOne, this`hashTwo, this`tokens
      ensures WindowValid() && tokens == old(tokens) + [token]
      ensures !full ==> Kgrams(bases, tokens) == old(Kgrams(bases, tokens))
      ensures full ==> |Kgrams(bases, tokens)| > 0
                       && Kgrams(bases, tokens)[..|Kgrams(bases, tokens)| - 1] == old(Kgrams(bases, tokens))
                       && Kgrams(bases, tokens)[|Kgrams(bases, tokens)| - 1] == (hashOne, hashTwo)
    {
      hide Poly;
      KgramsSnoc(bases, tokens, token);
      if |tokenWindow| < KGRAM_TOKENS {
        Grow(token);
        full := |tokenWindow| == KGRAM_TOKENS;
      } else {
        Slide(token);
        full := true;
      }
      assert full ==> tokens[|tokens| - KGRAM_TOKENS..] == tokenWindow;
    }

    /** Filling the first window. */
    method Grow(token: HashPair)
      requires WindowValid() && |tokenWindow| < KGRAM_TOKENS
      modifies this`tokenWindow, this`hashOne, this`hashTwo, this`tokens
      ensures WindowValid() && tokens == old(tokens) + [token]
      ensures |tokenWindow| == |old(tokenWindow)| + 1
    {
      var w := tokenWindow;
      WrapGrow(bases.one, Poly(bases.one, Firsts(w)), token.0);
      WrapGrow(bases.two, Poly(bases.two, Seconds(w)), token.1);
      PolySnoc(bases.one, Firsts(w), token.0);
      PolySnoc(bases.two, Seconds(w), token.1);
      assert Firsts(w + [token]) == Firsts(w) + [token.0];
      assert Seconds(w + [token]) == Seconds(w) + [token.1];
      hashOne := WrappingAdd(WrappingMul(hashOne, bases.one), token.0);
      hashTwo := WrappingAdd(WrappingMul(hashTwo, bases.two), token.1);
      tokenWindow := tokenWindow + [token];
      tokens := tokens + [token];
      assert |tokens| >= KGRAM_TOKENS ==> tokens[|tokens| - KGRAM_TOKENS..] == tokens;
    }

    /** Sliding the full window by one token. */
    method Slide(token: HashPair)
      requires WindowValid() && |tokenWindow| == KGRAM_TOKENS
      modifies this`tokenWindow, this`hashOne, this`hashTwo, this`tokens
      ensures WindowValid() && tokens == old(tokens) + [token]
      ensures |tokenWindow| == KGRAM_TOKENS
    {
      var previous, rest := tokenWindow[0], tokenWindow[1..];
      var powerOne := WrappingPower(bases.one, KGRAM_TOKENS);
      var powerTwo := WrappingPower(bases.two, KGRAM_TOKENS);
      assert Firsts(tokenWindow) == [previous.0] + Firsts(rest);
      assert Seconds(tokenWindow) == [previous.1] + Seconds(rest);
      assert Firsts(rest + [token]) == Firsts(rest) + [token.0];
      assert Seconds(rest + [token]) == Seconds(rest) + [token.1];
      RollingStep(bases.one, previous.0, Firsts(rest), token.0, hashOne, powerOne);
      RollingStep(bases.two, previous.1, Seconds(rest), token.1, hashTwo, powerTwo);
      tokenWindow := rest + [token];
      hashOne := WrappingSub(WrappingAdd(WrappingMul(hashOne, bases.one), token.0), WrappingMul(previous.0, powerOne));
      hashTwo := WrappingSub(WrappingAdd(WrappingMul(hashTwo, bases.two), token.1), WrappingMul(previous.1, powerTwo));
      tokens := tokens + [token];
      assert tokens[|tokens| - KGRAM_TOKENS..] == tokenWindow;
    }

    /** Pops every candidate that is not smaller than the new k-gram and appends the latter. */
    method PushCandidate(index: nat, hash: HashPair) returns (ghost kept: nat)
      modifies this`minima
      ensures IsPopPoint(old(minima), hash, kept) && minima == Appended(old(minima), kept, index, hash)
    {
      ghost var was := minima;
      while minima != [] && !Less(minima[|minima| - 1].1, hash)
        invariant |minima| <= |was| && minima == was[..|minima|]
        invariant forall u :: |minima| <= u < |was| ==> !Less(was[u].1, hash)
        decreases |minima|
      {
        minima := minima[..|minima| - 1];
      }
      kept := |minima|;
      minima := minima + [(index, hash)];
    }

    /** Drops the candidates that left the window of the last 17 k-grams. */
    method DropExpired(index: nat) returns (ghost f: nat)
      modifies this`minima
      ensures IsDropPoint(old(minima), index, f) && minima == old(minima)[f..]
    {
      ghost var was := minima;
      f := 0;
      while minima != [] && minima[0].0 + WINNOW_SPAN <= index
        invariant f <= |was| && minima == was[f..]
        invariant forall u :: 0 <= u < f ==> was[u].0 + WINNOW_SPAN <= index
        decreases |minima|
      {
        minima := minima[1..];
        f := f + 1;
      }
    }

    /** Feeds the newest k-gram to the deque. */
    method UpdateDeque(ghost ks: seq<HashPair>) returns (index: nat)
      requires |ks| > 0 && (hashOne, hashTwo) == ks[|ks| - 1]
      requires kgramCount == |ks| - 1 && MonotoneDeque(minima, ks[..|ks| - 1])
      modifies this`kgramCount, this`minima
      ensures index == |ks| - 1 && kgramCount == |ks|
      ensures MonotoneDeque(minima, ks)
    {
      index := kgramCount;
      kgramCount := kgramCount + 1;
      var hash := (hashOne, hashTwo);
      ghost var was := minima;
      ghost var kept := PushCandidate(index, hash);
      ghost var f := DropExpired(index);
      ObservedDeque(was, kept, f, ks);
    }

    /** Records the selection of the newest full window. */
    method Select(ghost ks: seq<HashPair>) returns (ok: bool)
      requires |ks| >= WINNOW_SPAN && minima != []
      requires IsRightmostMin(ks, |ks| - WINNOW_SPAN, minima[0].0, |ks|) && minima[0].1 == ks[minima[0].0]
      requires RecordsSelections(ks[..|ks| - 1])
      modifies this`previousSelection, this`anchors
      ensures ok <==> |Selections(ks)| <= MAX_ANCHORS
      ensures ok ==> RecordsSelections(ks)
    {
      var (selected, selectedHash) := minima[0];
      AnchorsOfPrefix(ks);
      RightmostMinUnique(ks, |ks| - WINNOW_SPAN, selected, RightmostMin(ks, |ks| - WINNOW_SPAN, |ks|), |ks|);
      if previousSelection == Some(selected) {
        return true;
      }
      previousSelection := Some(selected);
      if |anchors| >= MAX_ANCHORS {
        return false;
      }
      anchors := anchors + [Anchor(selectedHash.0, selectedHash.1, SaturateU32(selected))];
      return true;
    }

    /** Updates the deque and, once a window is full, the selections. */
    method ObserveKgram(ghost ks: seq<HashPair>) returns (ok: bool)
      requires |ks| > 0 && (hashOne, hashTwo) == ks[|ks| - 1]
      requires SelectionValid(ks[..|ks| - 1])
      modifies this`kgramCount, this`minima, this`previousSelection, this`anchors
      ensures ok <==> |Selections(ks)| <= MAX_ANCHORS
      ensures ok ==> SelectionValid(ks)
    {
      var index := UpdateDeque(ks);
      if index + 1 < WINNOW_SPAN {
        AnchorsOfPrefix(ks);
        return true;
      }
      DequeFront(minima, ks);
      ok := Select(ks);
    }
  }

  function LastSelection(ks: seq<HashPair>): Option<nat> {
    var s := Selections(ks);
    if s == [] then None else Some(s[|s| - 1])
  }

  lemma AnchorsOfPrefix(ks: seq<HashPair>)
    requires |ks| > 0
    ensures var p := ks[..|ks| - 1];
            var s := SelectionsBounded(p);
            && (|ks| < WINNOW_SPAN ==> Selections(ks) == Selections(p) == [])
            && (forall i :: 0 <= i < |s| ==> s[i] < |ks|)
            && AnchorsAt(p, s) == AnchorsAt(ks, s)
  {
    var p := ks[..|ks| - 1];
    var s := SelectionsBounded(p);
    assert forall i :: 0 <= i < |s| ==> AnchorAt(p, s[i]) == AnchorAt(ks, s[i]);
  }
}
