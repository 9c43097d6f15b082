/** Introduced-diagnostic comparison: multiset subtraction of the baseline, with the baseline
    diagnostics of renamed files counted again at their new path. */
module Comparison {
  import opened Collections
  import opened Diagnostics
  import opened Sorting
  import opened TextOrder

  /** A diagnostic is compared by its path and comparison key. */
  type Class = (Text, Text)

  type Continuity = map<Text, Text>

  function ClassOf(e: Evaluated): Class {
    (e.diagnostic.path, e.comparisonKey)
  }

  /** Number of diagnostics of class `k`. */
  function Seen(s: seq<Evaluated>, k: Class): nat {
    if s == [] then 0 else Seen(s[..|s| - 1], k) + (if ClassOf(s[|s| - 1]) == k then 1 else 0)
  }

  /** Number of baseline diagnostics that renaming carries into class `k`. */
  function Renamed(s: seq<Evaluated>, continuity: Continuity, k: Class): nat {
    if s == [] then 0
    else
      var e := s[|s| - 1];
      Renamed(s[..|s| - 1], continuity, k)
      + (if e.diagnostic.path in continuity && (continuity[e.diagnostic.path], e.comparisonKey) == k then 1 else 0)
  }

  /** The elements whose class occurred at least `budget` times before them. */
  function Beyond(s: seq<Evaluated>, budget: Class -> nat): seq<Evaluated> {
    if s == [] then []
    else
      var front, e := s[..|s| - 1], s[|s| - 1];
      if Seen(front, ClassOf(e)) >= budget(ClassOf(e)) then Beyond(front, budget) + [e] else Beyond(front, budget)
  }

  function Monus(a: nat, b: nat): nat {
    if a <= b then 0 else a - b
  }

  /** What a baseline cancels in each class. */
  function Budget(subtract: seq<Evaluated>, continuity: Continuity): Class -> nat {
    k => Seen(subtract, k) + Renamed(subtract, continuity, k)
  }

  lemma SeenSnoc(s: seq<Evaluated>, e: Evaluated, k: Class)
    ensures Seen(s + [e], k) == Seen(s, k) + (if ClassOf(e) == k then 1 else 0)
  {
    assert (s + [e])[..|s|] == s;
  }

  /** Each class keeps what exceeds its budget. */
  lemma {:induction false} SeenBeyond(s: seq<Evaluated>, budget: Class -> nat, k: Class)
    ensures Seen(Beyond(s, budget), k) == Monus(Seen(s, k), budget(k))
  {
    if s != [] {
      var front, e := s[..|s| - 1], s[|s| - 1];
      SeenBeyond(front, budget, k);
      SeenSnoc(Beyond(front, budget), e, k);
    }
  }

  /** Two rounds of cancelling are one round with the summed budget. */
  lemma {:induction false} BeyondTwice(s: seq<Evaluated>, first: Class -> nat, second: Class -> nat, both: Class -> nat)
    requires forall k :: both(k) == first(k) + second(k)
    ensures Beyond(Beyond(s, first), second) == Beyond(s, both)
  {
    if s != [] {
      var front, e := s[..|s| - 1], s[|s| - 1];
      BeyondTwice(front, first, second, both);
      SeenBeyond(front, first, ClassOf(e));
      var inner := Beyond(front, first);
      assert (inner + [e])[..|inner|] == inner;
    }
  }

  /** Candidate `i` is preceded by at least `budget` candidates of its class. */
  ghost predicate Survives(s: seq<Evaluated>, budget: Class -> nat, i: nat)
    requires i < |s|
  {
    Seen(s[..i], ClassOf(s[i])) >= budget(ClassOf(s[i]))
  }

  /** `at` lists the positions of the survivors. */
  ghost predicate Positions(s: seq<Evaluated>, budget: Class -> nat, at: seq<nat>, survivors: seq<Evaluated>) {
    && |at| == |survivors| && Increasing(at)
    && (forall j :: 0 <= j < |at| ==> at[j] < |s| && survivors[j] == s[at[j]])
    && (forall i: nat :: i < |s| ==> (i in at <==> Survives(s, budget, i)))
  }

  /** The survivors keep the candidates' order: they are the candidates at strictly increasing
      positions, namely those preceded by at least `budget` candidates of their class. */
  lemma {:induction false} SurvivorPositions(s: seq<Evaluated>, budget: Class -> nat) returns (at: seq<nat>)
    ensures Positions(s, budget, at, Beyond(s, budget))
  {
    hide Survives, Positions, Beyond;
    if s == [] {
      at := [];
      NoPositions(budget);
    } else {
      var front := s[..|s| - 1];
      var inner := SurvivorPositions(front, budget);
      BeyondSnoc(s, budget);
      at := if Survives(s, budget, |front|) then inner + [|front|] else inner;
      PositionsStep(s, budget, inner, Beyond(front, budget));
    }
  }

  lemma NoPositions(budget: Class -> nat)
    ensures Positions([], budget, [], Beyond([], budget))
  {
  }

  lemma BeyondSnoc(s: seq<Evaluated>, budget: Class -> nat)
    requires s != []
    ensures Beyond(s, budget)
         == if Survives(s, budget, |s| - 1) then Beyond(s[..|s| - 1], budget) + [s[|s| - 1]]
            else Beyond(s[..|s| - 1], budget)
  {
  }

  lemma PositionsStep(s: seq<Evaluated>, budget: Class -> nat, inner: seq<nat>, survivors: seq<Evaluated>)
    requires s != [] && Positions(s[..|s| - 1], budget, inner, survivors)
    ensures Survives(s, budget, |s| - 1) ==> Positions(s, budget, inner + [|s| - 1], survivors + [s[|s| - 1]])
    ensures !Survives(s, budget, |s| - 1) ==> Positions(s, budget, inner, survivors)
  {
    hide Seen;
    var front := s[..|s| - 1];
    forall i: nat | i < |front|
      ensures Survives(front, budget, i) <==> Survives(s, budget, i)
    {
      assert front[..i] == s[..i];
    }
    assert |front| !in inner;
  }

  function Lookup(counts: map<Class, nat>, k: Class): nat {
    if k in counts then counts[k] else 0
  }

  /** `decrement`: uses up one unit of `k`, if there is one. */
  method Decrement(counts: map<Class, nat>, k: Class) returns (next: map<Class, nat>, used: bool)
    ensures used <==> Lookup(counts, k) > 0
    ensures forall j :: Lookup(next, j) == if used && j == k then Lookup(counts, j) - 1 else Lookup(counts, j)
  {
    if k !in counts || counts[k] == 0 {
      return counts, false;
    }
    return counts[k := counts[k] - 1], true;
  }

  /** One pass of cancelling: the candidates that find their count used up. */
  method Cancel(candidates: seq<Evaluated>, counts: map<Class, nat>, ghost budget: Class -> nat) returns (pending: seq<Evaluated>)
    requires forall k :: Lookup(counts, k) == budget(k)
    ensures pending == Beyond(candidates, budget)
  {
    pending := [];
    var left := counts;
    for i := 0 to |candidates|
      invariant pending == Beyond(candidates[..i], budget)
      invariant forall k :: Lookup(left, k) == Monus(budget(k), Seen(candidates[..i], k))
    {
      var item := candidates[i];
      assert candidates[..i + 1][..i] == candidates[..i];
      var used: bool;
      left, used := Decrement(left, ClassOf(item));
      if !used {
        pending := pending + [item];
      }
    }
    assert candidates[..|candidates|] == candidates;
  }

  /** `semantic_difference`: cancels exact matches first and renamed matches second; the outcome
      is one cancellation with the summed budget. */
  method SemanticDifference(candidates: seq<Evaluated>, subtract: seq<Evaluated>, continuity: Continuity)
    returns (survivors: seq<Evaluated>)
    ensures survivors == Beyond(candidates, Budget(subtract, continuity))
  {
    var exact: map<Class, nat>, alias: map<Class, nat> := map[], map[];
    for i := 0 to |subtract|
      invariant forall k :: Lookup(exact, k) == Seen(subtract[..i], k)
      invariant forall k :: Lookup(alias, k) == Renamed(subtract[..i], continuity, k)
    {
      var item := subtract[i];
      assert subtract[..i + 1][..i] == subtract[..i];
      exact := exact[ClassOf(item) := Lookup(exact, ClassOf(item)) + 1];
      if item.diagnostic.path in continuity {
        var k := (continuity[item.diagnostic.path], item.comparisonKey);
        alias := alias[k := Lookup(alias, k) + 1];
      }
    }
    assert subtract[..|subtract|] == subtract;
    ghost var exactly: Class -> nat := k => Seen(subtract, k);
    ghost var renamed: Class -> nat := k => Renamed(subtract, continuity, k);
    var pending := Cancel(candidates, exact, exactly);
    survivors := Cancel(pending, alias, renamed);
    BeyondTwice(candidates, exactly, renamed, Budget(subtract, continuity));
  }

  /** The comparison law: each (path, key) class keeps max(0, after - before - renamed before). */
  lemma {:induction false} SemanticLaw(candidates: seq<Evaluated>, subtract: seq<Evaluated>, continuity: Continuity, k: Class)
    ensures Seen(Beyond(candidates, Budget(subtract, continuity)), k)
         == Monus(Monus(Seen(candidates, k), Seen(subtract, k)), Renamed(subtract, continuity, k))
  {
    SeenBeyond(candidates, Budget(subtract, continuity), k);
  }

  /** The class that a baseline diagnostic cancels in: its own, or the renamed one. */
  function Target(e: Evaluated, continuity: Continuity): Class {
    if e.diagnostic.path in continuity then (continuity[e.diagnostic.path], e.comparisonKey) else ClassOf(e)
  }

  function Targets(s: seq<Evaluated>, continuity: Continuity, k: Class): nat {
    if s == [] then 0
    else Targets(s[..|s| - 1], continuity, k) + (if Target(s[|s| - 1], continuity) == k then 1 else 0)
  }

  /** Candidates exist only at paths that were not renamed away; there the budget counts each
      baseline diagnostic once. */
  lemma {:induction false} BudgetCountsTargets(subtract: seq<Evaluated>, continuity: Continuity, k: Class)
    requires k.0 !in continuity
    ensures Seen(subtract, k) + Renamed(subtract, continuity, k) == Targets(subtract, continuity, k)
  {
    if subtract != [] {
      BudgetCountsTargets(subtract[..|subtract| - 1], continuity, k);
    }
  }

  /** Position of the `r`-th baseline diagnostic that cancels in class `k`. */
  function NthTarget(s: seq<Evaluated>, continuity: Continuity, k: Class, r: nat): (i: nat)
    requires r < Targets(s, continuity, k)
    ensures i < |s|
  {
    if r < Targets(s[..|s| - 1], continuity, k) then NthTarget(s[..|s| - 1], continuity, k, r) else |s| - 1
  }

  lemma {:induction false} NthTargetIs(s: seq<Evaluated>, continuity: Continuity, k: Class, r: nat)
    requires r < Targets(s, continuity, k)
    ensures var i := NthTarget(s, continuity, k, r);
            Target(s[i], continuity) == k && Targets(s[..i], continuity, k) == r
  {
    var front := s[..|s| - 1];
    if r < Targets(front, continuity, k) {
      NthTargetIs(front, continuity, k, r);
      assert front[..NthTarget(front, continuity, k, r)] == s[..NthTarget(front, continuity, k, r)];
    }
  }

  /** The baseline diagnostic that cancels candidate `i`. */
  function Canceller(candidates: seq<Evaluated>, subtract: seq<Evaluated>, continuity: Continuity, i: nat): (b: nat)
    requires i < |candidates| && candidates[i].diagnostic.path !in continuity
    requires !Survives(candidates, Budget(subtract, continuity), i)
    ensures b < |subtract| && Target(subtract[b], continuity) == ClassOf(candidates[i])
  {
    var k := ClassOf(candidates[i]);
    BudgetCountsTargets(subtract, continuity, k);
    NthTargetIs(subtract, continuity, k, Seen(candidates[..i], k));
    NthTarget(subtract, continuity, k, Seen(candidates[..i], k))
  }

  lemma {:induction false} SeenStrictlyGrows(s: seq<Evaluated>, i: nat, j: nat)
    requires i < j < |s| && ClassOf(s[i]) == ClassOf(s[j])
    ensures Seen(s[..i], ClassOf(s[i])) < Seen(s[..j], ClassOf(s[i]))
  {
    assert s[..j][..j - 1] == s[..j - 1];
    if i < j - 1 {
      SeenGrows(s, i + 1, j, ClassOf(s[i]));
      assert s[..i + 1][..i] == s[..i];
    }
  }

  lemma {:induction false} SeenGrows(s: seq<Evaluated>, i: nat, j: nat, k: Class)
    requires i <= j <= |s|
    ensures Seen(s[..i], k) <= Seen(s[..j], k)
    decreases j - i
  {
    if i < j {
      SeenGrows(s, i, j - 1, k);
      assert s[..j][..j - 1] == s[..j - 1];
    }
  }

  /** Every baseline diagnostic cancels at most one candidate. */
  lemma CancellerInjective(candidates: seq<Evaluated>, subtract: seq<Evaluated>, continuity: Continuity, i: nat, j: nat)
    requires i < j < |candidates|
    requires forall c :: c in candidates ==> c.diagnostic.path !in continuity
    requires !Survives(candidates, Budget(subtract, continuity), i) && !Survives(candidates, Budget(subtract, continuity), j)
    ensures Canceller(candidates, subtract, continuity, i) != Canceller(candidates, subtract, continuity, j)
  {
    var k := ClassOf(candidates[i]);
    var l := ClassOf(candidates[j]);
    BudgetCountsTargets(subtract, continuity, k);
    BudgetCountsTargets(subtract, continuity, l);
    NthTargetIs(subtract, continuity, k, Seen(candidates[..i], k));
    NthTargetIs(subtract, continuity, l, Seen(candidates[..j], l));
    if l == k {
      SeenStrictlyGrows(candidates, i, j);
    }
  }

  /** `public_fingerprint_difference`: plain set difference by the public fingerprint. */
  function PublicDifference(candidates: seq<Evaluated>, subtract: seq<Evaluated>): (r: seq<Evaluated>)
    ensures forall e :: e in r <==> e in candidates && !Published(subtract, e.diagnostic.fingerprint)
  {
    if candidates == [] then []
    else
      var e := candidates[|candidates| - 1];
      PublicDifference(candidates[..|candidates| - 1], subtract)
      + (if Published(subtract, e.diagnostic.fingerprint) then [] else [e])
  }

  predicate Published(subtract: seq<Evaluated>, fingerprint: Text) {
    exists i :: 0 <= i < |subtract| && subtract[i].diagnostic.fingerprint == fingerprint
  }

  /** `at` lists the positions of the candidates that are not published. */
  ghost predicate Unpublished(candidates: seq<Evaluated>, subtract: seq<Evaluated>, at: seq<nat>, kept: seq<Evaluated>) {
    && |at| == |kept| && Increasing(at)
    && (forall j :: 0 <= j < |at| ==> at[j] < |candidates| && kept[j] == candidates[at[j]])
    && (forall i: nat :: i < |candidates| ==>
          (i in at <==> !Published(subtract, candidates[i].diagnostic.fingerprint)))
  }

  /** The public difference keeps the unpublished candidates, each of them, in order. */
  lemma {:induction false} PublicPositions(candidates: seq<Evaluated>, subtract: seq<Evaluated>) returns (at: seq<nat>)
    ensures Unpublished(candidates, subtract, at, PublicDifference(candidates, subtract))
  {
    hide Published, Unpublished, PublicDifference;
    if candidates == [] {
      at := [];
      NoneUnpublished(subtract);
    } else {
      var n := |candidates| - 1;
      var inner := PublicPositions(candidates[..n], subtract);
      PublicSnoc(candidates, subtract);
      at := if Published(subtract, candidates[n].diagnostic.fingerprint) then inner else inner + [n];
      UnpublishedStep(candidates, subtract, inner, PublicDifference(candidates[..n], subtract));
    }
  }

  lemma NoneUnpublished(subtract: seq<Evaluated>)
    ensures Unpublished([], subtract, [], PublicDifference([], subtract))
  {
  }

  lemma UnpublishedStep(candidates: seq<Evaluated>, subtract: seq<Evaluated>, inner: seq<nat>, kept: seq<Evaluated>)
    requires candidates != [] && Unpublished(candidates[..|candidates| - 1], subtract, inner, kept)
    ensures var n := |candidates| - 1;
            if Published(subtract, candidates[n].diagnostic.fingerprint) then Unpublished(candidates, subtract, inner, kept)
            else Unpublished(candidates, subtract, inner + [n], kept + [candidates[n]])
  {
    hide Published;
    var n := |candidates| - 1;
    assert n !in inner;
    assert forall i :: 0 <= i < n ==> candidates[..n][i] == candidates[i];
  }

  lemma PublicSnoc(candidates: seq<Evaluated>, subtract: seq<Evaluated>)
    requires candidates != []
    ensures var n := |candidates| - 1;
            PublicDifference(candidates, subtract)
            == if Published(subtract, candidates[n].diagnostic.fingerprint) then PublicDifference(candidates[..n], subtract)
               else PublicDifference(candidates[..n], subtract) + [candidates[n]]
  {
  }
}
