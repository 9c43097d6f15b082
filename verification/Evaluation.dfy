/** Evaluation of one request: per-input results are gathered in any order, and the assessment
    depends only on the results in request order. */
module Evaluation {
  import opened Collections
  import opened Comparison
  import opened Diagnostics
  import opened Renames
  import opened Sorting
  import opened TextOrder

  const PARALLEL_FILE_THRESHOLD: nat := 8

  datatype CoverageStatus = Unsupported | Incomplete

  datatype Gap = Gap(path: Text, status: CoverageStatus, language: Option<nat>, reason: Text)

  /** The outcome of one requested path, with the evaluated diagnostics of its two versions. */
  datatype AnalyzedInput =
    | Ready(path: Text, before: Option<seq<Evaluated>>, after: Option<seq<Evaluated>>)
    | UnsupportedInput(path: Text, language: Option<nat>, reason: Text)
    | CancelledInput(path: Text, language: Option<nat>)

  datatype Result<+T> = Ok(value: T) | Err(error: Text)

  /** The reason attached to a cancelled path. */
  const CANCELLED_REASON: Text := [0]

  /** The path under which request-wide gaps are reported. */
  const REQUEST_MARKER: Text := [95, 114, 101, 113, 117, 101, 115, 116]

  predicate GapLess(a: Gap, b: Gap) {
    TextLess(a.path, b.path)
  }

  lemma GapStrictWeak()
    ensures StrictWeak(GapLess)
    ensures forall a, b :: !GapLess(a, b) && !GapLess(b, a) ==> a.path == b.path
  {
    TextIsOrder();
    assert forall a, b :: GapLess(a, b) <==> TextLess(a.path, b.path);
  }

  function Listed(items: Option<seq<Evaluated>>): seq<Evaluated> {
    match items
    case None => []
    case Some(list) => list
  }

  function BeforeItems(input: AnalyzedInput): seq<Evaluated> {
    if input.Ready? then Listed(input.before) else []
  }

  function AfterItems(input: AnalyzedInput): seq<Evaluated> {
    if input.Ready? then Listed(input.after) else []
  }

  function GapItems(input: AnalyzedInput): seq<Gap> {
    match input
    case Ready(_, _, _) => []
    case UnsupportedInput(path, language, reason) => [Gap(path, Unsupported, language, reason)]
    case CancelledInput(path, language) => [Gap(path, Incomplete, language, CANCELLED_REASON)]
  }

  /** What a set of inputs contributes to the batch, regardless of order. */
  datatype Tally = Tally(considered: nat, covered: nat, gaps: multiset<Gap>,
                         before: multiset<Evaluated>, after: multiset<Evaluated>, cancelled: bool)

  function TallyOf(input: AnalyzedInput): Tally {
    Tally(1, if input.Ready? then 1 else 0, multiset(GapItems(input)),
          multiset(BeforeItems(input)), multiset(AfterItems(input)), input.CancelledInput?)
  }

  function Plus(a: Tally, b: Tally): Tally {
    Tally(a.considered + b.considered, a.covered + b.covered, a.gaps + b.gaps,
          a.before + b.before, a.after + b.after, a.cancelled || b.cancelled)
  }

  const NOTHING: Tally := Tally(0, 0, multiset{}, multiset{}, multiset{}, false)

  /** A result delivered by a worker, with the index of its input. */
  datatype Delivery = Delivery(index: nat, result: Result<AnalyzedInput>)

  function Contribution(d: Delivery): Tally {
    if d.result.Ok? then TallyOf(d.result.value) else NOTHING
  }

  function Total(ds: seq<Delivery>): Tally {
    if ds == [] then NOTHING else Plus(Total(ds[..|ds| - 1]), Contribution(ds[|ds| - 1]))
  }

  lemma TotalSnoc(ds: seq<Delivery>, d: Delivery)
    ensures Total(ds + [d]) == Plus(Total(ds), Contribution(d))
  {
    assert (ds + [d])[..|ds|] == ds;
  }

  lemma PlusSwap(a: Tally, b: Tally, c: Tally)
    ensures Plus(Plus(a, b), c) == Plus(Plus(a, c), b)
  {
    assert a.gaps + b.gaps + c.gaps == a.gaps + c.gaps + b.gaps;
    assert a.before + b.before + c.before == a.before + c.before + b.before;
    assert a.after + b.after + c.after == a.after + c.after + b.after;
  }

  lemma {:induction false} TotalRemove(ds: seq<Delivery>, i: nat)
    requires i < |ds|
    ensures Total(ds) == Plus(Total(ds[..i] + ds[i + 1..]), Contribution(ds[i]))
  {
    hide Plus;
    hide Contribution;
    var n := |ds| - 1;
    if i == n {
      assert ds[..i] + ds[i + 1..] == ds[..n];
    } else {
      var front := ds[..n];
      TotalRemove(front, i);
      var rest := front[..i] + front[i + 1..];
      assert ds[..i] + ds[i + 1..] == rest + [ds[n]];
      TotalSnoc(rest, ds[n]);
      PlusSwap(Total(rest), Contribution(ds[i]), Contribution(ds[n]));
    }
  }

  /** The batch total does not depend on the order of delivery. */
  lemma {:induction false} TotalPermutation(a: seq<Delivery>, b: seq<Delivery>)
    requires multiset(a) == multiset(b)
    ensures Total(a) == Total(b)
  {
    hide Plus;
    hide Contribution;
    SameLength(a, b);
    if a != [] {
      var x := a[|a| - 1];
      SplitLast(a);
      assert x in multiset(b);
      var i :| 0 <= i < |b| && b[i] == x;
      RemoveOne(b, i);
      TotalPermutation(a[..|a| - 1], b[..i] + b[i + 1..]);
      TotalRemove(b, i);
    }
  }

  /** What one result adds to a running total. */
  lemma PlusOf(t: Tally, result: AnalyzedInput)
    ensures Plus(t, TallyOf(result)) ==
            match result
            case Ready(_, before, after) =>
              t.(considered := t.considered + 1, covered := t.covered + 1,
                 before := t.before + multiset(Listed(before)), after := t.after + multiset(Listed(after)))
            case UnsupportedInput(path, language, reason) =>
              t.(considered := t.considered + 1, gaps := t.gaps + multiset{Gap(path, Unsupported, language, reason)})
            case CancelledInput(path, language) =>
              t.(considered := t.considered + 1, cancelled := true,
                 gaps := t.gaps + multiset{Gap(path, Incomplete, language, CANCELLED_REASON)})
  {
  }

  class AnalysisBatch {
    var filesConsidered: nat
    var filesCovered: nat
    var coverageGaps: seq<Gap>
    const beforeDiagnostics: BoundedDiagnostics
    const afterDiagnostics: BoundedDiagnostics
    var cancelled: bool
    ghost var total: Tally

    ghost predicate Valid()
      reads this, beforeDiagnostics, afterDiagnostics
    {
      && beforeDiagnostics != afterDiagnostics
      && beforeDiagnostics.Valid() && afterDiagnostics.Valid()
      && total == Tally(filesConsidered, filesCovered, multiset(coverageGaps),
                        beforeDiagnostics.pushed, afterDiagnostics.pushed, cancelled)
    }

    constructor ()
      ensures Valid() && total == NOTHING
      ensures fresh(beforeDiagnostics) && fresh(afterDiagnostics)
    {
      var before := new BoundedDiagnostics();
      var after := new BoundedDiagnostics();
      beforeDiagnostics, afterDiagnostics := before, after;
      filesConsidered, filesCovered, coverageGaps, cancelled := 0, 0, [], false;
      total := NOTHING;
    }

    /** Adds one result to the running totals. */
    method Push(result: AnalyzedInput)
      requires Valid()
      modifies this, beforeDiagnostics, afterDiagnostics
      ensures Valid() && total == Plus(old(total), TallyOf(result))
    {
      hide Valid, Plus, TallyOf;
      PlusOf(total, result);
      match result {
        case Ready(path, before, after) =>
          PushReady(path, before, after);
        case UnsupportedInput(path, language, reason) =>
          PushGap(Gap(path, Unsupported, language, reason), false);
        case CancelledInput(path, language) =>
          PushGap(Gap(path, Incomplete, language, CANCELLED_REASON), true);
      }
    }

    /** Records a path that was not covered. */
    method PushGap(gap: Gap, cancel: bool)
      requires Valid()
      modifies this
      ensures Valid() && total == old(total).(considered := old(total.considered) + 1,
                                              gaps := old(total.gaps) + multiset{gap},
                                              cancelled := old(total.cancelled) || cancel)
    {
      hide BoundedDiagnostics.Valid;
      filesConsidered := filesConsidered + 1;
      cancelled := cancelled || cancel;
      coverageGaps := coverageGaps + [gap];
      total := total.(considered := total.considered + 1, gaps := total.gaps + multiset{gap},
                      cancelled := total.cancelled || cancel);
    }

    /** Records a covered path: its diagnostics join the two bounded stores. */
    method PushReady(path: Text, before: Option<seq<Evaluated>>, after: Option<seq<Evaluated>>)
      requires Valid()
      modifies this, beforeDiagnostics, afterDiagnostics
      ensures Valid() && total == old(total).(considered := old(total.considered) + 1,
                                              covered := old(total.covered) + 1,
                                              before := old(total.before) + multiset(Listed(before)),
                                              after := old(total.after) + multiset(Listed(after)))
    {
      hide BoundedDiagnostics.Valid;
      ghost var was := total;
      filesConsidered := filesConsidered + 1;
      filesCovered := filesCovered + 1;
      Absorb(beforeDiagnostics, before);
      Absorb(afterDiagnostics, after);
      total := was.(considered := was.considered + 1, covered := was.covered + 1,
                    before := was.before + multiset(Listed(before)), after := was.after + multiset(Listed(after)));
    }
  }

  /** Merges the diagnostics of one version of a file, if it exists. */
  method Absorb(store: BoundedDiagnostics, items: Option<seq<Evaluated>>)
    requires store.Valid()
    modifies store
    ensures store.Valid() && store.pushed == old(store.pushed) + multiset(Listed(items))
  {
    hide BoundedDiagnostics.Valid;
    if items.Some? {
      var file := StoreOf(items.value);
      store.Merge(file);
    }
  }

  /** The bounded store that `materialize` fills for one file. */
  method StoreOf(items: seq<Evaluated>) returns (store: BoundedDiagnostics)
    ensures fresh(store) && store.Valid() && store.pushed == multiset(items)
  {
    store := new BoundedDiagnostics();
    store.PushAll(items);
  }

  /** The error of the lowest failing index. */
  function FirstError(results: seq<Result<AnalyzedInput>>): (e: Option<Text>)
    ensures e.None? <==> forall i :: 0 <= i < |results| ==> results[i].Ok?
    ensures e.Some? ==> exists i :: 0 <= i < |results| && results[i] == Err(e.value)
                                    && forall j :: 0 <= j < i ==> results[j].Ok?
  {
    if results == [] then None
    else
      var e := FirstError(results[..|results| - 1]);
      var last := results[|results| - 1];
      if e.Some? then
        assert forall i :: 0 <= i < |results| - 1 ==> results[..|results| - 1][i] == results[i];
        e
      else if last.Err? then Some(last.error) else None
  }

  function Indexed(results: seq<Result<AnalyzedInput>>): seq<Delivery> {
    seq(|results|, i requires 0 <= i < |results| => Delivery(i, results[i]))
  }

  /** An order in which the workers deliver the results: every input once. */
  ghost predicate IsSchedule(ds: seq<Delivery>, results: seq<Result<AnalyzedInput>>) {
    multiset(ds) == multiset(Indexed(results))
  }

  lemma ScheduleMembers(ds: seq<Delivery>, results: seq<Result<AnalyzedInput>>)
    requires IsSchedule(ds, results)
    ensures |ds| == |results|
    ensures forall d :: d in ds <==> d.index < |results| && d.result == results[d.index]
  {
    SameLength(ds, Indexed(results));
    forall d
      ensures d in ds <==> d.index < |results| && d.result == results[d.index]
    {
      assert d in ds <==> d in multiset(ds);
      assert d in Indexed(results) <==> d in multiset(Indexed(results));
      if d.index < |results| && d.result == results[d.index] {
        assert Indexed(results)[d.index] == d;
      }
    }
  }

  /** `run_analysis`: sequential for few inputs, otherwise gathered in the order in which the
      workers deliver. The error and the totals are those of the request order. */
  method RunAnalysis(results: seq<Result<AnalyzedInput>>, schedule: seq<Delivery>)
    returns (error: Option<Text>, batch: AnalysisBatch)
    requires IsSchedule(schedule, results)
    ensures error == FirstError(results)
    ensures fresh(batch) && fresh(batch.beforeDiagnostics) && fresh(batch.afterDiagnostics) && batch.Valid()
    ensures error.None? ==> batch.total == Total(Indexed(results))
  {
    if |results| < PARALLEL_FILE_THRESHOLD {
      error, batch := RunSequential(results);
    } else {
      error, batch := RunParallel(results, schedule);
    }
  }

  method RunSequential(results: seq<Result<AnalyzedInput>>) returns (error: Option<Text>, batch: AnalysisBatch)
    ensures error == FirstError(results)
    ensures fresh(batch) && fresh(batch.beforeDiagnostics) && fresh(batch.afterDiagnostics) && batch.Valid()
    ensures error.None? ==> batch.total == Total(Indexed(results))
  {
    hide AnalysisBatch.Valid;
    hide Plus;
    hide TallyOf;
    hide FirstError;
    batch := new AnalysisBatch();
    for i := 0 to |results|
      invariant fresh(batch) && fresh(batch.beforeDiagnostics) && fresh(batch.afterDiagnostics) && batch.Valid()
      invariant forall j :: 0 <= j < i ==> results[j].Ok?
      invariant batch.total == Total(Indexed(results)[..i])
    {
      match results[i] {
        case Ok(input) =>
          var all := Indexed(results);
          assert all[..i + 1] == all[..i] + [all[i]];
          TotalSnoc(all[..i], all[i]);
          batch.Push(input);
        case Err(e) =>
          FirstErrorIs(results, i);
          return Some(e), batch;
      }
    }
    assert Indexed(results)[..|results|] == Indexed(results);
    error := None;
  }

  lemma FirstErrorIs(results: seq<Result<AnalyzedInput>>, i: nat)
    requires i < |results| && results[i].Err? && forall j :: 0 <= j < i ==> results[j].Ok?
    ensures FirstError(results) == Some(results[i].error)
  {
  }

  /** Deliveries that failed, in delivery order. */
  function Failures(ds: seq<Delivery>): seq<Delivery> {
    if ds == [] then []
    else
      var front := Failures(ds[..|ds| - 1]);
      if ds[|ds| - 1].result.Err? then front + [ds[|ds| - 1]] else front
  }

  lemma {:induction false} FailureMembers(ds: seq<Delivery>)
    ensures forall d :: d in Failures(ds) <==> d in ds && d.result.Err?
  {
    if ds != [] {
      FailureMembers(ds[..|ds| - 1]);
      assert ds == ds[..|ds| - 1] + [ds[|ds| - 1]];
    }
  }

  method RunParallel(results: seq<Result<AnalyzedInput>>, schedule: seq<Delivery>)
    returns (error: Option<Text>, batch: AnalysisBatch)
    requires IsSchedule(schedule, results)
    ensures error == FirstError(results)
    ensures fresh(batch) && fresh(batch.beforeDiagnostics) && fresh(batch.afterDiagnostics) && batch.Valid()
    ensures error.None? ==> batch.total == Total(Indexed(results))
  {
    hide AnalysisBatch.Valid;
    hide Plus;
    hide TallyOf;
    hide FirstError;
    batch := new AnalysisBatch();
    var errors: seq<Delivery> := [];
    for t := 0 to |schedule|
      invariant fresh(batch) && fresh(batch.beforeDiagnostics) && fresh(batch.afterDiagnostics) && batch.Valid()
      invariant batch.total == Total(schedule[..t])
      invariant errors == Failures(schedule[..t])
    {
      assert schedule[..t + 1] == schedule[..t] + [schedule[t]];
      assert schedule[..t + 1][..t] == schedule[..t];
      TotalSnoc(schedule[..t], schedule[t]);
      match schedule[t].result {
        case Ok(input) =>
          batch.Push(input);
        case Err(_) =>
          errors := errors + [schedule[t]];
          PlusNothing(batch.total);
      }
    }
    assert schedule[..|schedule|] == schedule;
    ScheduleMembers(schedule, results);
    FailureMembers(schedule);
    TotalPermutation(schedule, Indexed(results));
    if errors != [] {
      var first := LowestIndex(errors);
      assert first in schedule;
      forall j | 0 <= j < first.index
        ensures results[j].Ok?
      {
        assert Delivery(j, results[j]) in schedule;
      }
      FirstErrorIs(results, first.index);
      return Some(first.result.error), batch;
    }
    forall j | 0 <= j < |results|
      ensures results[j].Ok?
    {
      assert Delivery(j, results[j]) in schedule;
    }
    error := None;
  }

  lemma PlusNothing(a: Tally)
    ensures Plus(a, NOTHING) == a
  {
  }

  /** Sorting the errors by index and taking the first. */
  method LowestIndex(errors: seq<Delivery>) returns (first: Delivery)
    requires errors != []
    ensures first in errors && forall d :: d in errors ==> first.index <= d.index
  {
    first := errors[0];
    for i := 1 to |errors|
      invariant first in errors && forall j :: 0 <= j < i ==> first.index <= errors[j].index
    {
      if errors[i].index < first.index {
        first := errors[i];
      }
    }
  }
}
