/** The assessment of a request, and its independence of the order of analysis. */
module Assessments {
  import opened Collections
  import opened Comparison
  import opened Diagnostics
  import opened Evaluation
  import opened Renames
  import opened Sorting
  import opened TextOrder

  datatype Mode = All | Introduced

  datatype AssessmentStatus = WasCancelled | WasIncomplete | Findings | Clean

  datatype Assessment = Assessment(status: AssessmentStatus, diagnostics: seq<Diagnostic>,
                                   filesConsidered: nat, filesCovered: nat, gaps: seq<Gap>)

  /** The parts of the request that shape the comparison. */
  datatype Request = Request(mode: Mode, publicFingerprints: bool, continuity: Continuity)

  function Flatten<T>(lists: seq<seq<T>>): seq<T> {
    if lists == [] then [] else Flatten(lists[..|lists| - 1]) + lists[|lists| - 1]
  }

  function BeforeList(r: Result<AnalyzedInput>): seq<Evaluated> {
    if r.Ok? then BeforeItems(r.value) else []
  }

  function AfterList(r: Result<AnalyzedInput>): seq<Evaluated> {
    if r.Ok? then AfterItems(r.value) else []
  }

  function GapList(r: Result<AnalyzedInput>): seq<Gap> {
    if r.Ok? then GapItems(r.value) else []
  }

  function Apply<S, T>(f: S -> T, s: seq<S>): seq<T> {
    seq(|s|, i requires 0 <= i < |s| => f(s[i]))
  }

  /** All baseline diagnostics, in request order. */
  function BeforeOf(results: seq<Result<AnalyzedInput>>): seq<Evaluated> {
    Flatten(Apply(BeforeList, results))
  }

  /** All candidate diagnostics, in request order. */
  function AfterOf(results: seq<Result<AnalyzedInput>>): seq<Evaluated> {
    Flatten(Apply(AfterList, results))
  }

  function GapsOf(results: seq<Result<AnalyzedInput>>): seq<Gap> {
    Flatten(Apply(GapList, results))
  }

  /** The first 10 000 in report order. */
  function Reported(items: seq<Evaluated>): seq<Evaluated> {
    PrecedesStrictWeak();
    SortSorts(Precedes, items);
    Sort(Precedes, items)[..Min(MAX_DIAGNOSTICS, |items|)]
  }

  function Overflows(items: seq<Evaluated>): bool {
    |items| > MAX_DIAGNOSTICS
  }

  function PlainDiagnostics(items: seq<Evaluated>): seq<Diagnostic> {
    seq(|items|, i requires 0 <= i < |items| => items[i].diagnostic)
  }

  /** `compared_diagnostics` */
  function Compared(request: Request, before: seq<Evaluated>, after: seq<Evaluated>): seq<Evaluated> {
    match request.mode
    case All => after
    case Introduced =>
      if request.publicFingerprints then PublicDifference(after, before)
      else Beyond(after, Budget(before, request.continuity))
  }

  function OverflowReason(before: bool, after: bool): Text {
    if before && after then [1] else if before then [2] else [3]
  }

  function OverflowGap(before: bool, after: bool): Gap {
    Gap(REQUEST_MARKER, Incomplete, None, OverflowReason(before, after))
  }

  function Undecided(request: Request, before: bool, after: bool): bool {
    match request.mode
    case All => after
    case Introduced => before || after
  }

  function StatusOf(cancelled: bool, undecided: bool, diagnostics: seq<Diagnostic>, gaps: seq<Gap>): AssessmentStatus {
    if cancelled then WasCancelled
    else if undecided || exists i :: 0 <= i < |gaps| && gaps[i].status == Incomplete then WasIncomplete
    else if diagnostics != [] then Findings
    else Clean
  }

  /** The assessment as a function of the gathered parts. */
  function Conclude(request: Request, total: Tally, beforeOver: bool, afterOver: bool,
                    before: seq<Evaluated>, after: seq<Evaluated>, sortedGaps: seq<Gap>): Assessment {
    var undecided := Undecided(request, beforeOver, afterOver);
    var diagnostics :=
      if request.mode == Introduced && beforeOver then [] else PlainDiagnostics(Compared(request, before, after));
    var gaps := if undecided then Insert(GapLess, sortedGaps, OverflowGap(beforeOver, afterOver)) else sortedGaps;
    Assessment(StatusOf(total.cancelled, undecided, diagnostics, gaps), diagnostics, total.considered, total.covered, gaps)
  }

  /** The assessment that the request-order results determine. */
  function AssessmentOf(request: Request, results: seq<Result<AnalyzedInput>>): Assessment {
    var before, after := BeforeOf(results), AfterOf(results);
    Conclude(request, Total(Indexed(results)), Overflows(before), Overflows(after),
             Reported(before), Reported(after), Sort(GapLess, GapsOf(results)))
  }

  lemma {:induction false} FlattenFrom<T>(lists: seq<seq<T>>, x: T) returns (i: nat, k: nat)
    requires x in Flatten(lists)
    ensures i < |lists| && k < |lists[i]| && lists[i][k] == x
  {
    var n := |lists| - 1;
    if x in lists[n] {
      i := n;
      k :| 0 <= k < |lists[n]| && lists[n][k] == x;
    } else {
      i, k := FlattenFrom(lists[..n], x);
    }
  }

  function PathOf(input: AnalyzedInput): Text {
    input.path
  }

  /** Materialized diagnostics carry their file's path and are numbered in order. */
  ghost predicate Numbered(path: Text, items: seq<Evaluated>) {
    forall k :: 0 <= k < |items| ==> items[k].diagnostic.path == path && items[k].order == k
  }

  ghost predicate WellFormed(r: Result<AnalyzedInput>) {
    r.Ok? ==> Numbered(PathOf(r.value), BeforeList(r)) && Numbered(PathOf(r.value), AfterList(r))
  }

  /** Every requested path is analyzed once. */
  ghost predicate DistinctResults(results: seq<Result<AnalyzedInput>>) {
    && (forall i :: 0 <= i < |results| ==> WellFormed(results[i]))
    && (forall i, j :: 0 <= i < j < |results| && results[i].Ok? && results[j].Ok? ==>
          PathOf(results[i].value) != PathOf(results[j].value))
  }

  /** Lists with distinct paths, each numbered, hold no two diagnostics of one rank. */
  lemma DiagnosticRanks(lists: seq<seq<Evaluated>>, paths: seq<Text>)
    requires |paths| == |lists|
    requires forall i :: 0 <= i < |lists| ==> Numbered(paths[i], lists[i])
    requires forall i, j :: 0 <= i < j < |lists| && lists[i] != [] && lists[j] != [] ==> paths[i] != paths[j]
    ensures RankInjective(Precedes, multiset(Flatten(lists)))
  {
    PrecedesStrictWeak();
    hide Precedes, Flatten, StrictWeak;
    forall x, y | x in multiset(Flatten(lists)) && y in multiset(Flatten(lists)) && !Precedes(x, y) && !Precedes(y, x)
      ensures x == y
    {
      var i, k := FlattenFrom(lists, x);
      var j, l := FlattenFrom(lists, y);
      assert Numbered(paths[i], lists[i]) && Numbered(paths[j], lists[j]);
      assert paths[i] == x.diagnostic.path == y.diagnostic.path == paths[j];
    }
  }

  lemma GapRanks(lists: seq<seq<Gap>>, paths: seq<Text>)
    requires |paths| == |lists|
    requires forall i :: 0 <= i < |lists| ==> |lists[i]| <= 1 && forall k :: 0 <= k < |lists[i]| ==> lists[i][k].path == paths[i]
    requires forall i, j :: 0 <= i < j < |lists| && lists[i] != [] && lists[j] != [] ==> paths[i] != paths[j]
    ensures RankInjective(GapLess, multiset(Flatten(lists)))
  {
    GapStrictWeak();
    forall x, y | x in multiset(Flatten(lists)) && y in multiset(Flatten(lists)) && !GapLess(x, y) && !GapLess(y, x)
      ensures x == y
    {
      var i, k := FlattenFrom(lists, x);
      var j, l := FlattenFrom(lists, y);
      assert paths[i] == x.path == y.path == paths[j];
    }
  }

  function ResultPath(r: Result<AnalyzedInput>): Text {
    if r.Ok? then PathOf(r.value) else []
  }

  /** Distinct paths make the report order injective on each side. */
  lemma RanksInjective(results: seq<Result<AnalyzedInput>>)
    requires DistinctResults(results)
    ensures RankInjective(Precedes, multiset(BeforeOf(results)))
    ensures RankInjective(Precedes, multiset(AfterOf(results)))
    ensures RankInjective(GapLess, multiset(GapsOf(results)))
  {
    hide RankInjective;
    hide Flatten;
    var paths := Apply(ResultPath, results);
    var before, after := Apply(BeforeList, results), Apply(AfterList, results);
    var gaps: seq<seq<Gap>> := Apply(GapList, results);
    forall i | 0 <= i < |results|
      ensures paths[i] == ResultPath(results[i]) && (before[i] != [] || after[i] != [] || gaps[i] != [] ==> results[i].Ok?)
      ensures Numbered(paths[i], before[i]) && Numbered(paths[i], after[i])
      ensures |gaps[i]| <= 1 && forall k :: 0 <= k < |gaps[i]| ==> gaps[i][k].path == paths[i]
    {
      assert WellFormed(results[i]);
    }
    DiagnosticRanks(before, paths);
    DiagnosticRanks(after, paths);
    GapRanks(gaps, paths);
  }

  /** The order-free totals list the same diagnostics and gaps. */
  lemma {:induction false} TotalLists(results: seq<Result<AnalyzedInput>>)
    ensures Lists(Total(Indexed(results)), results)
  {
    if results == [] {
      assert Indexed(results) == [];
    } else {
      TotalLists(results[..|results| - 1]);
      TotalListsStep(results);
    }
  }

  ghost predicate Lists(total: Tally, results: seq<Result<AnalyzedInput>>) {
    && total.before == multiset(BeforeOf(results))
    && total.after == multiset(AfterOf(results))
    && total.gaps == multiset(GapsOf(results))
  }

  lemma TotalListsStep(results: seq<Result<AnalyzedInput>>)
    requires results != [] && Lists(Total(Indexed(results[..|results| - 1])), results[..|results| - 1])
    ensures Lists(Total(Indexed(results)), results)
  {
    hide Flatten;
    hide Apply;
    hide Contribution;
    hide Total;
    var n := |results| - 1;
    var front, last := results[..n], results[n];
    assert Indexed(results) == Indexed(front) + [Delivery(n, last)];
    TotalSnoc(Indexed(front), Delivery(n, last));
    ContributionLists(n, last);
    AppliedFront(BeforeList, results);
    AppliedFront(AfterList, results);
    AppliedFront(GapList, results);
  }

  lemma ContributionLists(i: nat, r: Result<AnalyzedInput>)
    ensures var c := Contribution(Delivery(i, r));
            c.before == multiset(BeforeList(r)) && c.after == multiset(AfterList(r)) && c.gaps == multiset(GapList(r))
  {
  }

  lemma AppliedFront<S, T>(f: S -> seq<T>, s: seq<S>)
    requires s != []
    ensures multiset(Flatten(Apply(f, s))) == multiset(Flatten(Apply(f, s[..|s| - 1]))) + multiset(f(s[|s| - 1]))
  {
    assert Apply(f, s)[..|s| - 1] == Apply(f, s[..|s| - 1]);
  }

  /** `finalize_assessment`: what the batch reports is what the request-order results determine. */
  method FinalizeAssessment(request: Request, batch: AnalysisBatch, ghost results: seq<Result<AnalyzedInput>>)
    returns (a: Assessment)
    requires batch.Valid() && batch.total == Total(Indexed(results)) && DistinctResults(results)
    ensures a == AssessmentOf(request, results)
  {
    hide RankInjective;
    hide Flatten;
    hide Sort;
    hide Insert;
    hide Total;
    hide Beyond;
    hide Seen;
    hide Renamed;
    hide PublicDifference;
    hide StatusOf;
    hide WellFormed;
    hide BoundedDiagnostics.Holds;
    TotalLists(results);
    RanksInjective(results);
    var beforeOver, afterOver := batch.beforeDiagnostics.overflowed, batch.afterDiagnostics.overflowed;
    OverflowAgrees(batch.beforeDiagnostics, BeforeOf(results));
    OverflowAgrees(batch.afterDiagnostics, AfterOf(results));
    var before := batch.beforeDiagnostics.IntoSorted(BeforeOf(results));
    var after := batch.afterDiagnostics.IntoSorted(AfterOf(results));
    var undecided := Undecided(request, beforeOver, afterOver);
    var compared: seq<Evaluated> := [];
    if !(request.mode == Introduced && beforeOver) {
      if request.mode == Introduced && !request.publicFingerprints {
        compared := SemanticDifference(after, before, request.continuity);
      } else {
        compared := Compared(request, before, after);
      }
    }
    var gaps := batch.coverageGaps;
    SortedGapsAgree(gaps, GapsOf(results));
    if undecided {
      SortSnoc(GapLess, gaps, OverflowGap(beforeOver, afterOver));
      gaps := gaps + [OverflowGap(beforeOver, afterOver)];
    }
    gaps := Sort(GapLess, gaps);
    var diagnostics := PlainDiagnostics(compared);
    assert PlainDiagnostics([]) == [];
    assert before == Reported(BeforeOf(results)) && after == Reported(AfterOf(results));
    assert beforeOver == Overflows(BeforeOf(results)) && afterOver == Overflows(AfterOf(results));
    assert !(request.mode == Introduced && beforeOver) ==> compared == Compared(request, before, after);
    assert undecided ==> gaps == Insert(GapLess, Sort(GapLess, GapsOf(results)), OverflowGap(beforeOver, afterOver));
    a := Assessment(StatusOf(batch.cancelled, undecided, diagnostics, gaps), diagnostics,
                    batch.filesConsidered, batch.filesCovered, gaps);
  }

  lemma SortSnoc<T>(less: (T, T) -> bool, s: seq<T>, x: T)
    ensures Sort(less, s + [x]) == Insert(less, Sort(less, s), x)
  {
    assert (s + [x])[..|s|] == s;
  }

  lemma OverflowAgrees(store: BoundedDiagnostics, all: seq<Evaluated>)
    requires store.Valid() && store.pushed == multiset(all)
    ensures store.overflowed == Overflows(all)
  {
    assert |multiset(all)| == |all|;
  }

  lemma SortedGapsAgree(a: seq<Gap>, b: seq<Gap>)
    requires multiset(a) == multiset(b) && RankInjective(GapLess, multiset(b))
    ensures Sort(GapLess, a) == Sort(GapLess, b)
  {
    GapStrictWeak();
    SortSorts(GapLess, a);
    SortSorts(GapLess, b);
    SortedUnique(GapLess, Sort(GapLess, a), Sort(GapLess, b));
  }

  /** One evaluation: for every order in which the workers deliver, the outcome is the error of the
      lowest failing input, or the assessment determined by the results in request order. */
  method Assess(request: Request, results: seq<Result<AnalyzedInput>>, schedule: seq<Delivery>)
    returns (outcome: Result<Assessment>)
    requires IsSchedule(schedule, results) && DistinctResults(results)
    ensures outcome == match FirstError(results)
                       case Some(e) => Err(e)
                       case None => Ok(AssessmentOf(request, results))
  {
    var error, batch := RunAnalysis(results, schedule);
    if error.Some? {
      return Err(error.value);
    }
    var a := FinalizeAssessment(request, batch, results);
    outcome := Ok(a);
  }
}
