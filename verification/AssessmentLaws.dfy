/** What an assessment says, told from the results of the inputs: status, counts, gaps and
    diagnostics. */
module AssessmentLaws {
  import opened Collections
  import opened Assessments
  import opened Comparison
  import opened Diagnostics
  import opened Evaluation
  import opened Sorting
  import opened TextOrder

  type Results = seq<Result<AnalyzedInput>>

  ghost predicate Succeeded(results: Results) {
    forall i :: 0 <= i < |results| ==> results[i].Ok?
  }

  // Counts.

  ghost function Covered(results: Results): set<nat> {
    set i: nat | i < |results| && results[i].Ok? && results[i].value.Ready?
  }

  ghost predicate SomeCancelled(results: Results) {
    exists i :: 0 <= i < |results| && results[i].Ok? && results[i].value.CancelledInput?
  }

  /** Every input is considered, the analyzed ones are covered, and one cancelled input cancels. */
  lemma {:induction false} CountsTold(results: Results)
    requires Succeeded(results)
    ensures var total := Total(Indexed(results));
            && total.considered == |results| && total.covered == |Covered(results)|
            && (total.cancelled <==> SomeCancelled(results))
  {
    if results == [] {
      assert Indexed(results) == [] && Covered(results) == {};
    } else {
      hide Covered, SomeCancelled, Total;
      var n := |results| - 1;
      CountsTold(results[..n]);
      TotalNext(results);
      CoveredNext(results);
      CancelledNext(results);
    }
  }

  lemma {:induction false} TotalNext(results: Results)
    requires results != [] && results[|results| - 1].Ok?
    ensures var n := |results| - 1;
            Total(Indexed(results)) == Plus(Total(Indexed(results[..n])), TallyOf(results[n].value))
  {
    hide Total, Plus, TallyOf;
    var n := |results| - 1;
    assert Indexed(results) == Indexed(results[..n]) + [Delivery(n, results[n])];
    TotalSnoc(Indexed(results[..n]), Delivery(n, results[n]));
  }

  lemma {:induction false} CoveredNext(results: Results)
    requires results != [] && results[|results| - 1].Ok?
    ensures var n := |results| - 1;
            |Covered(results)| == |Covered(results[..n])| + if results[n].value.Ready? then 1 else 0
  {
    var n := |results| - 1;
    var more := if results[n].value.Ready? then {n} else {};
    assert Covered(results) == Covered(results[..n]) + more;
  }

  lemma {:induction false} CancelledNext(results: Results)
    requires results != [] && results[|results| - 1].Ok?
    ensures var n := |results| - 1;
            SomeCancelled(results) <==> SomeCancelled(results[..n]) || results[n].value.CancelledInput?
  {
    var n := |results| - 1;
    if SomeCancelled(results[..n]) {
      var i :| 0 <= i < n && results[..n][i].Ok? && results[..n][i].value.CancelledInput?;
      assert results[i] == results[..n][i];
    }
    if SomeCancelled(results) {
      var i :| 0 <= i < |results| && results[i].Ok? && results[i].value.CancelledInput?;
      assert i < n ==> results[..n][i] == results[i];
    }
  }

  // Gaps.

  /** A compared side has more diagnostics than are kept. */
  ghost predicate ComparedOverflows(request: Request, results: Results) {
    |AfterOf(results)| > 10_000 || (request.mode == Introduced && |BeforeOf(results)| > 10_000)
  }

  /** The gap that an input leaves: an unsupported one with its reason, or a cancelled one. */
  ghost predicate LeavesGap(input: AnalyzedInput, gap: Gap) {
    || (input == UnsupportedInput(gap.path, gap.language, gap.reason) && gap.status == Unsupported)
    || (input == CancelledInput(gap.path, gap.language) && gap.status == Incomplete && gap.reason == CANCELLED_REASON)
  }

  ghost predicate SomeGap(results: Results, gap: Gap) {
    exists i :: 0 <= i < |results| && results[i].Ok? && LeavesGap(results[i].value, gap)
  }

  ghost predicate RequestGap(request: Request, results: Results, gap: Gap) {
    ComparedOverflows(request, results) && gap.path == REQUEST_MARKER && gap.status == Incomplete && gap.language == None
    && gap.reason == (if |BeforeOf(results)| > 10_000 && |AfterOf(results)| > 10_000 then [1]
                      else if |BeforeOf(results)| > 10_000 then [2] else [3])
  }

  lemma {:induction false} FlattenHas<T>(lists: seq<seq<T>>, i: nat, x: T)
    requires i < |lists| && x in lists[i]
    ensures x in Flatten(lists)
  {
    if i < |lists| - 1 {
      FlattenHas(lists[..|lists| - 1], i, x);
    }
  }

  /** The gaps are those that the inputs leave, and one for the request if a compared side overflows;
      they are listed by path. */
  lemma {:induction false} GapsTold(request: Request, results: Results, gap: Gap)
    requires Succeeded(results)
    ensures var gaps := AssessmentOf(request, results).gaps;
            && (gap in gaps <==> SomeGap(results, gap) || RequestGap(request, results, gap))
            && (forall i, j :: 0 <= i < j < |gaps| ==> !TextLess(gaps[j].path, gaps[i].path))
  {
    hide Flatten, Apply, Reported, Compared, StatusOf;
    GapStrictWeak();
    var over := OverflowGap(Overflows(BeforeOf(results)), Overflows(AfterOf(results)));
    var found := GapsOf(results);
    var sorted := Sort(GapLess, found);
    SortSorts(GapLess, found);
    InsertSorted(GapLess, sorted, over);
    InsertKeepsElements(GapLess, sorted, over);
    SameMembers(sorted, found);
    InsertMembers(sorted, over, gap);
    FoundGaps(results, gap);
    SortedByPath(AssessmentOf(request, results).gaps);
  }

  lemma {:induction false} SameMembers<T>(a: seq<T>, b: seq<T>)
    requires multiset(a) == multiset(b)
    ensures forall x :: x in a <==> x in b
  {
    assert forall x :: x in a <==> x in multiset(a);
    assert forall x :: x in b <==> x in multiset(b);
  }

  lemma {:induction false} InsertMembers(s: seq<Gap>, x: Gap, gap: Gap)
    ensures gap in Insert(GapLess, s, x) <==> gap in s || gap == x
  {
    InsertKeepsElements(GapLess, s, x);
    assert gap in Insert(GapLess, s, x) <==> gap in multiset(Insert(GapLess, s, x));
    assert gap in s <==> gap in multiset(s);
  }

  lemma {:induction false} SortedByPath(gaps: seq<Gap>)
    requires SortedBy(GapLess, gaps)
    ensures forall i, j :: 0 <= i < j < |gaps| ==> !TextLess(gaps[j].path, gaps[i].path)
  {
    hide TextLess;
    forall i, j | 0 <= i < j < |gaps|
      ensures !TextLess(gaps[j].path, gaps[i].path)
    {
      assert !GapLess(gaps[j], gaps[i]);
    }
  }

  lemma {:induction false} FoundGaps(results: Results, gap: Gap)
    requires Succeeded(results)
    ensures gap in GapsOf(results) <==> SomeGap(results, gap)
  {
    hide Flatten;
    var lists := Apply(GapList, results);
    assert |lists| == |results| && forall i :: 0 <= i < |results| ==> lists[i] == GapList(results[i]);
    hide Apply;
    if gap in Flatten(lists) {
      var i, k := FlattenFrom(lists, gap);
      assert LeavesGap(results[i].value, gap);
    }
    if SomeGap(results, gap) {
      var i :| 0 <= i < |results| && results[i].Ok? && LeavesGap(results[i].value, gap);
      assert lists[i] == [gap];
      FlattenHas(lists, i, gap);
    }
  }

  // Status.

  /** Cancelled when some input was; otherwise incomplete when a compared side overflows; otherwise
      findings or clean, as there are diagnostics or not. */
  lemma {:induction false} StatusTold(request: Request, results: Results)
    requires Succeeded(results)
    ensures var a := AssessmentOf(request, results);
            && a.filesConsidered == |results| && a.filesCovered == |Covered(results)|
            && (a.status == WasCancelled <==> SomeCancelled(results))
            && (a.status == WasIncomplete <==> !SomeCancelled(results) && ComparedOverflows(request, results))
            && (a.status == Findings
                <==> !SomeCancelled(results) && !ComparedOverflows(request, results) && a.diagnostics != [])
            && (a.status == Clean
                <==> !SomeCancelled(results) && !ComparedOverflows(request, results) && a.diagnostics == [])
  {
    CountsTold(results);
    var a := AssessmentOf(request, results);
    forall i | 0 <= i < |a.gaps| && a.gaps[i].status == Incomplete
      ensures SomeCancelled(results) || ComparedOverflows(request, results)
    {
      assert a.gaps[i] in a.gaps;
      GapsTold(request, results, a.gaps[i]);
      if SomeGap(results, a.gaps[i]) {
        IncompleteCancels(results, a.gaps[i]);
      }
    }
    hide GapsOf, BeforeOf, AfterOf, Reported, Compared, Sort, Insert, Total;
  }

  lemma {:induction false} IncompleteCancels(results: Results, gap: Gap)
    requires SomeGap(results, gap) && gap.status == Incomplete
    ensures SomeCancelled(results)
  {
  }

  // Diagnostics.

  ghost predicate FoundAfter(results: Results, e: Evaluated) {
    exists i :: 0 <= i < |results| && HasAfter(results[i], e)
  }

  ghost predicate HasAfter(r: Result<AnalyzedInput>, e: Evaluated) {
    r.Ok? && r.value.Ready? && r.value.after.Some? && e in r.value.after.value
  }

  ghost predicate FoundBefore(results: Results, e: Evaluated) {
    exists i :: 0 <= i < |results| && HasBefore(results[i], e)
  }

  ghost predicate HasBefore(r: Result<AnalyzedInput>, e: Evaluated) {
    r.Ok? && r.value.Ready? && r.value.before.Some? && e in r.value.before.value
  }

  /** The candidates and the baseline are what the results found in the two versions. */
  lemma {:induction false} SidesTold(results: Results, e: Evaluated)
    ensures e in AfterOf(results) <==> FoundAfter(results, e)
    ensures e in BeforeOf(results) <==> FoundBefore(results, e)
  {
    hide Flatten;
    var after, before := Apply(AfterList, results), Apply(BeforeList, results);
    assert |after| == |results| && forall i :: 0 <= i < |results| ==> after[i] == AfterList(results[i]);
    assert |before| == |results| && forall i :: 0 <= i < |results| ==> before[i] == BeforeList(results[i]);
    hide Apply;
    if e in Flatten(after) {
      var i, k := FlattenFrom(after, e);
      assert HasAfter(results[i], e);
    }
    if FoundAfter(results, e) {
      var i :| 0 <= i < |results| && HasAfter(results[i], e);
      FlattenHas(after, i, e);
    }
    if e in Flatten(before) {
      var i, k := FlattenFrom(before, e);
      assert HasBefore(results[i], e);
    }
    if FoundBefore(results, e) {
      var i :| 0 <= i < |results| && HasBefore(results[i], e);
      FlattenHas(before, i, e);
    }
  }

  /** The report order: by path, then rule, then fingerprint, then position in the file. */
  ghost predicate NotAfter(a: Evaluated, b: Evaluated) {
    var p, q := a.diagnostic, b.diagnostic;
    && !TextLess(q.path, p.path)
    && (p.path == q.path ==> !TextLess(q.ruleId, p.ruleId))
    && (p.path == q.path && p.ruleId == q.ruleId ==> !TextLess(q.fingerprint, p.fingerprint))
    && (p.path == q.path && p.ruleId == q.ruleId && p.fingerprint == q.fingerprint ==> a.order <= b.order)
  }

  ghost predicate InReportOrder(items: seq<Evaluated>) {
    forall i, j :: 0 <= i < j < |items| ==> NotAfter(items[i], items[j])
  }

  lemma {:induction false} ReportOrder(a: Evaluated, b: Evaluated)
    ensures NotAfter(a, b) <==> !Precedes(b, a)
  {
    var p, q := a.diagnostic, b.diagnostic;
    TextOrdered(p.path, q.path, p.path);
    TextOrdered(p.ruleId, q.ruleId, p.ruleId);
    TextOrdered(p.fingerprint, q.fingerprint, p.fingerprint);
    TextOrdered(q.path, p.path, p.path);
    TextOrdered(q.ruleId, p.ruleId, p.ruleId);
    TextOrdered(q.fingerprint, p.fingerprint, p.fingerprint);
    TextIsOrder();
  }

  /** `kept` lists, in report order, the 10 000 first of `all`, or all of it if there are no more. */
  ghost predicate FirstOf(kept: seq<Evaluated>, all: seq<Evaluated>) {
    && InReportOrder(kept) && multiset(kept) <= multiset(all)
    && |kept| == (if |all| <= 10_000 then |all| else 10_000)
    && (forall x, y :: x in kept && y in multiset(all) - multiset(kept) ==> NotAfter(x, y))
  }

  lemma {:induction false} ReportedFirst(all: seq<Evaluated>)
    ensures FirstOf(Reported(all), all)
  {
    PrecedesStrictWeak();
    SortSorts(Precedes, all);
    var sorted := Sort(Precedes, all);
    FrontIsSmallest(Precedes, sorted, MAX_DIAGNOSTICS);
    var kept := Reported(all);
    assert |multiset(kept)| == |kept|;
    forall i, j | 0 <= i < j < |kept|
      ensures NotAfter(kept[i], kept[j])
    {
      ReportOrder(kept[i], kept[j]);
    }
    forall x, y | x in kept && y in multiset(all) - multiset(kept)
      ensures NotAfter(x, y)
    {
      assert x in multiset(kept);
      ReportOrder(x, y);
    }
  }

  /** What is reported: in mode All the first of the candidates; for the introduced ones, none if the
      baseline overflows, and otherwise those candidates whose fingerprint is new or, per path and
      comparison key, exceed the baseline and the renamed baseline. All of it in report order. */
  lemma {:induction false} DiagnosticsTold(request: Request, results: Results) returns (before: seq<Evaluated>, after: seq<Evaluated>, shown: seq<Evaluated>)
    ensures FirstOf(before, BeforeOf(results)) && FirstOf(after, AfterOf(results)) && InReportOrder(shown)
    ensures AssessmentOf(request, results).diagnostics == PlainDiagnostics(shown)
    ensures request.mode == All ==> shown == after
    ensures request.mode == Introduced && |BeforeOf(results)| > 10_000 ==> shown == []
    ensures request.mode == Introduced && |BeforeOf(results)| <= 10_000 && request.publicFingerprints ==>
              forall e :: e in shown <==> e in after && forall b :: b in before ==> b.diagnostic.fingerprint != e.diagnostic.fingerprint
    ensures request.mode == Introduced && |BeforeOf(results)| <= 10_000 && !request.publicFingerprints ==>
              forall k :: Seen(shown, k)
                       == Monus(Monus(Seen(after, k), Seen(before, k)), Renamed(before, request.continuity, k))
  {
    before, after := Reported(BeforeOf(results)), Reported(AfterOf(results));
    ReportedFirst(BeforeOf(results));
    ReportedFirst(AfterOf(results));
    hide BeforeOf, AfterOf, Reported, FirstOf;
    shown := if request.mode == Introduced && |BeforeOf(results)| > 10_000 then [] else Compared(request, before, after);
    if request.mode == Introduced && |BeforeOf(results)| <= 10_000 {
      if request.publicFingerprints {
        NewFingerprints(before, after);
      } else {
        NewOccurrences(before, after, request.continuity);
      }
    } else {
      assert PlainDiagnostics([]) == [];
    }
  }

  lemma {:induction false} NewFingerprints(before: seq<Evaluated>, after: seq<Evaluated>)
    requires InReportOrder(after)
    ensures InReportOrder(PublicDifference(after, before))
    ensures forall e :: e in PublicDifference(after, before)
                    <==> e in after && forall b :: b in before ==> b.diagnostic.fingerprint != e.diagnostic.fingerprint
  {
    var at := PublicPositions(after, before);
    SelectedInOrder(after, at, PublicDifference(after, before));
    forall fingerprint
      ensures Published(before, fingerprint) <==> exists b :: b in before && b.diagnostic.fingerprint == fingerprint
    {
      if Published(before, fingerprint) {
        var i :| 0 <= i < |before| && before[i].diagnostic.fingerprint == fingerprint;
        assert before[i] in before;
      }
    }
  }

  lemma {:induction false} NewOccurrences(before: seq<Evaluated>, after: seq<Evaluated>, continuity: Continuity)
    requires InReportOrder(after)
    ensures var shown := Beyond(after, Budget(before, continuity));
            && InReportOrder(shown)
            && forall k :: Seen(shown, k) == Monus(Monus(Seen(after, k), Seen(before, k)), Renamed(before, continuity, k))
  {
    var at := SurvivorPositions(after, Budget(before, continuity));
    SelectedInOrder(after, at, Beyond(after, Budget(before, continuity)));
    forall k {
      SemanticLaw(after, before, continuity, k);
    }
  }

  lemma {:induction false} SelectedInOrder(items: seq<Evaluated>, at: seq<nat>, selected: seq<Evaluated>)
    requires InReportOrder(items) && Increasing(at) && |at| == |selected|
    requires forall j :: 0 <= j < |at| ==> at[j] < |items| && selected[j] == items[at[j]]
    ensures InReportOrder(selected)
  {
    hide NotAfter;
  }
}
