/** Bounding the rendered report: evidence is dropped until the output fits the byte limit, what was
    dropped is flagged, and enforcement never accepts a report that lost anything. */
module ReportOutput {
  import opened Bytes

  const MAX_ASSESSMENT_BYTES: nat := 8 * 1024 * 1024

  type Text = seq<byte>

  datatype Result<+T> = Ok(value: T) | Err

  datatype Status = Clean | Findings | Partial | Incomplete

  /** Evidence that is only counted here. */
  type Item = nat

  datatype Cycle = Cycle(members: seq<Item>, membersTruncated: bool, trail: seq<Item>, trailTruncated: bool, rest: Item)
  datatype Duplicate = Duplicate(occurrences: seq<Item>, occurrencesTruncated: bool, rest: Item)
  datatype Impact = Impact(sample: seq<Item>, sampleTruncated: bool, rest: Item)

  datatype Observations = Observations(deltas: seq<Item>, impact: seq<Impact>, high: seq<Item>, interfaces: seq<Item>,
                                       important: seq<Item>, impactTruncated: bool, truncated: bool)

  datatype Timing = Timing(renderUs: nat, totalUs: nat)

  /** The reference and file counts of one view of the graph. */
  datatype Resolution = Resolution(unsupportedFiles: nat, parserFailedFiles: nat, external: nat, nodeBuiltins: nat,
                                   ambiguous: nat, unresolved: nat, unsupportedDynamic: nat)

  datatype InterfaceGaps = InterfaceGaps(partialFiles: nat, unsupportedFiles: nat, parserFailedFiles: nat,
                                         partialSurfaces: nat, unsupportedSurfaces: nat)

  datatype DedupGaps = DedupGaps(unsupportedFiles: nat, parserFailedFiles: nat)

  datatype View = View(resolution: Resolution, interfaces: InterfaceGaps, dedup: DedupGaps)

  /** What no step changes: the coverage of both views, and fields that are only carried along. */
  datatype Rest = Rest(before: View, after: View, unavailableSurfaces: nat, content: Item)

  const EMPTY_VIEW: View := View(Resolution(0, 0, 0, 0, 0, 0, 0), InterfaceGaps(0, 0, 0, 0, 0), DedupGaps(0, 0))

  datatype Report = Report(status: Status, issues: seq<string>, cycles: seq<Cycle>, duplicates: seq<Duplicate>,
                           interfaceFindings: seq<Item>, documentation: seq<Item>, findingsTruncated: bool,
                           observations: Observations, changedFiles: nat, rest: Rest, timing: Timing)

  /** The two renderings. */
  datatype Renderer = Renderer(json: Report -> Text, human: Report -> Text)

  function Rendered(renderer: Renderer, r: Report, asJson: bool): Text {
    if asJson then renderer.json(r) + [10] else renderer.human(r)
  }

  /** Both the text and the serialized report are within the limit. */
  predicate Fits(renderer: Renderer, r: Report, asJson: bool) {
    |Rendered(renderer, r, asJson)| <= MAX_ASSESSMENT_BYTES && |renderer.json(r)| + 1 <= MAX_ASSESSMENT_BYTES
  }

  /** The limit is 8 MiB, for the text that is returned and for the serialized report with its newline. */
  lemma FitsTold(renderer: Renderer, r: Report, asJson: bool)
    ensures Fits(renderer, r, asJson) <==> |renderer.json(r)| < 8_388_608 && (asJson || |renderer.human(r)| <= 8_388_608)
  {
  }

  // What a shrinking step may do.

  function ClearCycle(c: Cycle): Cycle {
    c.(members := [], membersTruncated := c.membersTruncated || c.members != [],
       trail := [], trailTruncated := c.trailTruncated || c.trail != [])
  }

  function ClearImpact(i: Impact): Impact {
    i.(sample := [], sampleTruncated := i.sampleTruncated || i.sample != [])
  }

  function ClearDuplicate(d: Duplicate): Duplicate {
    if |d.occurrences| <= 1 then d else d.(occurrences := d.occurrences[..1], occurrencesTruncated := true)
  }

  /** A list cut from its end, and a flag that is raised exactly if that took something away. */
  ghost predicate CutList(o: seq<Item>, flagged: bool, r: seq<Item>, nowFlagged: bool) {
    r <= o && (nowFlagged <==> flagged || r != o)
  }

  ghost predicate CutCycle(o: Cycle, r: Cycle) {
    && CutList(o.members, o.membersTruncated, r.members, r.membersTruncated)
    && CutList(o.trail, o.trailTruncated, r.trail, r.trailTruncated) && r.rest == o.rest
  }

  /** At least one occurrence stays. */
  ghost predicate CutDuplicate(o: Duplicate, r: Duplicate) {
    && CutList(o.occurrences, o.occurrencesTruncated, r.occurrences, r.occurrencesTruncated) && r.rest == o.rest
    && (o.occurrences != [] ==> r.occurrences != [])
  }

  ghost predicate CutImpact(o: Impact, r: Impact) {
    CutList(o.sample, o.sampleTruncated, r.sample, r.sampleTruncated) && r.rest == o.rest
  }

  /** A prefix of the list, whose elements may be cut. */
  ghost predicate CutCycles(o: seq<Cycle>, r: seq<Cycle>) {
    |r| <= |o| && forall i :: 0 <= i < |r| ==> CutCycle(o[i], r[i])
  }

  ghost predicate CutDuplicates(o: seq<Duplicate>, r: seq<Duplicate>) {
    |r| <= |o| && forall i :: 0 <= i < |r| ==> CutDuplicate(o[i], r[i])
  }

  ghost predicate CutImpacts(o: seq<Impact>, r: seq<Impact>) {
    |r| <= |o| && forall i :: 0 <= i < |r| ==> CutImpact(o[i], r[i])
  }

  /** Clearing is cutting. */
  lemma ClearIsCut(c: Cycle, d: Duplicate, i: Impact)
    ensures CutCycle(c, ClearCycle(c)) && ClearCycle(c).members == [] && ClearCycle(c).trail == []
    ensures CutDuplicate(d, ClearDuplicate(d)) && |ClearDuplicate(d).occurrences| <= 1
    ensures CutImpact(i, ClearImpact(i)) && ClearImpact(i).sample == []
  {
  }

  ghost predicate CutObservations(o: Observations, r: Observations) {
    && r.deltas <= o.deltas && CutImpacts(o.impact, r.impact) && r.high <= o.high
    && r.interfaces <= o.interfaces && r.important <= o.important && r.impactTruncated == o.impactTruncated
  }

  /** A finding was dropped. */
  predicate Shorter(o: Report, r: Report) {
    || |r.cycles| < |o.cycles| || |r.duplicates| < |o.duplicates|
    || |r.interfaceFindings| < |o.interfaceFindings| || |r.documentation| < |o.documentation|
  }

  /** `r` is `o` with evidence cut from the ends and every cut flagged: nothing is invented or
      reordered. */
  ghost predicate Cut(o: Report, r: Report) {
    && CutCycles(o.cycles, r.cycles) && CutDuplicates(o.duplicates, r.duplicates)
    && r.interfaceFindings <= o.interfaceFindings && r.documentation <= o.documentation
    && r.findingsTruncated == (o.findingsTruncated || Shorter(o, r))
    && CutObservations(o.observations, r.observations)
    && o.issues <= r.issues && r.changedFiles == o.changedFiles && r.rest == o.rest
  }

  /** What is left when evidence was dropped: a cut that says so. */
  ghost predicate CutFlagged(o: Report, r: Report) {
    Cut(o, r) && r.observations.truncated && "output_truncated" in r.issues
  }

  function IncompleteReport(code: string, timing: Timing): Report {
    Report(Incomplete, [code], [], [], [], [], false, Observations([], [], [], [], [], false, false),
           0, Rest(EMPTY_VIEW, EMPTY_VIEW, 0, 0), timing)
  }

  /** The compact report that replaces one that cannot be cut to size. */
  function TooLarge(timing: Timing): Report {
    IncompleteReport("output_too_large", timing)
  }

  /** It is incomplete, gives that one reason, and has nothing else and no other flag. */
  lemma TooLargeTold(timing: Timing)
    ensures var r := TooLarge(timing);
            && r.status == Incomplete && r.issues == ["output_too_large"] && r.timing == timing
            && r.cycles == [] && r.duplicates == [] && r.interfaceFindings == [] && r.documentation == []
            && !r.findingsTruncated && r.changedFiles == 0
            && r.observations == Observations([], [], [], [], [], false, false)
            && r.rest == Rest(EMPTY_VIEW, EMPTY_VIEW, 0, 0)
  {
  }

  lemma CutSelf(r: Report, s: Report)
    requires s == r.(timing := s.timing)
    ensures Cut(r, s)
  {
  }

  lemma CutObservationsTwice(o: Observations, m: Observations, r: Observations)
    requires CutObservations(o, m) && CutObservations(m, r)
    ensures CutObservations(o, r)
  {
    forall i | 0 <= i < |r.impact| ensures CutImpact(o.impact[i], r.impact[i]) {
      assert CutImpact(o.impact[i], m.impact[i]) && CutImpact(m.impact[i], r.impact[i]);
    }
  }

  lemma CutTwice(o: Report, m: Report, r: Report)
    requires Cut(o, m) && Cut(m, r)
    ensures Cut(o, r)
  {
    hide CutObservations;
    CutObservationsTwice(o.observations, m.observations, r.observations);
    forall i | 0 <= i < |r.cycles| ensures CutCycle(o.cycles[i], r.cycles[i]) {
      assert CutCycle(o.cycles[i], m.cycles[i]) && CutCycle(m.cycles[i], r.cycles[i]);
    }
    forall i | 0 <= i < |r.duplicates| ensures CutDuplicate(o.duplicates[i], r.duplicates[i]) {
      assert CutDuplicate(o.duplicates[i], m.duplicates[i]) && CutDuplicate(m.duplicates[i], r.duplicates[i]);
    }
  }

  /** One round of marking and shrinking keeps the explanation. */
  lemma StillExplained(o: Report, before: Report, marked: Report, after: Report, later: bool)
    requires if later then CutFlagged(o, before) else before == o.(timing := before.timing)
    requires marked == before.(status := Incomplete, issues := marked.issues,
                               observations := before.observations.(truncated := true))
    requires before.issues <= marked.issues && "output_truncated" in marked.issues
    requires Cut(marked, after) && after.status == Incomplete && after.issues == marked.issues
    requires after.observations.truncated
    ensures CutFlagged(o, after)
  {
    hide Cut;
    if !later {
      CutSelf(o, before);
    }
    CutMarked(o, before, marked);
    CutTwice(o, marked, after);
  }

  lemma CutMarked(o: Report, before: Report, marked: Report)
    requires Cut(o, before) && before.issues <= marked.issues
    requires marked == before.(status := Incomplete, issues := marked.issues,
                               observations := before.observations.(truncated := true))
    ensures Cut(o, marked)
  {
  }

  // A measure that every successful step decreases.

  function CycleSize(s: seq<Cycle>): nat {
    if s == [] then 0 else CycleSize(s[..|s| - 1]) + 1 + |s[|s| - 1].members| + |s[|s| - 1].trail|
  }

  function DuplicateSize(s: seq<Duplicate>): nat {
    if s == [] then 0 else DuplicateSize(s[..|s| - 1]) + 1 + |s[|s| - 1].occurrences|
  }

  function ImpactSize(s: seq<Impact>): nat {
    if s == [] then 0 else ImpactSize(s[..|s| - 1]) + 1 + |s[|s| - 1].sample|
  }

  function ObservationSize(o: Observations): nat {
    |o.deltas| + ImpactSize(o.impact) + |o.high| + |o.interfaces| + |o.important|
  }

  function Size(r: Report): nat {
    CycleSize(r.cycles) + DuplicateSize(r.duplicates) + |r.interfaceFindings| + |r.documentation|
    + ObservationSize(r.observations)
  }

  lemma Retimed(o: Report, r: Report, t: Timing)
    ensures CutFlagged(o, r) ==> CutFlagged(o, r.(timing := t))
    ensures Size(r.(timing := t)) == Size(r)
  {
  }

  lemma SizeOnly(before: Report, marked: Report)
    requires marked == before.(status := Incomplete, issues := marked.issues,
                               observations := before.observations.(truncated := true))
    ensures Size(marked) == Size(before)
  {
  }

  lemma NothingToShrink(t: Timing)
    ensures Size(TooLarge(t)) == 0
  {
  }

  lemma CycleSizeNext(s: seq<Cycle>, i: nat)
    requires i < |s|
    ensures CycleSize(s[..i + 1]) == CycleSize(s[..i]) + 1 + |s[i].members| + |s[i].trail|
  {
    assert s[..i + 1][..i] == s[..i];
  }

  lemma {:induction false} CycleSizeCut(s: seq<Cycle>, n: nat)
    requires n <= |s|
    ensures CycleSize(s[..n]) <= CycleSize(s) && (n < |s| ==> CycleSize(s[..n]) < CycleSize(s))
  {
    if n < |s| {
      CycleSizeCut(s[..|s| - 1], n);
      assert s[..|s| - 1][..n] == s[..n];
    } else {
      assert s[..n] == s;
    }
  }

  lemma DuplicateSizeNext(s: seq<Duplicate>, i: nat)
    requires i < |s|
    ensures DuplicateSize(s[..i + 1]) == DuplicateSize(s[..i]) + 1 + |s[i].occurrences|
  {
    assert s[..i + 1][..i] == s[..i];
  }

  lemma {:induction false} DuplicateSizeCut(s: seq<Duplicate>, n: nat)
    requires n <= |s|
    ensures DuplicateSize(s[..n]) <= DuplicateSize(s) && (n < |s| ==> DuplicateSize(s[..n]) < DuplicateSize(s))
  {
    if n < |s| {
      DuplicateSizeCut(s[..|s| - 1], n);
      assert s[..|s| - 1][..n] == s[..n];
    } else {
      assert s[..n] == s;
    }
  }

  lemma ImpactSizeNext(s: seq<Impact>, i: nat)
    requires i < |s|
    ensures ImpactSize(s[..i + 1]) == ImpactSize(s[..i]) + 1 + |s[i].sample|
  {
    assert s[..i + 1][..i] == s[..i];
  }

  lemma {:induction false} ImpactSizeCut(s: seq<Impact>, n: nat)
    requires n <= |s|
    ensures ImpactSize(s[..n]) <= ImpactSize(s) && (n < |s| ==> ImpactSize(s[..n]) < ImpactSize(s))
  {
    if n < |s| {
      ImpactSizeCut(s[..|s| - 1], n);
      assert s[..|s| - 1][..n] == s[..n];
    } else {
      assert s[..n] == s;
    }
  }

  function Lengths(o: Observations): seq<nat> {
    [|o.deltas|, |o.impact|, |o.high|, |o.interfaces|, |o.important|]
  }

  /** One observation list cut to half its length. */
  function Halved(o: Observations, index: nat): Observations
    requires index < 5
  {
    var keep := Lengths(o)[index] / 2;
    if index == 0 then o.(deltas := o.deltas[..keep])
    else if index == 1 then o.(impact := o.impact[..keep])
    else if index == 2 then o.(high := o.high[..keep])
    else if index == 3 then o.(interfaces := o.interfaces[..keep])
    else o.(important := o.important[..keep])
  }

  lemma CutObservationsSelf(o: Observations)
    ensures CutObservations(o, o)
  {
  }

  lemma HalvedIsCut(o: Observations, index: nat)
    requires index < 5 && Lengths(o)[index] > 0
    ensures CutObservations(o, Halved(o, index).(truncated := true))
    ensures ObservationSize(Halved(o, index).(truncated := true)) < ObservationSize(o)
  {
    if index == 1 {
      ImpactSizeCut(o.impact, |o.impact| / 2);
    }
  }

  // The shrinking steps. Each says whether it dropped anything; what it drops shortens the report.

  /** The last list of the greatest length. */
  function LastLongest(lengths: seq<nat>): (k: nat)
    requires lengths != []
    ensures k < |lengths|
    ensures forall i :: 0 <= i < |lengths| ==> lengths[i] <= lengths[k]
    ensures forall i :: k < i < |lengths| ==> lengths[i] < lengths[k]
  {
    if |lengths| == 1 then 0
    else
      var k := LastLongest(lengths[..|lengths| - 1]);
      if lengths[|lengths| - 1] >= lengths[k] then |lengths| - 1 else k
  }

  lemma CutPlainFindings(r: Report, interfaceFindings: seq<Item>, documentation: seq<Item>)
    requires interfaceFindings <= r.interfaceFindings && documentation <= r.documentation
    requires |interfaceFindings| + |documentation| < |r.interfaceFindings| + |r.documentation|
    ensures var s := r.(interfaceFindings := interfaceFindings, documentation := documentation, findingsTruncated := true);
            Cut(r, s) && Size(s) < Size(r)
  {
    hide CutObservations, ObservationSize;
    CutObservationsSelf(r.observations);
  }

  lemma CutCycleList(r: Report, n: nat)
    requires n < |r.cycles|
    ensures var s := r.(cycles := r.cycles[..n], findingsTruncated := true); Cut(r, s) && Size(s) < Size(r)
  {
    hide CutObservations, ObservationSize;
    CutObservationsSelf(r.observations);
    CycleSizeCut(r.cycles, n);
  }

  lemma CutDuplicateList(r: Report, n: nat)
    requires n < |r.duplicates|
    ensures var s := r.(duplicates := r.duplicates[..n], findingsTruncated := true); Cut(r, s) && Size(s) < Size(r)
  {
    hide CutObservations, ObservationSize;
    CutObservationsSelf(r.observations);
    DuplicateSizeCut(r.duplicates, n);
  }

  // One round of dropping evidence.

  /** Members, witnesses and samples are listed, or more than one occurrence of a duplicate. */
  ghost predicate HasDetails(r: Report) {
    || (exists i :: 0 <= i < |r.cycles| && (r.cycles[i].members != [] || r.cycles[i].trail != []))
    || (exists i :: 0 <= i < |r.observations.impact| && r.observations.impact[i].sample != [])
    || (exists i :: 0 <= i < |r.duplicates| && |r.duplicates[i].occurrences| > 1)
  }

  ghost predicate HasObservations(o: Observations) {
    o.deltas != [] || o.impact != [] || o.high != [] || o.interfaces != [] || o.important != []
  }

  /** The details are gone, and nothing else. */
  ghost predicate DetailsCleared(o: Report, r: Report) {
    && r == o.(cycles := r.cycles, duplicates := r.duplicates,
               observations := o.observations.(impact := r.observations.impact))
    && |r.cycles| == |o.cycles| && |r.duplicates| == |o.duplicates|
    && |r.observations.impact| == |o.observations.impact| && !HasDetails(r) && Cut(o, r)
  }

  /** The last of the longest lists is halved. */
  ghost predicate ObservationsHalved(o: Observations, r: Observations) {
    var a, b, c, d, e := |o.deltas|, |o.impact|, |o.high|, |o.interfaces|, |o.important|;
    && CutObservations(o, r) && r.truncated && r.impact <= o.impact
    && |r.deltas| == (if a > b && a > c && a > d && a > e then a / 2 else a)
    && |r.impact| == (if b >= a && b > c && b > d && b > e then b / 2 else b)
    && |r.high| == (if c >= a && c >= b && c > d && c > e then c / 2 else c)
    && |r.interfaces| == (if d >= a && d >= b && d >= c && d > e then d / 2 else d)
    && |r.important| == (if e >= a && e >= b && e >= c && e >= d then e / 2 else e)
  }

  /** Half of the first list of findings that has more than one. */
  ghost predicate FindingsHalved(o: Report, r: Report) {
    var a, b, c, d := |o.interfaceFindings|, |o.documentation|, |o.cycles|, |o.duplicates|;
    && r == o.(interfaceFindings := o.interfaceFindings[..if a > 1 then a / 2 else a],
               documentation := o.documentation[..if a <= 1 && b > 1 then b / 2 else b],
               cycles := o.cycles[..if a <= 1 && b <= 1 && c > 1 then c / 2 else c],
               duplicates := o.duplicates[..if a <= 1 && b <= 1 && c <= 1 && d > 1 then d / 2 else d],
               findingsTruncated := true)
    && (a > 1 || b > 1 || c > 1 || d > 1)
  }

  /** Details go first, then half of an observation list, then half of a list of findings. */
  ghost predicate Drops(o: Report, r: Report) {
    if HasDetails(o) then DetailsCleared(o, r)
    else if HasObservations(o.observations)
    then r == o.(observations := r.observations) && ObservationsHalved(o.observations, r.observations)
    else FindingsHalved(o, r)
  }

  /** Nothing is left that a step could drop. */
  ghost predicate Exhausted(r: Report) {
    && !HasDetails(r) && !HasObservations(r.observations)
    && |r.cycles| <= 1 && |r.duplicates| <= 1 && |r.interfaceFindings| <= 1 && |r.documentation| <= 1
  }

  /** The report says that its output was truncated. */
  ghost function Marked(r: Report): Report {
    r.(status := Incomplete, observations := r.observations.(truncated := true),
       issues := if "output_truncated" in r.issues then r.issues else r.issues + ["output_truncated"])
  }

  /** What is rendered after a report that did not fit: that report, marked, with some evidence dropped, or the
      compact report if there is none to drop. */
  ghost predicate NextRound(a: Report, b: Report) {
    if Exhausted(Marked(a)) then b == TooLarge(b.timing) else Drops(Marked(a), b.(timing := a.timing))
  }

  lemma HalvedIsLongest(o: Observations)
    requires HasObservations(o)
    ensures ObservationsHalved(o, Halved(o, LastLongest(Lengths(o))).(truncated := true))
  {
    var l := Lengths(o);
    var index := LastLongest(l);
    assert l[0] <= l[index] && l[1] <= l[index] && l[2] <= l[index] && l[3] <= l[index] && l[4] <= l[index];
    hide LastLongest, CutObservations;
    HalvedIsCut(o, index);
  }

  lemma ClearedAll(o: Report, r: Report)
    requires r == o.(cycles := r.cycles, duplicates := r.duplicates,
                     observations := o.observations.(impact := r.observations.impact))
    requires |r.cycles| == |o.cycles| && forall i :: 0 <= i < |r.cycles| ==> r.cycles[i] == ClearCycle(o.cycles[i])
    requires |r.duplicates| == |o.duplicates|
    requires forall i :: 0 <= i < |r.duplicates| ==> r.duplicates[i] == ClearDuplicate(o.duplicates[i])
    requires |r.observations.impact| == |o.observations.impact|
    requires forall i :: 0 <= i < |r.observations.impact| ==>
               r.observations.impact[i] == ClearImpact(o.observations.impact[i])
    ensures DetailsCleared(o, r) && (!HasDetails(o) ==> r == o)
  {
    hide ClearCycle, ClearDuplicate, ClearImpact, CutCycle, CutDuplicate, CutImpact;
    var (anyCycle, anyDuplicate, anyImpact) := (Cycle([], false, [], false, 0), Duplicate([], false, 0), Impact([], false, 0));
    forall i | 0 <= i < |r.cycles|
      ensures CutCycle(o.cycles[i], r.cycles[i]) && r.cycles[i].members == [] && r.cycles[i].trail == []
    {
      ClearIsCut(o.cycles[i], anyDuplicate, anyImpact);
    }
    forall i | 0 <= i < |r.duplicates|
      ensures CutDuplicate(o.duplicates[i], r.duplicates[i]) && |r.duplicates[i].occurrences| <= 1
    {
      ClearIsCut(anyCycle, o.duplicates[i], anyImpact);
    }
    forall i | 0 <= i < |r.observations.impact|
      ensures CutImpact(o.observations.impact[i], r.observations.impact[i]) && r.observations.impact[i].sample == []
    {
      ClearIsCut(anyCycle, anyDuplicate, o.observations.impact[i]);
    }
    if !HasDetails(o) {
      NothingToClear(o, r);
    }
  }

  lemma NothingToClear(o: Report, r: Report)
    requires r == o.(cycles := r.cycles, duplicates := r.duplicates,
                     observations := o.observations.(impact := r.observations.impact))
    requires |r.cycles| == |o.cycles| && forall i :: 0 <= i < |r.cycles| ==> r.cycles[i] == ClearCycle(o.cycles[i])
    requires |r.duplicates| == |o.duplicates|
    requires forall i :: 0 <= i < |r.duplicates| ==> r.duplicates[i] == ClearDuplicate(o.duplicates[i])
    requires |r.observations.impact| == |o.observations.impact|
    requires forall i :: 0 <= i < |r.observations.impact| ==>
               r.observations.impact[i] == ClearImpact(o.observations.impact[i])
    requires !HasDetails(o)
    ensures r == o
  {
    assert r.cycles == o.cycles && r.duplicates == o.duplicates && r.observations.impact == o.observations.impact;
  }

  lemma CutByHalving(o: Report, r: Report)
    requires r == o.(observations := r.observations) && ObservationsHalved(o.observations, r.observations)
    ensures Cut(o, r) && r.observations.truncated
  {
  }

  lemma MarkedTold(r: Report)
    ensures var m := Marked(r);
            && m == r.(status := Incomplete, issues := m.issues, observations := r.observations.(truncated := true))
            && r.issues <= m.issues && "output_truncated" in m.issues
  {
  }

  lemma TooLargeExhausted(t: Timing)
    ensures Exhausted(Marked(TooLarge(t)))
  {
  }

  lemma RoundDrops(before: Report, marked: Report, after: Report, t: Timing)
    requires marked == Marked(before) && !Exhausted(marked) && Drops(marked, after)
    ensures NextRound(before, after.(timing := t))
  {
    DroppingKeepsTime(marked, after);
  }

  lemma DroppingKeepsTime(o: Report, r: Report)
    requires Drops(o, r)
    ensures r.timing == o.timing
  {
  }

  lemma RoundReplaces(before: Report, t: Timing)
    requires Exhausted(Marked(before))
    ensures NextRound(before, TooLarge(t))
  {
  }

  class Output {
    var report: Report

    constructor (r: Report)
      ensures report == r
    {
      report := r;
    }

    method ShrinkCycleDetails() returns (shrunk: bool)
      modifies this
      ensures report == old(report).(cycles := report.cycles)
      ensures |report.cycles| == |old(report.cycles)|
      ensures forall i :: 0 <= i < |report.cycles| ==> report.cycles[i] == ClearCycle(old(report.cycles)[i])
      ensures if shrunk then CycleSize(report.cycles) < CycleSize(old(report.cycles)) else report == old(report)
    {
      hide CycleSize;
      ghost var all := report.cycles;
      var items := report.cycles;
      shrunk := false;
      assert all[..0] == [];
      for i := 0 to |items|
        invariant report == old(report) && |items| == |all|
        invariant forall j :: 0 <= j < i ==> items[j] == ClearCycle(all[j])
        invariant items[i..] == all[i..]
        invariant if shrunk then CycleSize(items[..i]) < CycleSize(all[..i]) else items == all
      {
        var item := items[i];
        assert item == all[i..][0];
        shrunk := shrunk || item.members != [] || item.trail != [];
        ghost var before := items;
        items := items[i := ClearCycle(item)];
        assert items[..i] == before[..i];
        CycleSizeNext(items, i);
        CycleSizeNext(all, i);
        assert items[i + 1..] == before[i..][1..];
      }
      assert items[..|all|] == items && all[..|all|] == all;
      report := report.(cycles := items);
    }

    method ShrinkImpactSamples() returns (shrunk: bool)
      modifies this
      ensures report == old(report).(observations := old(report).observations.(impact := report.observations.impact))
      ensures |report.observations.impact| == |old(report.observations.impact)|
      ensures forall i :: 0 <= i < |report.observations.impact| ==>
                report.observations.impact[i] == ClearImpact(old(report.observations.impact)[i])
      ensures if shrunk then ImpactSize(report.observations.impact) < ImpactSize(old(report.observations.impact))
              else report == old(report)
    {
      hide ImpactSize;
      ghost var all := report.observations.impact;
      var items := report.observations.impact;
      shrunk := false;
      assert all[..0] == [];
      for i := 0 to |items|
        invariant report == old(report) && |items| == |all|
        invariant forall j :: 0 <= j < i ==> items[j] == ClearImpact(all[j])
        invariant items[i..] == all[i..]
        invariant if shrunk then ImpactSize(items[..i]) < ImpactSize(all[..i]) else items == all
      {
        var item := items[i];
        assert item == all[i..][0];
        shrunk := shrunk || item.sample != [];
        ghost var before := items;
        items := items[i := ClearImpact(item)];
        assert items[..i] == before[..i];
        ImpactSizeNext(items, i);
        ImpactSizeNext(all, i);
        assert items[i + 1..] == before[i..][1..];
      }
      assert items[..|all|] == items && all[..|all|] == all;
      report := report.(observations := report.observations.(impact := items));
    }

    method ShrinkDuplicateOccurrences() returns (shrunk: bool)
      modifies this
      ensures report == old(report).(duplicates := report.duplicates)
      ensures |report.duplicates| == |old(report.duplicates)|
      ensures forall i :: 0 <= i < |report.duplicates| ==> report.duplicates[i] == ClearDuplicate(old(report.duplicates)[i])
      ensures if shrunk then DuplicateSize(report.duplicates) < DuplicateSize(old(report.duplicates))
              else report == old(report)
    {
      hide DuplicateSize;
      ghost var all := report.duplicates;
      var items := report.duplicates;
      shrunk := false;
      assert all[..0] == [];
      for i := 0 to |items|
        invariant report == old(report) && |items| == |all|
        invariant forall j :: 0 <= j < i ==> items[j] == ClearDuplicate(all[j])
        invariant items[i..] == all[i..]
        invariant if shrunk then DuplicateSize(items[..i]) < DuplicateSize(all[..i]) else items == all
      {
        var item := items[i];
        assert item == all[i..][0];
        shrunk := shrunk || |item.occurrences| > 1;
        ghost var before := items;
        items := items[i := ClearDuplicate(item)];
        assert items[..i] == before[..i];
        DuplicateSizeNext(items, i);
        DuplicateSizeNext(all, i);
        assert items[i + 1..] == before[i..][1..];
      }
      assert items[..|all|] == items && all[..|all|] == all;
      report := report.(duplicates := items);
    }

    /** Halves the last of the longest observation lists. */
    method ShrinkObservations() returns (shrunk: bool)
      modifies this
      ensures report == old(report).(observations := report.observations)
      ensures shrunk <==> HasObservations(old(report.observations))
      ensures if shrunk
              then ObservationSize(report.observations) < ObservationSize(old(report.observations))
                   && ObservationsHalved(old(report.observations), report.observations)
              else report == old(report)
    {
      hide LastLongest, Halved, ObservationsHalved, ObservationSize;
      var lengths := Lengths(report.observations);
      var index := LastLongest(lengths);
      assert lengths[0] <= lengths[index] && lengths[1] <= lengths[index] && lengths[2] <= lengths[index]
             && lengths[3] <= lengths[index] && lengths[4] <= lengths[index];
      if lengths[index] == 0 {
        return false;
      }
      HalvedIsCut(report.observations, index);
      HalvedIsLongest(report.observations);
      report := report.(observations := Halved(report.observations, index).(truncated := true));
      shrunk := true;
    }

    /** Halves the first list of findings that has more than one. */
    method ShrinkFindings() returns (shrunk: bool)
      modifies this
      ensures if shrunk then Size(report) < Size(old(report)) && Cut(old(report), report) && FindingsHalved(old(report), report)
              else report == old(report)
      ensures !shrunk <==> |old(report).cycles| <= 1 && |old(report).duplicates| <= 1
                           && |old(report).interfaceFindings| <= 1 && |old(report).documentation| <= 1
    {
      hide Cut, Size;
      var r := report;
      if |r.interfaceFindings| > 1 {
        var kept := r.interfaceFindings[..|r.interfaceFindings| / 2];
        CutPlainFindings(r, kept, r.documentation);
        report := r.(interfaceFindings := kept, findingsTruncated := true);
      } else if |r.documentation| > 1 {
        var kept := r.documentation[..|r.documentation| / 2];
        CutPlainFindings(r, r.interfaceFindings, kept);
        report := r.(documentation := kept, findingsTruncated := true);
      } else if |r.cycles| > 1 {
        CutCycleList(r, |r.cycles| / 2);
        report := r.(cycles := r.cycles[..|r.cycles| / 2], findingsTruncated := true);
      } else if |r.duplicates| > 1 {
        CutDuplicateList(r, |r.duplicates| / 2);
        report := r.(duplicates := r.duplicates[..|r.duplicates| / 2], findingsTruncated := true);
      } else {
        return false;
      }
      shrunk := true;
    }

    /** Clears the details of cycles, impacts and duplicates. */
    method ShrinkDetails() returns (shrunk: bool)
      modifies this
      ensures shrunk <==> HasDetails(old(report))
      ensures DetailsCleared(old(report), report)
      ensures if shrunk then Size(report) < Size(old(report)) else report == old(report)
    {
      hide CycleSize, ImpactSize, DuplicateSize;
      var cycles := ShrinkCycleDetails();
      var impacts := ShrinkImpactSamples();
      var duplicates := ShrinkDuplicateOccurrences();
      shrunk := cycles || impacts || duplicates;
      ClearedAll(old(report), report);
    }

    /** One round: details first, then observations, then findings. */
    method ShrinkReport() returns (shrunk: bool)
      modifies this
      ensures shrunk <==> !Exhausted(old(report))
      ensures if shrunk then Size(report) < Size(old(report)) && Drops(old(report), report) else report == old(report)
      ensures Cut(old(report), report) && report.status == old(report.status) && report.issues == old(report.issues)
      ensures old(report.observations.truncated) ==> report.observations.truncated
    {
      hide HasDetails, Cut, ObservationSize, HasObservations, ObservationsHalved, CycleSize, DuplicateSize;
      CutSelf(report, report);
      shrunk := ShrinkDetails();
      if shrunk {
        return;
      }
      shrunk := ShrinkObservations();
      if shrunk {
        CutByHalving(old(report), report);
        return;
      }
      shrunk := ShrinkFindings();
    }

    method MarkOutputTruncated()
      modifies this
      ensures report == Marked(old(report))
    {
      report := report.(status := Incomplete, observations := report.observations.(truncated := true));
      if "output_truncated" !in report.issues {
        report := report.(issues := report.issues + ["output_truncated"]);
      }
    }

    /** The clock gives the timings of each round, and `rounds` lists the reports rendered. Nothing is
        dropped that need not be: each is what one round makes of the one before, which did not fit, and
        the last is returned. Unless the first fits the result is incomplete, and is either a flagged cut
        of the original or the compact replacement; it fails only if the replacement does not fit. */
    method PrepareOutput(renderer: Renderer, asJson: bool, clock: nat -> Timing)
      returns (result: Result<Text>, ghost rounds: seq<Report>)
      modifies this
      ensures rounds != [] && rounds[0] == old(report).(timing := clock(0))
      ensures forall k :: 0 <= k < |rounds| ==> rounds[k].timing == clock(k)
      ensures forall k :: 0 <= k < |rounds| - 1 ==>
                !Fits(renderer, rounds[k], asJson) && NextRound(rounds[k], rounds[k + 1])
      ensures result.Ok? ==> report == rounds[|rounds| - 1] && Fits(renderer, report, asJson)
                             && result.value == if asJson then renderer.json(report) + [10] else renderer.human(report)
      ensures result.Err? ==> rounds[|rounds| - 1] == TooLarge(clock(|rounds| - 1))
                              && !Fits(renderer, rounds[|rounds| - 1], asJson)
      ensures Fits(renderer, rounds[0], asJson) ==> result.Ok? && |rounds| == 1
      ensures |rounds| > 1 ==> report.status == Incomplete
      ensures |rounds| > 1 && result.Ok? ==> CutFlagged(old(report), report) || report == TooLarge(clock(|rounds| - 1))
    {
      hide CutFlagged, Size, Cut, NextRound, Exhausted, Marked, Drops;
      var replaced := false;
      var round := 0;
      rounds := [];
      while true
        invariant |rounds| == round && (forall k :: 0 <= k < round ==> rounds[k].timing == clock(k) && !Fits(renderer, rounds[k], asJson))
        invariant forall k :: 0 <= k < round - 1 ==> NextRound(rounds[k], rounds[k + 1])
        invariant if round == 0 then report == old(report) && !replaced
                  else rounds[0] == old(report).(timing := clock(0)) && report.status == Incomplete
                       && NextRound(rounds[round - 1], report.(timing := clock(round)))
        invariant round > 0 && !replaced ==> CutFlagged(old(report), report)
        invariant replaced ==> report == TooLarge(report.timing)
        decreases !replaced, Size(report)
      {
        Retimed(old(report), report, clock(round));
        report := report.(timing := clock(round));
        rounds := rounds + [report];
        var rendered := Rendered(renderer, report, asJson);
        var bytes := if asJson then |rendered| else |renderer.json(report)| + 1;
        if |rendered| <= MAX_ASSESSMENT_BYTES && bytes <= MAX_ASSESSMENT_BYTES {
          return Ok(rendered), rounds;
        }
        ghost var before := report;
        round := round + 1;
        MarkOutputTruncated();
        ghost var marked := report;
        MarkedTold(before);
        SizeOnly(before, marked);
        var shrunk := ShrinkReport();
        if replaced {
          NothingToShrink(before.timing);
          TooLargeExhausted(before.timing);
        } else {
          StillExplained(old(report), before, marked, report, round > 1);
        }
        if shrunk {
          RoundDrops(before, marked, report, clock(round));
          continue;
        }
        if replaced {
          return Err, rounds;
        }
        report := TooLarge(clock(round));
        RoundReplaces(before, clock(round));
        replaced := true;
      }
    }

    /** Rendering, then enforcement: it passes exactly when the report fits as it is and passes, and then its
        rendering was returned whole. */
    method RenderAndEnforce(renderer: Renderer, asJson: bool, clock: nat -> Timing, options: Options)
      returns (result: Result<Text>, accepted: bool)
      modifies this
      ensures accepted <==> Fits(renderer, old(report).(timing := clock(0)), asJson) && Passes(old(report), options)
      ensures accepted ==>
                && report == old(report).(timing := clock(0))
                && result == Ok(if asJson then renderer.json(report) + [10] else renderer.human(report))
    {
      ghost var rounds;
      result, rounds := PrepareOutput(renderer, asJson, clock);
      accepted := result.Ok? && Accepts(report, options);
      AcceptsIff(report, options);
    }
  }

  datatype Options = Options(advisory: bool, allowPartial: bool, allowNodeBuiltins: bool)

  predicate ResolutionGap(c: Resolution) {
    || c.unsupportedFiles > 0 || c.parserFailedFiles > 0 || c.external > c.nodeBuiltins
    || c.ambiguous > 0 || c.unresolved > 0 || c.unsupportedDynamic > 0
  }

  predicate InterfaceGap(c: InterfaceGaps) {
    || c.partialFiles > 0 || c.unsupportedFiles > 0 || c.parserFailedFiles > 0
    || c.partialSurfaces > 0 || c.unsupportedSurfaces > 0
  }

  predicate DedupGap(c: DedupGaps) {
    c.unsupportedFiles > 0 || c.parserFailedFiles > 0
  }

  predicate ViewGap(v: View) {
    ResolutionGap(v.resolution) || InterfaceGap(v.interfaces) || DedupGap(v.dedup)
  }

  /** Node built-ins are the only gap in either view. */
  predicate PartialOnlyForBuiltins(r: Report) {
    && r.rest.before.resolution.nodeBuiltins + r.rest.after.resolution.nodeBuiltins > 0
    && !ViewGap(r.rest.before) && !ViewGap(r.rest.after)
    && !r.observations.impactTruncated && r.rest.unavailableSurfaces == 0
  }

  predicate PartialBlocks(r: Report, options: Options) {
    && r.status == Partial && r.changedFiles > 0 && !options.allowPartial
    && !(options.allowNodeBuiltins && PartialOnlyForBuiltins(r))
  }

  predicate HasFindings(r: Report) {
    r.cycles != [] || r.duplicates != [] || r.interfaceFindings != [] || r.documentation != []
  }

  /** `enforce_report` succeeds. */
  predicate Accepts(r: Report, options: Options) {
    r.status != Incomplete && !PartialBlocks(r, options) && (options.advisory || !HasFindings(r))
  }

  // When enforcement passes, on the fields of the report.

  /** No gap but references to node built-ins. */
  ghost predicate NoOtherGap(v: View) {
    && v.resolution.unsupportedFiles == 0 && v.resolution.parserFailedFiles == 0 && v.resolution.ambiguous == 0
    && v.resolution.unresolved == 0 && v.resolution.unsupportedDynamic == 0
    && v.resolution.external <= v.resolution.nodeBuiltins
    && v.interfaces == InterfaceGaps(0, 0, 0, 0, 0) && v.dedup == DedupGaps(0, 0)
  }

  /** The report is complete; it has no findings unless they are advisory; and if it is partial, no file changed,
      or partial reports are allowed, or the only gap is node built-ins and those are allowed. */
  ghost predicate Passes(r: Report, options: Options) {
    && r.status != Incomplete
    && (options.advisory || |r.cycles| + |r.duplicates| + |r.interfaceFindings| + |r.documentation| == 0)
    && (|| r.status != Partial || r.changedFiles == 0 || options.allowPartial
        || (&& options.allowNodeBuiltins && (r.rest.before.resolution.nodeBuiltins > 0 || r.rest.after.resolution.nodeBuiltins > 0)
            && NoOtherGap(r.rest.before) && NoOtherGap(r.rest.after)
            && !r.observations.impactTruncated && r.rest.unavailableSurfaces == 0))
  }

  lemma AcceptsIff(r: Report, options: Options)
    ensures Accepts(r, options) <==> Passes(r, options)
  {
    assert HasFindings(r) <==> |r.cycles| + |r.duplicates| + |r.interfaceFindings| + |r.documentation| > 0;
  }
}
