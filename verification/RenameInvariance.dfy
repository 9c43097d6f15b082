/** Renaming files introduces no diagnostics. */
module RenameInvariance {
  import opened Collections
  import opened Assessments
  import opened Comparison
  import opened Diagnostics
  import opened Evaluation
  import opened Renames
  import opened Sorting
  import opened TextOrder

  datatype RawDiagnostic = RawDiagnostic(ruleId: Text, entityKey: Text, causeKey: Text, details: Text)

  /** Analysis that was not cancelled: the facts' diagnostics, an unsupported file, or a failure. */
  datatype Analysis = Facts(diagnostics: seq<RawDiagnostic>) | NotSupported(reason: Text) | Failure(error: Text)

  /** For fixed parser options the facts depend on content and mode only. */
  type Analyzer = (Text, Text) -> Analysis

  /** The digests that name diagnostics, and the language families they mention. */
  datatype Naming = Naming(family: nat -> Text,
                           comparisonKey: (Text, Text, Text, Text) -> Text,
                           fingerprint: (Text, Text) -> Text)

  const MISSING_PATH: Text := [1]

  function EvaluatedAt(naming: Naming, path: Text, language: nat, raw: RawDiagnostic, order: nat): Evaluated {
    var key := naming.comparisonKey(raw.ruleId, naming.family(language), raw.entityKey, raw.causeKey);
    Evaluated(Diagnostic(raw.ruleId, path, naming.fingerprint(path, key), raw.details), key, order)
  }

  /** `materialize` */
  function Materialized(naming: Naming, path: Text, language: nat, facts: seq<RawDiagnostic>): seq<Evaluated> {
    seq(|facts|, i requires 0 <= i < |facts| => EvaluatedAt(naming, path, language, facts[i], i))
  }

  function LanguageOf(input: Input): Option<nat> {
    if input.after.Some? then Some(input.after.value.language)
    else if input.before.Some? then Some(input.before.value.language)
    else None
  }

  /** `analyze_one` on a version of the file that may not exist. */
  function AnalyzeOne(analyze: Analyzer, file: Option<SourceFile>): Analysis {
    if file.None? then Facts([]) else analyze(file.value.content, file.value.mode)
  }

  function ItemsOf(naming: Naming, analyze: Analyzer, path: Text, file: Option<SourceFile>): Option<seq<Evaluated>> {
    match file
    case None => None
    case Some(f) =>
      match analyze(f.content, f.mode)
      case Facts(ds) => Some(Materialized(naming, path, f.language, ds))
      case _ => None
  }

  /** `analyze_input`: the baseline version first, then the candidate version. */
  function AnalyzeInput(naming: Naming, analyze: Analyzer, input: Input): Result<AnalyzedInput> {
    if input.before.None? && input.after.None? then Ok(UnsupportedInput(input.path, None, MISSING_PATH))
    else
      match AnalyzeOne(analyze, input.before)
      case Failure(e) => Err(e)
      case NotSupported(reason) => Ok(UnsupportedInput(input.path, LanguageOf(input), reason))
      case Facts(_) =>
        match AnalyzeOne(analyze, input.after)
        case Failure(e) => Err(e)
        case NotSupported(reason) => Ok(UnsupportedInput(input.path, LanguageOf(input), reason))
        case Facts(_) =>
          Ok(Ready(input.path, ItemsOf(naming, analyze, input.path, input.before),
                   ItemsOf(naming, analyze, input.path, input.after)))
  }

  function AnalyzeAll(naming: Naming, analyze: Analyzer, inputs: seq<Input>): seq<Result<AnalyzedInput>> {
    seq(|inputs|, i requires 0 <= i < |inputs| => AnalyzeInput(naming, analyze, inputs[i]))
  }

  lemma AnalyzedDistinct(naming: Naming, analyze: Analyzer, inputs: seq<Input>)
    requires DistinctPaths(inputs)
    ensures DistinctResults(AnalyzeAll(naming, analyze, inputs))
  {
    hide AnalyzeInput, WellFormed;
    forall i | 0 <= i < |inputs|
      ensures WellFormed(AnalyzeInput(naming, analyze, inputs[i]))
      ensures AnalyzeInput(naming, analyze, inputs[i]).Ok? ==>
                PathOf(AnalyzeInput(naming, analyze, inputs[i]).value) == inputs[i].path
    {
      AnalyzedWell(naming, analyze, inputs[i]);
    }
  }

  lemma AnalyzedWell(naming: Naming, analyze: Analyzer, input: Input)
    ensures WellFormed(AnalyzeInput(naming, analyze, input))
    ensures AnalyzeInput(naming, analyze, input).Ok? ==> PathOf(AnalyzeInput(naming, analyze, input).value) == input.path
  {
  }

  lemma {:induction false} SeenInsert(s: seq<Evaluated>, x: Evaluated, k: Class)
    ensures Seen(Insert(Precedes, s, x), k) == Seen(s, k) + (if ClassOf(x) == k then 1 else 0)
  {
    if s == [] || !Precedes(x, s[|s| - 1]) {
      SeenSnoc(s, x, k);
    } else {
      var front := s[..|s| - 1];
      SeenInsert(front, x, k);
      SeenSnoc(Insert(Precedes, front, x), s[|s| - 1], k);
    }
  }

  lemma {:induction false} SeenSort(s: seq<Evaluated>, k: Class)
    ensures Seen(Sort(Precedes, s), k) == Seen(s, k)
  {
    if s != [] {
      SeenSort(s[..|s| - 1], k);
      SeenInsert(Sort(Precedes, s[..|s| - 1]), s[|s| - 1], k);
    }
  }

  lemma SeenReported(s: seq<Evaluated>, k: Class)
    requires !Overflows(s)
    ensures Seen(Reported(s), k) == Seen(s, k)
  {
    SeenSort(s, k);
    PrecedesStrictWeak();
    SortSorts(Precedes, s);
    assert Sort(Precedes, s)[..|s|] == Sort(Precedes, s);
  }

  lemma {:induction false} SeenConcat(s: seq<Evaluated>, t: seq<Evaluated>, k: Class)
    ensures Seen(s + t, k) == Seen(s, k) + Seen(t, k)
  {
    if t == [] {
      assert s + t == s;
    } else {
      var front := t[..|t| - 1];
      SeenConcat(s, front, k);
      assert s + t == (s + front) + [t[|t| - 1]];
      SeenSnoc(s + front, t[|t| - 1], k);
    }
  }

  lemma {:induction false} SeenElsewhere(path: Text, items: seq<Evaluated>, k: Class)
    requires Numbered(path, items) && path != k.0
    ensures Seen(items, k) == 0
  {
    if items != [] {
      SeenElsewhere(path, items[..|items| - 1], k);
    }
  }

  /** A list that belongs to the path of `k` contributes to its count. */
  lemma {:induction false} SeenFlattenAtLeast(lists: seq<seq<Evaluated>>, i: nat, k: Class)
    requires i < |lists|
    ensures Seen(Flatten(lists), k) >= Seen(lists[i], k)
  {
    var n := |lists| - 1;
    SeenConcat(Flatten(lists[..n]), lists[n], k);
    if i < n {
      SeenFlattenAtLeast(lists[..n], i, k);
    }
  }

  /** With distinct paths one list accounts for the whole count. */
  lemma {:induction false} SeenFlattenAt(lists: seq<seq<Evaluated>>, paths: seq<Text>, k: Class) returns (i: nat)
    requires |paths| == |lists|
    requires forall j :: 0 <= j < |lists| ==> Numbered(paths[j], lists[j])
    requires forall j, l :: 0 <= j < l < |lists| ==> paths[j] != paths[l]
    requires Seen(Flatten(lists), k) > 0
    ensures i < |lists| && paths[i] == k.0 && Seen(Flatten(lists), k) == Seen(lists[i], k)
  {
    var n := |lists| - 1;
    SeenConcat(Flatten(lists[..n]), lists[n], k);
    if Seen(Flatten(lists[..n]), k) == 0 {
      i := n;
      if paths[n] != k.0 {
        SeenElsewhere(paths[n], lists[n], k);
      }
    } else {
      i := SeenFlattenAt(lists[..n], paths[..n], k);
      SeenElsewhere(paths[n], lists[n], k);
    }
  }

  /** Moving a file keeps the number of its diagnostics with a given comparison key. */
  lemma {:induction false} SeenRelocated(naming: Naming, p: Text, q: Text, language: nat, facts: seq<RawDiagnostic>, key: Text)
    ensures Seen(Materialized(naming, p, language, facts), (p, key)) == Seen(Materialized(naming, q, language, facts), (q, key))
  {
    if facts != [] {
      var front := facts[..|facts| - 1];
      SeenRelocated(naming, p, q, language, front, key);
      var n := |front|;
      assert Materialized(naming, p, language, facts)[..n] == Materialized(naming, p, language, front);
      assert Materialized(naming, q, language, facts)[..n] == Materialized(naming, q, language, front);
    }
  }

  /** Every baseline diagnostic of a renamed path counts again at the new path. */
  lemma {:induction false} RenamedAtLeast(s: seq<Evaluated>, m: Continuity, p: Text, key: Text)
    requires p in m
    ensures Renamed(s, m, (m[p], key)) >= Seen(s, (p, key))
  {
    if s != [] {
      RenamedAtLeast(s[..|s| - 1], m, p, key);
    }
  }

  /** The candidate version is the baseline version, or a new path paired with a removed file. */
  ghost predicate UnchangedOrRenamed(input: Input, m: Continuity) {
    input.after.Some? ==> input.before == input.after || (input.before.None? && input.path in m.Values)
  }

  /** Per class, the candidates number at most the baseline plus the renamed baseline. */
  lemma CandidatesCovered(naming: Naming, analyze: Analyzer, inputs: seq<Input>, m: Continuity, k: Class)
    requires DistinctPaths(inputs) && IsContinuity(inputs, m)
    requires forall i :: 0 <= i < |inputs| ==> UnchangedOrRenamed(inputs[i], m)
    ensures var results := AnalyzeAll(naming, analyze, inputs);
            Seen(AfterOf(results), k) == 0
            || Seen(AfterOf(results), k) <= Seen(BeforeOf(results), k)
            || exists p :: p in m && m[p] == k.0 && Seen(AfterOf(results), k) <= Seen(BeforeOf(results), (p, k.1))
  {
    var results := AnalyzeAll(naming, analyze, inputs);
    var before, after := Apply(BeforeList, results), Apply(AfterList, results);
    if Seen(AfterOf(results), k) > 0 {
      var paths := seq(|inputs|, i requires 0 <= i < |inputs| => inputs[i].path);
      forall j | 0 <= j < |inputs|
        ensures Numbered(paths[j], after[j])
      {
        AnalyzedLists(naming, analyze, inputs[j]);
      }
      var i := SeenFlattenAt(after, paths, k);
      AnalyzedLists(naming, analyze, inputs[i]);
      assert UnchangedOrRenamed(inputs[i], m);
      if inputs[i].before == inputs[i].after {
        SeenFlattenAtLeast(before, i, k);
      } else {
        var p :| p in m && m[p] == inputs[i].path;
        var a, b, file := ContinuitySound(inputs, m, p);
        assert b == i;
        SeenFlattenAtLeast(before, a, (p, k.1));
        MovedItems(naming, analyze, inputs[a], inputs[i], file, k.1);
        assert before[a] == BeforeList(results[a]) && after[i] == AfterList(results[i]);
      }
    }
  }

  lemma AnalyzedLists(naming: Naming, analyze: Analyzer, input: Input)
    ensures Numbered(input.path, AfterList(AnalyzeInput(naming, analyze, input)))
    ensures input.after.None? ==> AfterList(AnalyzeInput(naming, analyze, input)) == []
    ensures input.before == input.after ==>
              BeforeList(AnalyzeInput(naming, analyze, input)) == AfterList(AnalyzeInput(naming, analyze, input))
  {
  }

  lemma MovedItems(naming: Naming, analyze: Analyzer, removed: Input, added: Input, file: SourceFile, key: Text)
    requires IsRemoved(removed, file) && IsAdded(added, file)
    ensures Seen(AfterList(AnalyzeInput(naming, analyze, added)), (added.path, key))
         == Seen(BeforeList(AnalyzeInput(naming, analyze, removed)), (removed.path, key))
  {
    match analyze(file.content, file.mode) {
      case Facts(ds) => SeenRelocated(naming, removed.path, added.path, file.language, ds, key);
      case _ =>
    }
  }

  lemma LastIsSeen(s: seq<Evaluated>)
    requires s != []
    ensures Seen(s, ClassOf(s[|s| - 1])) > 0
  {
  }

  /** What is reported is no more, per class, than what was found. */
  lemma SeenReportedAtMost(s: seq<Evaluated>, k: Class)
    ensures Seen(Reported(s), k) <= Seen(s, k)
  {
    PrecedesStrictWeak();
    SortSorts(Precedes, s);
    SeenSort(s, k);
    var sorted := Sort(Precedes, s);
    SeenGrows(sorted, Min(MAX_DIAGNOSTICS, |s|), |sorted|, k);
    assert sorted[..|sorted|] == sorted;
  }

  /** Rename invariance: if every candidate file is unchanged at its path or is a new path paired
      with a removed file of the same content, language and mode, the introduced comparison reports
      nothing. */
  lemma RenamesIntroduceNothing(naming: Naming, analyze: Analyzer, inputs: seq<Input>, m: Continuity)
    requires DistinctPaths(inputs) && IsContinuity(inputs, m)
    requires forall i :: 0 <= i < |inputs| ==> UnchangedOrRenamed(inputs[i], m)
    ensures AssessmentOf(Request(Introduced, false, m), AnalyzeAll(naming, analyze, inputs)).diagnostics == []
  {
    var results := AnalyzeAll(naming, analyze, inputs);
    if !Overflows(BeforeOf(results)) {
      NothingSurvives(naming, analyze, inputs, m);
      assert PlainDiagnostics([]) == [];
    }
  }

  lemma NothingSurvives(naming: Naming, analyze: Analyzer, inputs: seq<Input>, m: Continuity)
    requires DistinctPaths(inputs) && IsContinuity(inputs, m)
    requires forall i :: 0 <= i < |inputs| ==> UnchangedOrRenamed(inputs[i], m)
    requires !Overflows(BeforeOf(AnalyzeAll(naming, analyze, inputs)))
    ensures var results := AnalyzeAll(naming, analyze, inputs);
            Beyond(Reported(AfterOf(results)), Budget(Reported(BeforeOf(results)), m)) == []
  {
    hide IsContinuity, UnchangedOrRenamed, Reported, AfterOf, BeforeOf, AnalyzeAll;
    var results := AnalyzeAll(naming, analyze, inputs);
    var before, after := Reported(BeforeOf(results)), Reported(AfterOf(results));
    var survivors := Beyond(after, Budget(before, m));
    forall k
      ensures Seen(survivors, k) == 0
    {
      SeenBeyond(after, Budget(before, m), k);
      SeenReportedAtMost(AfterOf(results), k);
      SeenReported(BeforeOf(results), k);
      CandidatesCovered(naming, analyze, inputs, m, k);
      if Seen(AfterOf(results), k) > Seen(BeforeOf(results), k) {
        var p :| p in m && m[p] == k.0 && Seen(AfterOf(results), k) <= Seen(BeforeOf(results), (p, k.1));
        SeenReported(BeforeOf(results), (p, k.1));
        RenamedAtLeast(before, m, p, k.1);
      }
    }
    if survivors != [] {
      LastIsSeen(survivors);
    }
  }

  /** One evaluation from its inputs on: rename pairing, analysis delivered in any order, and the
      introduced comparison. If files were only kept or renamed it fails or reports nothing. */
  method EvaluateIntroduced(naming: Naming, analyze: Analyzer, inputs: seq<Input>, schedule: seq<Delivery>)
    returns (outcome: Result<Assessment>, m: Continuity)
    requires DistinctPaths(inputs) && IsSchedule(schedule, AnalyzeAll(naming, analyze, inputs))
    ensures IsContinuity(inputs, m)
    ensures outcome == match FirstError(AnalyzeAll(naming, analyze, inputs))
                       case Some(e) => Err(e)
                       case None => Ok(AssessmentOf(Request(Introduced, false, m), AnalyzeAll(naming, analyze, inputs)))
    ensures (forall i :: 0 <= i < |inputs| ==> UnchangedOrRenamed(inputs[i], m)) ==>
              outcome.Err? || outcome.value.diagnostics == []
  {
    hide AssessmentOf, AnalyzeAll, IsContinuity, UnchangedOrRenamed, DistinctPaths, IsSchedule;
    m := ExactContentPathContinuity(inputs);
    AnalyzedDistinct(naming, analyze, inputs);
    outcome := Assess(Request(Introduced, false, m), AnalyzeAll(naming, analyze, inputs), schedule);
    if forall i :: 0 <= i < |inputs| ==> UnchangedOrRenamed(inputs[i], m) {
      RenamesIntroduceNothing(naming, analyze, inputs, m);
    }
  }

  /** No candidate sits at a path that was renamed away, so every baseline diagnostic cancels at
      most one candidate (`Comparison.CancellerInjective`). */
  lemma CandidatesAvoidRenamed(naming: Naming, analyze: Analyzer, inputs: seq<Input>, m: Continuity, e: Evaluated)
    requires DistinctPaths(inputs) && IsContinuity(inputs, m)
    requires e in AfterOf(AnalyzeAll(naming, analyze, inputs))
    ensures e.diagnostic.path !in m
  {
    var results := AnalyzeAll(naming, analyze, inputs);
    var i, k := FlattenFrom(Apply(AfterList, results), e);
    AnalyzedLists(naming, analyze, inputs[i]);
    if e.diagnostic.path in m {
      var a, b, file := ContinuitySound(inputs, m, e.diagnostic.path);
    }
  }

  /** In an assessment, two cancelled candidates have two baseline diagnostics that cancel them. */
  lemma CancelledOnce(naming: Naming, analyze: Analyzer, inputs: seq<Input>, m: Continuity, i: nat, j: nat)
    requires DistinctPaths(inputs) && IsContinuity(inputs, m)
    requires var results := AnalyzeAll(naming, analyze, inputs);
             var before, after := Reported(BeforeOf(results)), Reported(AfterOf(results));
             && i < j < |after|
             && !Survives(after, Budget(before, m), i) && !Survives(after, Budget(before, m), j)
    ensures var results := AnalyzeAll(naming, analyze, inputs);
            var before, after := Reported(BeforeOf(results)), Reported(AfterOf(results));
            && after[i].diagnostic.path !in m && after[j].diagnostic.path !in m
            && Canceller(after, before, m, i) != Canceller(after, before, m, j)
  {
    hide IsContinuity, DistinctPaths, AnalyzeAll, Survives;
    var results := AnalyzeAll(naming, analyze, inputs);
    var before, after := Reported(BeforeOf(results)), Reported(AfterOf(results));
    forall c | c in after ensures c.diagnostic.path !in m {
      ReportedFrom(AfterOf(results), c);
      CandidatesAvoidRenamed(naming, analyze, inputs, m, c);
    }
    CancellerInjective(after, before, m, i, j);
  }

  lemma ReportedFrom(s: seq<Evaluated>, e: Evaluated)
    requires e in Reported(s)
    ensures e in s
  {
    PrecedesStrictWeak();
    SortSorts(Precedes, s);
    assert e in multiset(Sort(Precedes, s));
  }
}
