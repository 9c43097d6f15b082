/** What an introduced comparison reports, told from the inputs and the analyzer. */
module IntroducedLaw {
  import opened Collections
  import opened AssessmentLaws
  import opened Assessments
  import opened Comparison
  import opened Diagnostics
  import opened Evaluation
  import opened RenameInvariance
  import opened Renames
  import opened TextOrder

  /** Number of raw diagnostics with a comparison key. */
  ghost function Keyed(naming: Naming, language: nat, facts: seq<RawDiagnostic>, key: Text): nat {
    if facts == [] then 0
    else
      var raw := facts[|facts| - 1];
      Keyed(naming, language, facts[..|facts| - 1], key)
      + if naming.comparisonKey(raw.ruleId, naming.family(language), raw.entityKey, raw.causeKey) == key then 1 else 0
  }

  /** A version that does not exist or has facts. */
  ghost predicate Analyzable(analyze: Analyzer, file: Option<SourceFile>) {
    file.Some? ==> analyze(file.value.content, file.value.mode).Facts?
  }

  ghost predicate Fails(analyze: Analyzer, file: Option<SourceFile>, e: Text) {
    file.Some? && analyze(file.value.content, file.value.mode) == Failure(e)
  }

  /** An input fails with the failure of its baseline version, or of its candidate version if the baseline
      version could be analyzed; it is covered exactly when it has a version and both could be. */
  lemma InputTold(naming: Naming, analyze: Analyzer, input: Input)
    ensures var r := AnalyzeInput(naming, analyze, input);
            && (forall e :: r == Err(e)
                  <==> Fails(analyze, input.before, e)
                       || (Analyzable(analyze, input.before) && Fails(analyze, input.after, e)))
            && ((r.Ok? && r.value.Ready?)
                <==> (input.before.Some? || input.after.Some?)
                     && Analyzable(analyze, input.before) && Analyzable(analyze, input.after))
            && (r.Ok? && !r.value.Ready? ==>
                  && r.value.UnsupportedInput? && r.value.path == input.path
                  && (input.after.Some? ==> r.value.language == Some(input.after.value.language))
                  && (input.after.None? && input.before.Some? ==> r.value.language == Some(input.before.value.language)))
  {
  }

  /** Number of diagnostics with a comparison key in one version of an input that is covered. */
  ghost function InVersion(naming: Naming, analyze: Analyzer, input: Input, after: bool, key: Text): nat {
    var file := if after then input.after else input.before;
    if file.None? || !Analyzable(analyze, input.before) || !Analyzable(analyze, input.after) then 0
    else Keyed(naming, file.value.language, analyze(file.value.content, file.value.mode).diagnostics, key)
  }

  ghost predicate At(inputs: seq<Input>, path: Text, i: nat) {
    i < |inputs| && inputs[i].path == path
  }

  /** The same at a path. */
  ghost function AtPath(naming: Naming, analyze: Analyzer, inputs: seq<Input>, after: bool, path: Text, key: Text): nat {
    if exists i: nat :: At(inputs, path, i) then
      var i: nat :| At(inputs, path, i);
      InVersion(naming, analyze, inputs[i], after, key)
    else 0
  }

  /** The same in the baseline version at the path that was renamed to this one, if there is one. */
  ghost function AtOldPath(naming: Naming, analyze: Analyzer, inputs: seq<Input>, m: Continuity, path: Text, key: Text): nat {
    if exists p :: p in m && m[p] == path then
      var p :| p in m && m[p] == path;
      AtPath(naming, analyze, inputs, false, p, key)
    else 0
  }

  /** What the candidate version has more than the baseline version and than the renamed one. */
  ghost function Introduces(naming: Naming, analyze: Analyzer, inputs: seq<Input>, m: Continuity, path: Text, key: Text): nat {
    Monus(Monus(AtPath(naming, analyze, inputs, true, path, key), AtPath(naming, analyze, inputs, false, path, key)),
          AtOldPath(naming, analyze, inputs, m, path, key))
  }

  /** Unless a side overflows, the introduced comparison reports at each path and for each comparison key as
      many diagnostics as the candidate version has more than the baseline version, and more than the
      version that was renamed to the path. */
  lemma {:induction false} IntroducedTold(naming: Naming, analyze: Analyzer, inputs: seq<Input>, m: Continuity)
    returns (shown: seq<Evaluated>)
    requires DistinctPaths(inputs) && IsContinuity(inputs, m)
    requires var results := AnalyzeAll(naming, analyze, inputs);
             |BeforeOf(results)| <= 10_000 && |AfterOf(results)| <= 10_000
    ensures AssessmentOf(Request(Introduced, false, m), AnalyzeAll(naming, analyze, inputs)).diagnostics
         == PlainDiagnostics(shown)
    ensures InReportOrder(shown)
    ensures forall path, key ::
              Seen(shown, (path, key)) == Introduces(naming, analyze, inputs, m, path, key)
  {
    var results := AnalyzeAll(naming, analyze, inputs);
    var before, after := Reported(BeforeOf(results)), Reported(AfterOf(results));
    ReportedFirst(AfterOf(results));
    NewOccurrences(before, after, m);
    shown := Beyond(after, Budget(before, m));
    forall path, key
      ensures Seen(shown, (path, key)) == Introduces(naming, analyze, inputs, m, path, key)
    {
      ReportedAtPath(naming, analyze, inputs, path, key);
      RenamedIs(naming, analyze, inputs, m, path, key);
    }
  }

  lemma {:induction false} ReportedAtPath(naming: Naming, analyze: Analyzer, inputs: seq<Input>, path: Text, key: Text)
    requires DistinctPaths(inputs)
    requires var results := AnalyzeAll(naming, analyze, inputs);
             |BeforeOf(results)| <= 10_000 && |AfterOf(results)| <= 10_000
    ensures var results := AnalyzeAll(naming, analyze, inputs);
            && Seen(Reported(AfterOf(results)), (path, key)) == AtPath(naming, analyze, inputs, true, path, key)
            && Seen(Reported(BeforeOf(results)), (path, key)) == AtPath(naming, analyze, inputs, false, path, key)
  {
    var results := AnalyzeAll(naming, analyze, inputs);
    SeenReported(AfterOf(results), (path, key));
    SeenReported(BeforeOf(results), (path, key));
    SideAtPath(naming, analyze, inputs, true, path, key);
    SideAtPath(naming, analyze, inputs, false, path, key);
  }

  ghost function SideList(r: Result<AnalyzedInput>, after: bool): seq<Evaluated> {
    if after then AfterList(r) else BeforeList(r)
  }

  lemma {:induction false} SideAtPath(naming: Naming, analyze: Analyzer, inputs: seq<Input>, after: bool, path: Text, key: Text)
    requires DistinctPaths(inputs)
    ensures var results := AnalyzeAll(naming, analyze, inputs);
            Seen(if after then AfterOf(results) else BeforeOf(results), (path, key))
            == AtPath(naming, analyze, inputs, after, path, key)
  {
    var results := AnalyzeAll(naming, analyze, inputs);
    var paths := seq(|inputs|, i requires 0 <= i < |inputs| => inputs[i].path);
    var lists := SideLists(naming, analyze, inputs, after, key);
    hide InVersion, AnalyzeAll, AnalyzeInput, Seen, Flatten, Numbered;
    OneList(lists, paths, (path, key));
    if exists i: nat :: At(inputs, path, i) {
      var i: nat :| At(inputs, path, i) && AtPath(naming, analyze, inputs, after, path, key) == InVersion(naming, analyze, inputs[i], after, key);
      assert paths[i] == path;
    } else {
      assert forall i: nat :: i < |paths| ==> paths[i] == inputs[i].path && !At(inputs, path, i);
    }
  }

  lemma {:induction false} SideLists(naming: Naming, analyze: Analyzer, inputs: seq<Input>, after: bool, key: Text)
    returns (lists: seq<seq<Evaluated>>)
    ensures Flatten(lists) == if after then AfterOf(AnalyzeAll(naming, analyze, inputs)) else BeforeOf(AnalyzeAll(naming, analyze, inputs))
    ensures |lists| == |inputs| && forall i :: 0 <= i < |inputs| ==> Numbered(inputs[i].path, lists[i])
    ensures forall i :: 0 <= i < |inputs| ==>
              Seen(lists[i], (inputs[i].path, key)) == InVersion(naming, analyze, inputs[i], after, key)
  {
    hide InVersion, AnalyzeInput, Seen, Flatten, Numbered;
    var results := AnalyzeAll(naming, analyze, inputs);
    lists := if after then Apply(AfterList, results) else Apply(BeforeList, results);
    forall i | 0 <= i < |inputs|
      ensures Numbered(inputs[i].path, lists[i])
      ensures Seen(lists[i], (inputs[i].path, key)) == InVersion(naming, analyze, inputs[i], after, key)
    {
      assert lists[i] == SideList(AnalyzeInput(naming, analyze, inputs[i]), after);
      VersionList(naming, analyze, inputs[i], after, key);
    }
  }

  /** With distinct paths, the list at the path of `k` accounts for its whole count. */
  lemma {:induction false} OneList(lists: seq<seq<Evaluated>>, paths: seq<Text>, k: Class)
    requires |paths| == |lists|
    requires forall j :: 0 <= j < |lists| ==> Numbered(paths[j], lists[j])
    requires forall j, l :: 0 <= j < l < |lists| ==> paths[j] != paths[l]
    ensures forall i :: 0 <= i < |lists| && paths[i] == k.0 ==> Seen(Flatten(lists), k) == Seen(lists[i], k)
    ensures (forall i :: 0 <= i < |lists| ==> paths[i] != k.0) ==> Seen(Flatten(lists), k) == 0
  {
    hide Seen, Flatten, Numbered;
    if Seen(Flatten(lists), k) > 0 {
      var i := SeenFlattenAt(lists, paths, k);
    } else {
      forall i | 0 <= i < |lists|
        ensures Seen(lists[i], k) == 0
      {
        SeenFlattenAtLeast(lists, i, k);
      }
    }
  }

  lemma {:induction false} VersionList(naming: Naming, analyze: Analyzer, input: Input, after: bool, key: Text)
    ensures var list := SideList(AnalyzeInput(naming, analyze, input), after);
            Numbered(input.path, list) && Seen(list, (input.path, key)) == InVersion(naming, analyze, input, after, key)
  {
    var file := if after then input.after else input.before;
    if file.Some? && analyze(file.value.content, file.value.mode).Facts? {
      SeenKeyed(naming, input.path, file.value.language, analyze(file.value.content, file.value.mode).diagnostics, key);
    }
  }

  lemma {:induction false} SeenKeyed(naming: Naming, path: Text, language: nat, facts: seq<RawDiagnostic>, key: Text)
    ensures Seen(Materialized(naming, path, language, facts), (path, key)) == Keyed(naming, language, facts, key)
  {
    if facts != [] {
      var front := facts[..|facts| - 1];
      SeenKeyed(naming, path, language, front, key);
      assert Materialized(naming, path, language, facts)[..|front|] == Materialized(naming, path, language, front);
    }
  }

  lemma {:induction false} RenamedIs(naming: Naming, analyze: Analyzer, inputs: seq<Input>, m: Continuity, path: Text, key: Text)
    requires DistinctPaths(inputs) && IsContinuity(inputs, m)
    requires var results := AnalyzeAll(naming, analyze, inputs);
             |BeforeOf(results)| <= 10_000 && |AfterOf(results)| <= 10_000
    ensures Renamed(Reported(BeforeOf(AnalyzeAll(naming, analyze, inputs))), m, (path, key))
         == AtOldPath(naming, analyze, inputs, m, path, key)
  {
    var before := Reported(BeforeOf(AnalyzeAll(naming, analyze, inputs)));
    if exists p :: p in m && m[p] == path {
      var p :| p in m && m[p] == path && AtOldPath(naming, analyze, inputs, m, path, key) == AtPath(naming, analyze, inputs, false, p, key);
      var i, j, file := ContinuitySound(inputs, m, p);
      RenamedFromOne(before, m, p, key);
      ReportedAtPath(naming, analyze, inputs, p, key);
    } else {
      RenamedFromNone(before, m, (path, key));
    }
  }

  lemma {:induction false} RenamedFromOne(s: seq<Evaluated>, m: Continuity, p: Text, key: Text)
    requires p in m && forall r :: r in m && m[r] == m[p] ==> r == p
    ensures Renamed(s, m, (m[p], key)) == Seen(s, (p, key))
  {
    if s != [] {
      RenamedFromOne(s[..|s| - 1], m, p, key);
    }
  }

  lemma {:induction false} RenamedFromNone(s: seq<Evaluated>, m: Continuity, k: Class)
    requires forall r :: r in m ==> m[r] != k.0
    ensures Renamed(s, m, k) == 0
  {
    if s != [] {
      RenamedFromNone(s[..|s| - 1], m, k);
    }
  }

  // Where the diagnostics come from.

  /** The `j`-th raw diagnostic of a version of the input, at the input's path. */
  ghost predicate Materializes(naming: Naming, analyze: Analyzer, input: Input, after: bool, j: nat, e: Evaluated) {
    var file := if after then input.after else input.before;
    && file.Some? && Analyzable(analyze, input.before) && Analyzable(analyze, input.after)
    && var facts := analyze(file.value.content, file.value.mode).diagnostics;
    && j < |facts| && e.order == j
    && e.comparisonKey == naming.comparisonKey(facts[j].ruleId, naming.family(file.value.language), facts[j].entityKey, facts[j].causeKey)
    && e.diagnostic.ruleId == facts[j].ruleId && e.diagnostic.details == facts[j].details
    && e.diagnostic.path == input.path && e.diagnostic.fingerprint == naming.fingerprint(input.path, e.comparisonKey)
  }

  ghost predicate FromSome(naming: Naming, analyze: Analyzer, inputs: seq<Input>, after: bool, e: Evaluated) {
    exists i: nat, j: nat :: i < |inputs| && Materializes(naming, analyze, inputs[i], after, j, e)
  }

  /** The candidates and the baseline are the raw diagnostics of the covered inputs, each once named. */
  lemma {:induction false} DiagnosticsFrom(naming: Naming, analyze: Analyzer, inputs: seq<Input>, e: Evaluated)
    ensures e in AfterOf(AnalyzeAll(naming, analyze, inputs)) <==> FromSome(naming, analyze, inputs, true, e)
    ensures e in BeforeOf(AnalyzeAll(naming, analyze, inputs)) <==> FromSome(naming, analyze, inputs, false, e)
  {
    SideFrom(naming, analyze, inputs, true, e);
    SideFrom(naming, analyze, inputs, false, e);
    SidesTold(AnalyzeAll(naming, analyze, inputs), e);
  }

  lemma {:induction false} SideFrom(naming: Naming, analyze: Analyzer, inputs: seq<Input>, after: bool, e: Evaluated)
    ensures var results := AnalyzeAll(naming, analyze, inputs);
            (if after then FoundAfter(results, e) else FoundBefore(results, e)) <==> FromSome(naming, analyze, inputs, after, e)
  {
    var results := AnalyzeAll(naming, analyze, inputs);
    forall i: nat | i < |inputs|
      ensures (if after then HasAfter(results[i], e) else HasBefore(results[i], e))
         <==> exists j: nat :: Materializes(naming, analyze, inputs[i], after, j, e)
    {
      InputFrom(naming, analyze, inputs[i], after, e);
    }
    hide AnalyzeAll, HasAfter, HasBefore, Materializes;
    if FromSome(naming, analyze, inputs, after, e) {
      var i: nat, j: nat :| i < |inputs| && Materializes(naming, analyze, inputs[i], after, j, e);
      assert if after then HasAfter(results[i], e) else HasBefore(results[i], e);
    }
  }

  lemma {:induction false} InputFrom(naming: Naming, analyze: Analyzer, input: Input, after: bool, e: Evaluated)
    ensures var r := AnalyzeInput(naming, analyze, input);
            (if after then HasAfter(r, e) else HasBefore(r, e))
            <==> exists j: nat :: Materializes(naming, analyze, input, after, j, e)
  {
    var r := AnalyzeInput(naming, analyze, input);
    var file := if after then input.after else input.before;
    if file.Some? && analyze(file.value.content, file.value.mode).Facts? {
      var items := Materialized(naming, input.path, file.value.language, analyze(file.value.content, file.value.mode).diagnostics);
      if e in items {
        var j: nat :| j < |items| && items[j] == e;
        assert Analyzable(analyze, input.before) && Analyzable(analyze, input.after) ==>
            Materializes(naming, analyze, input, after, j, e);
      }
      if exists j: nat :: Materializes(naming, analyze, input, after, j, e) {
        var j: nat :| Materializes(naming, analyze, input, after, j, e);
        assert items[j] == e;
      }
    }
  }
}
