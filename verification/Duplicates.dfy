/** Introduced duplicates: identical files and identical callables whose number grew between two
    views, within a limit on findings. */
module Duplicates {
  import opened Collections
  import opened Coverage
  import opened Sorting
  import opened TextOrder

  const MAX_OBSERVATION_PATHS: nat := 5

  // How often each path occurs.

  function PathsIn(s: seq<Occurrence>): multiset<Path> {
    if s == [] then multiset{} else PathsIn(s[..|s| - 1]) + multiset{s[|s| - 1].path}
  }

  lemma {:induction false} PathsInSize(s: seq<Occurrence>)
    ensures |PathsIn(s)| == |s|
  {
    if s != [] {
      PathsInSize(s[..|s| - 1]);
    }
  }

  lemma {:induction false} PathOccurs(s: seq<Occurrence>, p: Path) returns (i: nat)
    requires p in PathsIn(s)
    ensures i < |s| && s[i].path == p
  {
    if s[|s| - 1].path == p {
      i := |s| - 1;
    } else {
      i := PathOccurs(s[..|s| - 1], p);
    }
  }

  /** The counts of a sequence: each path that occurs, with how often. */
  ghost predicate Counts(counts: map<Path, nat>, s: seq<Occurrence>) {
    && (forall p :: p in counts <==> p in PathsIn(s))
    && (forall p :: p in counts ==> counts[p] == PathsIn(s)[p])
  }

  lemma NoPaths()
    ensures Counts(map[], [])
  {
  }

  lemma PathsInSnoc(s: seq<Occurrence>, i: nat)
    requires i < |s|
    ensures PathsIn(s[..i + 1]) == PathsIn(s[..i]) + multiset{s[i].path}
  {
    assert s[..i + 1][..i] == s[..i];
  }

  method PathCounts(s: seq<Occurrence>) returns (counts: map<Path, nat>)
    ensures Counts(counts, s)
  {
    NoPaths();
    hide PathsIn;
    counts := map[];
    assert s[..0] == [];
    for i := 0 to |s|
      invariant Counts(counts, s[..i])
    {
      var p := s[i].path;
      PathsInSnoc(s, i);
      counts := counts[p := (if p in counts then counts[p] else 0) + 1];
    }
    assert s[..|s|] == s;
  }

  function PathsWithGrowth(before: map<Path, nat>, after: map<Path, nat>): set<Path> {
    set p | p in after && (if p in before then before[p] else 0) < after[p]
  }

  /** The paths on which the class grew. */
  function Grown(before: seq<Occurrence>, after: seq<Occurrence>): set<Path> {
    set p | p in PathsIn(after) && PathsIn(before)[p] < PathsIn(after)[p]
  }

  lemma GrowthExact(before: seq<Occurrence>, after: seq<Occurrence>, b: map<Path, nat>, a: map<Path, nat>)
    requires Counts(b, before) && Counts(a, after)
    ensures PathsWithGrowth(b, a) == Grown(before, after)
  {
    assert forall p :: p !in b ==> PathsIn(before)[p] == 0;
  }

  lemma Included<T>(a: multiset<T>, b: multiset<T>)
    requires a <= b
    ensures |a| <= |b|
  {
    assert b == a + (b - a);
  }

  /** If the class grew, it grew on some path. */
  lemma SomePathGrew(before: seq<Occurrence>, after: seq<Occurrence>)
    requires |after| > |before|
    ensures Grown(before, after) != {}
  {
    PathsInSize(before);
    PathsInSize(after);
    if Grown(before, after) == {} {
      forall p ensures PathsIn(after)[p] <= PathsIn(before)[p] {
        assert p !in Grown(before, after);
      }
      Included(PathsIn(after), PathsIn(before));
      assert false;
    }
  }

  // Bounded lists.

  function First<T>(s: seq<T>, limit: nat): seq<T> {
    if |s| <= limit then s else s[..limit]
  }

  lemma FirstMember<T>(s: seq<T>, limit: nat, x: T)
    requires x in s
    ensures x in First(s, limit) || |s| > limit
  {
  }

  lemma FirstSnoc<T>(s: seq<T>, limit: nat, x: T)
    ensures First(s + [x], limit) == if |s| >= limit then First(s, limit) else First(s, limit) + [x]
  {
  }

  // The occurrences that a finding shows: changed ones first, at most five.

  datatype Shown = Shown(path: Path, range: Text, kind: nat, changed: bool)

  function ShownKey(x: Shown): Key {
    [if x.changed then [0] else [1], x.path, x.range, [x.kind]]
  }

  predicate ShownLess(a: Shown, b: Shown) {
    KeyLess(ShownKey(a), ShownKey(b))
  }

  lemma ShownIsOrder()
    ensures StrictWeak(ShownLess)
  {
    OrderByKey(ShownLess, ShownKey);
  }

  lemma ChangedComesFirst(a: Shown, b: Shown)
    requires a.changed && !b.changed
    ensures ShownLess(a, b)
  {
    assert TextLess([0], [1]);
  }

  function InOrder(all: seq<Shown>): seq<Shown> {
    Sort(ShownLess, all)
  }

  /** `bound_occurrences` */
  function Bounded(all: seq<Shown>): (seq<Shown>, bool) {
    (First(InOrder(all), MAX_OBSERVATION_PATHS), |InOrder(all)| > MAX_OBSERVATION_PATHS)
  }

  /** If anything changed, the first occurrence shown is a changed one. */
  lemma ShowsChanged(all: seq<Shown>, i: nat)
    requires i < |all| && all[i].changed
    ensures Bounded(all).0 != [] && Bounded(all).0[0].changed
  {
    ShownIsOrder();
    SortSorts(ShownLess, all);
    var sorted := InOrder(all);
    hide ShownLess, StrictWeak;
    assert all[i] in multiset(sorted);
    var j :| 0 <= j < |sorted| && sorted[j] == all[i];
    if !sorted[0].changed {
      ChangedComesFirst(sorted[j], sorted[0]);
    }
  }

  /** The order shown: changed ones first, then by path, range and kind. */
  ghost predicate ShownNotAfter(a: Shown, b: Shown) {
    && (b.changed ==> a.changed)
    && (a.changed == b.changed ==> !TextLess(b.path, a.path))
    && (a.changed == b.changed && a.path == b.path ==> !TextLess(b.range, a.range))
    && (a.changed == b.changed && a.path == b.path && a.range == b.range ==> a.kind <= b.kind)
  }

  lemma ShownOrder(a: Shown, b: Shown)
    ensures ShownNotAfter(a, b) <==> !ShownLess(b, a)
  {
    var x, y := ShownKey(b), ShownKey(a);
    TextIsOrder();
    SmallTexts(b.kind, a.kind);
    SmallTexts(if b.changed then 0 else 1, if a.changed then 0 else 1);
    hide TextLess;
    KeyLessFour(x, y);
  }

  lemma SmallTexts(m: nat, n: nat)
    ensures TextLess([m], [n]) <==> m < n
  {
    assert [m][1..] == [] && [n][1..] == [];
  }

  lemma KeyLessFour(x: Key, y: Key)
    requires |x| == |y| == 4
    ensures KeyLess(x, y)
       <==> || TextLess(x[0], y[0])
            || (x[0] == y[0] && TextLess(x[1], y[1]))
            || (x[0] == y[0] && x[1] == y[1] && TextLess(x[2], y[2]))
            || (x[0] == y[0] && x[1] == y[1] && x[2] == y[2] && TextLess(x[3], y[3]))
  {
    hide TextLess;
    assert x[1..][0] == x[1] && x[1..][1..] == x[2..] && x[2..][0] == x[2] && x[2..][1..] == x[3..];
    assert y[1..][0] == y[1] && y[1..][1..] == y[2..] && y[2..][0] == y[2] && y[2..][1..] == y[3..];
    assert x[3..][0] == x[3] && y[3..][0] == y[3] && x[3..][1..] == [] && y[3..][1..] == [];
    assert KeyLess(x[3..], y[3..]) <==> TextLess(x[3], y[3]);
    assert KeyLess(x[2..], y[2..]) <==> TextLess(x[2], y[2]) || (x[2] == y[2] && KeyLess(x[3..], y[3..]));
    assert KeyLess(x[1..], y[1..]) <==> TextLess(x[1], y[1]) || (x[1] == y[1] && KeyLess(x[2..], y[2..]));
  }

  /** `shown` lists the first five of `all` in that order, or all of it, and the flag says if there are more. */
  ghost predicate ShowsFirst(shown: seq<Shown>, truncated: bool, all: seq<Shown>) {
    && |shown| == (if |all| <= 5 then |all| else 5) && (truncated <==> |all| > 5)
    && multiset(shown) <= multiset(all)
    && (forall i, j :: 0 <= i < j < |shown| ==> ShownNotAfter(shown[i], shown[j]))
    && (forall x, y :: x in shown && y in multiset(all) - multiset(shown) ==> ShownNotAfter(x, y))
  }

  lemma BoundedShowsFirst(all: seq<Shown>)
    ensures ShowsFirst(Bounded(all).0, Bounded(all).1, all)
  {
    ShownIsOrder();
    SortSorts(ShownLess, all);
    hide ShownLess, StrictWeak;
    var sorted, shown := InOrder(all), Bounded(all).0;
    FrontIsSmallest(ShownLess, sorted, MAX_OBSERVATION_PATHS);
    assert shown == sorted[..Min(MAX_OBSERVATION_PATHS, |sorted|)];
    hide ShownNotAfter;
    forall i, j | 0 <= i < j < |shown| ensures ShownNotAfter(shown[i], shown[j]) {
      ShownOrder(shown[i], shown[j]);
    }
    forall x, y | x in shown && y in multiset(all) - multiset(shown) ensures ShownNotAfter(x, y) {
      assert x in multiset(shown);
      ShownOrder(x, y);
    }
  }

  function Marked(s: seq<Occurrence>, changed: set<Path>): seq<Shown> {
    seq(|s|, i requires 0 <= i < |s| => Shown(s[i].path, s[i].range, s[i].kind, s[i].path in changed))
  }

  // Callable classes.

  /** Some path grew in a changed file, and not all of them are suppressed. */
  predicate Reportable(before: seq<Occurrence>, after: seq<Occurrence>, changed: set<Path>, suppressed: set<Path>) {
    && |after| >= 2 && |after| > |before|
    && Grown(before, after) * changed != {}
    && !(Grown(before, after) != {} && Grown(before, after) <= suppressed)
  }

  datatype Finding = Finding(group: Class, before: nat, after: nat, tokens: Option<nat>,
                             occurrences: seq<Shown>, occurrencesTruncated: bool)

  datatype Comparison = Comparison(before: Groups, after: Groups, changed: set<Path>, suppressed: set<Path>)

  predicate Reports(c: Comparison, k: Class) {
    Reportable(Members(c.before, k), Members(c.after, k), c.changed, c.suppressed)
  }

  function FindingOf(c: Comparison, k: Class): Finding {
    var before, after := Members(c.before, k), Members(c.after, k);
    var shown := Bounded(Marked(after, c.changed));
    Finding(k, |before|, |after|, if after == [] then None else Some(after[0].tokens), shown.0, shown.1)
  }

  function Reported(c: Comparison, order: seq<Class>, n: nat): seq<Finding>
    requires n <= |order|
  {
    if n == 0 then []
    else if Reports(c, order[n - 1]) then Reported(c, order, n - 1) + [FindingOf(c, order[n - 1])]
    else Reported(c, order, n - 1)
  }

  /** The classes in map order; the first reportable ones are returned, the flag says if any was
      left out. */
  method CallableFindings(c: Comparison, order: seq<Class>, limit: nat) returns (findings: seq<Finding>, truncated: bool)
    ensures findings == First(Reported(c, order, |order|), limit)
    ensures truncated == (|Reported(c, order, |order|)| > limit)
  {
    hide Bounded, Marked, Grown, PathsWithGrowth, Counts;
    findings, truncated := [], false;
    for i := 0 to |order|
      invariant findings == First(Reported(c, order, i), limit)
      invariant truncated == (|Reported(c, order, i)| > limit)
    {
      var k := order[i];
      var before, after := Members(c.before, k), Members(c.after, k);
      if |after| < 2 || |after| <= |before| {
        continue;
      }
      var b := PathCounts(before);
      var a := PathCounts(after);
      GrowthExact(before, after, b, a);
      var grew := PathsWithGrowth(b, a);
      if grew * c.changed == {} || (grew != {} && grew <= c.suppressed) {
        continue;
      }
      FirstSnoc(Reported(c, order, i), limit, FindingOf(c, k));
      if |findings| >= limit {
        truncated := true;
        continue;
      }
      var shown := Bounded(Marked(after, c.changed));
      findings := findings + [Finding(k, |before|, |after|, Some(after[0].tokens), shown.0, shown.1)];
    }
  }

  lemma {:induction false} ReportedExact(c: Comparison, order: seq<Class>, n: nat, f: Finding)
    requires n <= |order|
    ensures f in Reported(c, order, n) <==>
            f == FindingOf(c, f.group) && Reports(c, f.group) && f.group in order[..n]
  {
    if n > 0 {
      ReportedExact(c, order, n - 1, f);
      hide Reports;
      assert order[..n] == order[..n - 1] + [order[n - 1]];
      assert FindingOf(c, order[n - 1]).group == order[n - 1];
      hide FindingOf;
    }
  }

  /** `names` are the elements of `order` before `n` that are picked, at the positions `at`. */
  ghost predicate Picks<T(!new)>(order: seq<T>, picked: T -> bool, n: nat, at: seq<nat>, names: seq<T>) {
    && n <= |order| && Increasing(at) && |at| == |names|
    && (forall j :: 0 <= j < |at| ==> at[j] < n && names[j] == order[at[j]])
    && (forall i: nat :: i < n ==> (i in at <==> picked(order[i])))
  }

  /** What is picked first comes first, and what is left out comes later. */
  lemma PickedInOrder<T(!new)>(less: (T, T) -> bool, order: seq<T>, picked: T -> bool, at: seq<nat>, names: seq<T>, limit: nat)
    requires Picks(order, picked, |order|, at, names)
    requires forall i, j :: 0 <= i < j < |order| ==> less(order[i], order[j])
    ensures var first := First(names, limit);
            && (forall i, j :: 0 <= i < j < |first| ==> less(first[i], first[j]))
            && (forall k :: k in order && picked(k) && k !in first ==>
                  |names| > limit && forall i :: 0 <= i < |first| ==> less(first[i], k))
  {
    var first := First(names, limit);
    forall k | k in order && picked(k) && k !in first
      ensures |names| > limit && forall i :: 0 <= i < |first| ==> less(first[i], k)
    {
      var p: nat :| p < |order| && order[p] == k;
      assert p in at;
      var j :| 0 <= j < |at| && at[j] == p;
      assert names[j] == k;
      assert forall i :: 0 <= i < |first| ==> first[i] == names[i] && first[i] in first;
      assert j >= |first|;
      forall i | 0 <= i < |first| ensures less(first[i], k) {
        assert first[i] == names[i] == order[at[i]] && at[i] < at[j];
      }
    }
  }

  lemma PicksNone<T(!new)>(order: seq<T>, picked: T -> bool)
    ensures Picks(order, picked, 0, [], [])
  {
  }

  lemma PicksNext<T(!new)>(order: seq<T>, picked: T -> bool, n: nat, at: seq<nat>, names: seq<T>)
    requires n < |order| && Picks(order, picked, n, at, names)
    ensures if picked(order[n]) then Picks(order, picked, n + 1, at + [n], names + [order[n]])
            else Picks(order, picked, n + 1, at, names)
  {
    assert n !in at;
  }

  ghost function Reporting(c: Comparison): Class -> bool {
    k => Reports(c, k)
  }

  ghost function ClassesIn(findings: seq<Finding>): seq<Class> {
    seq(|findings|, i requires 0 <= i < |findings| => findings[i].group)
  }

  /** The findings are those of the reportable classes, in their order. */
  lemma {:induction false} ReportedAt(c: Comparison, order: seq<Class>, n: nat) returns (at: seq<nat>)
    requires n <= |order|
    ensures Picks(order, Reporting(c), n, at, ClassesIn(Reported(c, order, n)))
  {
    hide Picks;
    if n == 0 {
      at := [];
      PicksNone(order, Reporting(c));
      assert ClassesIn(Reported(c, order, 0)) == [];
    } else {
      hide Reports, FindingOf;
      var inner := ReportedAt(c, order, n - 1);
      PicksNext(order, Reporting(c), n - 1, inner, ClassesIn(Reported(c, order, n - 1)));
      at := if Reporting(c)(order[n - 1]) then inner + [n - 1] else inner;
      ClassesInNext(c, order, n);
    }
  }

  lemma ClassesInNext(c: Comparison, order: seq<Class>, n: nat)
    requires 0 < n <= |order|
    ensures ClassesIn(Reported(c, order, n))
         == if Reporting(c)(order[n - 1]) then ClassesIn(Reported(c, order, n - 1)) + [order[n - 1]]
            else ClassesIn(Reported(c, order, n - 1))
  {
    hide Reports, FindingOf;
    FindingNames(c, order[n - 1]);
  }

  lemma FindingNames(c: Comparison, k: Class)
    ensures FindingOf(c, k).group == k
  {
  }

  /** No class is reported unless its view grew, and on some changed path; the first occurrence shown
      is a changed one. */
  lemma NoReportWithoutGrowth(c: Comparison, order: seq<Class>, limit: nat, f: Finding)
    requires f in First(Reported(c, order, |order|), limit)
    ensures f == FindingOf(c, f.group) && Reports(c, f.group) && f.group in order
    ensures f.before < f.after && f.after >= 2
    ensures exists p :: p in Grown(Members(c.before, f.group), Members(c.after, f.group)) && p in c.changed
    ensures f.occurrences != [] && f.occurrences[0].changed
  {
    ReportedExact(c, order, |order|, f);
    assert order[..|order|] == order;
    var after := Members(c.after, f.group);
    var grown := Grown(Members(c.before, f.group), after);
    var p :| p in grown * c.changed;
    var i := PathOccurs(after, p);
    ShowsChanged(Marked(after, c.changed), i);
  }

  lemma ReportedFinding(c: Comparison, order: seq<Class>, k: Class)
    requires Reports(c, k) && k in order
    ensures FindingOf(c, k) in Reported(c, order, |order|)
  {
    hide Reported, Reports;
    assert FindingOf(c, k).group == k;
    assert order[..|order|] == order;
    ReportedExact(c, order, |order|, FindingOf(c, k));
  }

  // Identical files.

  datatype FileGroup = FileGroup(bytes: nat, paths: set<Path>)

  type FileGroupMap = map<ContentId, FileGroup>

  /** The paths, after renames, of the files with this content that are large enough. */
  function PathsOf(files: seq<File>, minimum: nat, continuity: map<Path, Path>, c: ContentId): set<Path> {
    set f | f in files && f.bytes >= minimum && f.content == c :: Renamed(continuity, f.path)
  }

  function GroupPaths(groups: FileGroupMap, c: ContentId): set<Path> {
    if c in groups then groups[c].paths else {}
  }

  ghost predicate GroupsOf(groups: FileGroupMap, files: seq<File>, minimum: nat, continuity: map<Path, Path>) {
    forall c :: GroupPaths(groups, c) == PathsOf(files, minimum, continuity, c)
                && (c in groups ==> groups[c].paths != {} && SizeOf(files, minimum, c, groups[c].bytes))
  }

  /** Some file with this content that is large enough has this size. */
  ghost predicate SizeOf(files: seq<File>, minimum: nat, c: ContentId, bytes: nat) {
    exists f :: f in files && f.bytes >= minimum && f.content == c && f.bytes == bytes
  }

  method FileGroups(files: seq<File>, minimum: nat, continuity: map<Path, Path>) returns (groups: FileGroupMap)
    ensures GroupsOf(groups, files, minimum, continuity)
  {
    hide GroupsOf;
    groups := map[];
    NoGroups(minimum, continuity);
    assert files[..0] == [];
    for i := 0 to |files|
      invariant GroupsOf(groups, files[..i], minimum, continuity)
    {
      var f := files[i];
      if f.bytes >= minimum {
        var group := if f.content in groups then groups[f.content] else FileGroup(f.bytes, {});
        var path := Renamed(continuity, f.path);
        GroupsGrow(groups, files[..i], minimum, continuity, f);
        groups := groups[f.content := group.(paths := group.paths + {path})];
      } else {
        SmallFile(groups, files[..i], minimum, continuity, f);
      }
      assert files[..i + 1] == files[..i] + [f];
    }
    assert files[..|files|] == files;
  }

  lemma NoGroups(minimum: nat, continuity: map<Path, Path>)
    ensures GroupsOf(map[], [], minimum, continuity)
  {
  }

  lemma GroupsGrow(groups: FileGroupMap, files: seq<File>, minimum: nat, continuity: map<Path, Path>, f: File)
    requires GroupsOf(groups, files, minimum, continuity) && f.bytes >= minimum
    ensures var group := if f.content in groups then groups[f.content] else FileGroup(f.bytes, {});
            GroupsOf(groups[f.content := group.(paths := group.paths + {Renamed(continuity, f.path)})],
                     files + [f], minimum, continuity)
  {
    var group := if f.content in groups then groups[f.content] else FileGroup(f.bytes, {});
    var grown := groups[f.content := group.(paths := group.paths + {Renamed(continuity, f.path)})];
    forall c ensures GroupPaths(grown, c) == PathsOf(files + [f], minimum, continuity, c)
    {
      assert GroupPaths(groups, c) == PathsOf(files, minimum, continuity, c);
      PathsOfSnoc(files, minimum, continuity, f, c);
    }
    forall c | c in grown ensures grown[c].paths != {} && SizeOf(files + [f], minimum, c, grown[c].bytes)
    {
      assert GroupPaths(groups, c) == PathsOf(files, minimum, continuity, c);
      assert c == f.content ==> Renamed(continuity, f.path) in grown[c].paths;
      SizeOfMore(files, minimum, f, c, grown[c].bytes);
    }
  }

  lemma SizeOfMore(files: seq<File>, minimum: nat, f: File, c: ContentId, bytes: nat)
    ensures SizeOf(files, minimum, c, bytes) ==> SizeOf(files + [f], minimum, c, bytes)
    ensures f.bytes >= minimum && f.content == c && f.bytes == bytes ==> SizeOf(files + [f], minimum, c, bytes)
  {
    if SizeOf(files, minimum, c, bytes) {
      var x :| x in files && x.bytes >= minimum && x.content == c && x.bytes == bytes;
      assert x in files + [f];
    }
    assert f in files + [f];
  }

  lemma PathsOfSnoc(files: seq<File>, minimum: nat, continuity: map<Path, Path>, f: File, c: ContentId)
    ensures PathsOf(files + [f], minimum, continuity, c)
         == PathsOf(files, minimum, continuity, c)
            + (if f.bytes >= minimum && f.content == c then {Renamed(continuity, f.path)} else {})
  {
    var s := files + [f];
    assert forall x :: x in s <==> x in files || x == f;
    forall p | p in PathsOf(s, minimum, continuity, c)
      ensures p in PathsOf(files, minimum, continuity, c)
              || (f.bytes >= minimum && f.content == c && p == Renamed(continuity, f.path))
    {
      var x :| x in s && x.bytes >= minimum && x.content == c && p == Renamed(continuity, x.path);
      assert x in files || x == f;
    }
    forall p | p in PathsOf(files, minimum, continuity, c) ensures p in PathsOf(s, minimum, continuity, c) {
      var x :| x in files && x.bytes >= minimum && x.content == c && p == Renamed(continuity, x.path);
      assert x in s;
    }
    assert f in s;
  }

  lemma SmallFile(groups: FileGroupMap, files: seq<File>, minimum: nat, continuity: map<Path, Path>, f: File)
    requires GroupsOf(groups, files, minimum, continuity) && f.bytes < minimum
    ensures GroupsOf(groups, files + [f], minimum, continuity)
  {
    forall c
      ensures PathsOf(files + [f], minimum, continuity, c) == PathsOf(files, minimum, continuity, c)
      ensures c in groups ==> SizeOf(files + [f], minimum, c, groups[c].bytes)
    {
      assert GroupPaths(groups, c) == PathsOf(files, minimum, continuity, c);
      PathsOfSnoc(files, minimum, continuity, f, c);
      if c in groups {
        SizeOfMore(files, minimum, f, c, groups[c].bytes);
      }
    }
  }

  datatype FileComparison = FileComparison(before: FileGroupMap, after: FileGroupMap, changed: set<Path>)

  function Introduced(c: FileComparison, id: ContentId): set<Path> {
    GroupPaths(c.after, id) - GroupPaths(c.before, id)
  }

  predicate FileReports(c: FileComparison, id: ContentId) {
    var before, after := GroupPaths(c.before, id), GroupPaths(c.after, id);
    |after| >= 2 && |after| > |before| && Introduced(c, id) * c.changed != {}
  }

  datatype FileFinding = FileFinding(content: ContentId, before: nat, after: nat, bytes: nat,
                                     occurrences: seq<Shown>, occurrencesTruncated: bool)

  function MarkedPaths(paths: seq<Path>, changed: set<Path>): seq<Shown> {
    seq(|paths|, i requires 0 <= i < |paths| => Shown(paths[i], [], 0, paths[i] in changed))
  }

  ghost function FileFindingOf(c: FileComparison, id: ContentId): FileFinding {
    TextIsOrder();
    var paths := Listing(TextLess, GroupPaths(c.after, id));
    var shown := Bounded(MarkedPaths(paths, c.changed));
    FileFinding(id, |GroupPaths(c.before, id)|, |GroupPaths(c.after, id)|,
                if id in c.after then c.after[id].bytes else 0, shown.0, shown.1)
  }

  ghost function FileReported(c: FileComparison, order: seq<ContentId>, n: nat): seq<FileFinding>
    requires n <= |order|
  {
    if n == 0 then []
    else if FileReports(c, order[n - 1]) then FileReported(c, order, n - 1) + [FileFindingOf(c, order[n - 1])]
    else FileReported(c, order, n - 1)
  }

  function FileSuppressed(c: FileComparison, order: seq<ContentId>, n: nat): set<Path>
    requires n <= |order|
  {
    if n == 0 then {}
    else if FileReports(c, order[n - 1]) then FileSuppressed(c, order, n - 1) + Introduced(c, order[n - 1])
    else FileSuppressed(c, order, n - 1)
  }

  /** The contents in map order; every reportable one suppresses its new copies, the first ones within
      the limit are returned. */
  method IdenticalFileFindings(c: FileComparison, order: seq<ContentId>, limit: nat)
    returns (findings: seq<FileFinding>, suppressed: set<Path>, truncated: bool)
    requires forall id :: id in order ==> id in c.after
    ensures findings == First(FileReported(c, order, |order|), limit)
    ensures suppressed == FileSuppressed(c, order, |order|)
    ensures truncated == (|FileReported(c, order, |order|)| > limit)
  {
    hide Bounded, MarkedPaths, FileFindingOf;
    findings, suppressed, truncated := [], {}, false;
    for i := 0 to |order|
      invariant findings == First(FileReported(c, order, i), limit)
      invariant suppressed == FileSuppressed(c, order, i)
      invariant truncated == (|FileReported(c, order, i)| > limit)
    {
      var id := order[i];
      var before, after := GroupPaths(c.before, id), GroupPaths(c.after, id);
      if |after| < 2 || |after| <= |before| {
        continue;
      }
      var introduced := after - before;
      if introduced * c.changed == {} {
        continue;
      }
      suppressed := suppressed + introduced;
      FirstSnoc(FileReported(c, order, i), limit, FileFindingOf(c, id));
      if |findings| >= limit {
        truncated := true;
        continue;
      }
      var finding := MakeFileFinding(c, id);
      findings := findings + [finding];
    }
  }

  method MakeFileFinding(c: FileComparison, id: ContentId) returns (finding: FileFinding)
    requires id in c.after
    ensures finding == FileFindingOf(c, id)
  {
    hide Bounded, MarkedPaths, StrictWeak, RankInjective;
    TextIsOrder();
    var paths := ListSet(TextLess, c.after[id].paths);
    var shown := Bounded(MarkedPaths(paths, c.changed));
    finding := FileFinding(id, |GroupPaths(c.before, id)|, |c.after[id].paths|, c.after[id].bytes, shown.0, shown.1);
  }

  lemma {:induction false} FileReportedExact(c: FileComparison, order: seq<ContentId>, n: nat, f: FileFinding)
    requires n <= |order|
    ensures f in FileReported(c, order, n) <==>
            f == FileFindingOf(c, f.content) && FileReports(c, f.content) && f.content in order[..n]
  {
    if n > 0 {
      FileReportedExact(c, order, n - 1, f);
      hide FileReports;
      assert order[..n] == order[..n - 1] + [order[n - 1]];
      assert FileFindingOf(c, order[n - 1]).content == order[n - 1];
      hide FileFindingOf;
    }
  }

  ghost function FileReporting(c: FileComparison): ContentId -> bool {
    k => FileReports(c, k)
  }

  ghost function ContentsIn(findings: seq<FileFinding>): seq<ContentId> {
    seq(|findings|, i requires 0 <= i < |findings| => findings[i].content)
  }

  /** The findings are those of the reportable contents, in their order. */
  lemma {:induction false} FileReportedAt(c: FileComparison, order: seq<ContentId>, n: nat) returns (at: seq<nat>)
    requires n <= |order|
    ensures Picks(order, FileReporting(c), n, at, ContentsIn(FileReported(c, order, n)))
  {
    hide Picks;
    if n == 0 {
      at := [];
      PicksNone(order, FileReporting(c));
      assert ContentsIn(FileReported(c, order, 0)) == [];
    } else {
      hide FileReports, FileFindingOf;
      var inner := FileReportedAt(c, order, n - 1);
      PicksNext(order, FileReporting(c), n - 1, inner, ContentsIn(FileReported(c, order, n - 1)));
      at := if FileReporting(c)(order[n - 1]) then inner + [n - 1] else inner;
      ContentsInNext(c, order, n);
    }
  }

  lemma ContentsInNext(c: FileComparison, order: seq<ContentId>, n: nat)
    requires 0 < n <= |order|
    ensures ContentsIn(FileReported(c, order, n))
         == if FileReporting(c)(order[n - 1]) then ContentsIn(FileReported(c, order, n - 1)) + [order[n - 1]]
            else ContentsIn(FileReported(c, order, n - 1))
  {
    hide FileReports, FileFindingOf;
    FileFindingNames(c, order[n - 1]);
  }

  lemma FileFindingNames(c: FileComparison, id: ContentId)
    ensures FileFindingOf(c, id).content == id
  {
  }

  /** The suppressed paths are exactly the new copies of the reportable contents. */
  lemma {:induction false} SuppressedExact(c: FileComparison, order: seq<ContentId>, n: nat, p: Path)
    requires n <= |order|
    ensures p in FileSuppressed(c, order, n) <==>
            exists i: nat :: i < n && FileReports(c, order[i]) && p in Introduced(c, order[i])
  {
    if n > 0 {
      SuppressedExact(c, order, n - 1, p);
    }
  }

  /** A suppressed path is a new copy in a class of identical files that is reported, or the flag
      says that findings were left out. */
  lemma SuppressedAccountedFor(c: FileComparison, order: seq<ContentId>, limit: nat, p: Path)
    returns (f: FileFinding)
    requires p in FileSuppressed(c, order, |order|) && |FileReported(c, order, |order|)| <= limit
    ensures f in First(FileReported(c, order, |order|), limit) && p in Introduced(c, f.content)
  {
    SuppressedExact(c, order, |order|, p);
    var i: nat :| i < |order| && FileReports(c, order[i]) && p in Introduced(c, order[i]);
    f := FileFindingOf(c, order[i]);
    assert order[..|order|] == order;
    FileReportedExact(c, order, |order|, f);
  }
}
