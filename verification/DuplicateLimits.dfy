/** Where the laws of the duplicate search end: snapshots whose views leave callables out, at the limit
    per request and at the limit per file. */
module DuplicateLimits {
  import opened Collections
  import opened Coverage
  import opened Duplicates
  import opened DuplicateSearch
  import opened Sorting
  import opened TextOrder

  const COMMON: Class := Class([], [1])
  const RARE: Class := Class([], [2])

  /** The default least size of identical files that count. */
  const MINIMUM: nat := 256

  /** A file with as many callables of one class as are collected. */
  function Dense(i: nat): File {
    File([i], [i], 500_000, [], Some(Facts(Complete, seq(MAX_PER_FILE, j => Callable([1], [], 0, 50)), Complete, 0)), false)
  }

  /** A file with two callables of another class, or with none. */
  function Sparse(content: ContentId, pair: bool): File {
    var callables := if pair then [Callable([2], [0], 0, 50), Callable([2], [1], 0, 50)] else [];
    File([49], content, 600, [], Some(Facts(Complete, callables, Complete, 0)), false)
  }

  /** The same file with more such callables than are collected: the facts list the first 4096. */
  function Crowded(content: ContentId): File {
    File([49], content, 500_000, [],
         Some(Facts(Truncated, seq(MAX_PER_FILE, j => Callable([2], [], 0, 50)), Complete, 0)), false)
  }

  /** Forty-nine dense files fill the request limit; one more follows. */
  function Full(last: File): seq<File> {
    seq(49, i requires 0 <= i < 49 => Dense(i)) + [last]
  }

  function Edited(before: seq<File>, after: seq<File>): Snapshots {
    Snapshots(before, after, map[], {[49]}, MINIMUM)
  }

  /** The dense files are gone; the last file was edited but has its pair before and after. */
  const CUT_BEFORE: Snapshots := Edited(Full(Sparse([100], true)), [Sparse([101], true)])

  /** The dense files stay; the last file gains a pair. */
  const CUT_AFTER: Snapshots := Edited(Full(Sparse([100], false)), Full(Sparse([101], true)))

  /** A crowded file keeps two of its callables. */
  const CROWDED_BEFORE: Snapshots := Edited([Crowded([100])], [Sparse([101], true)])

  /** A file with a pair becomes crowded. */
  const CROWDED_AFTER: Snapshots := Edited([Sparse([100], true)], [Crowded([101])])

  // Classes of the callables.

  lemma {:induction false} NoneOfClass(s: seq<Occurrence>, k: Class)
    requires forall i :: 0 <= i < |s| ==> s[i].group != k
    ensures OfClass(s, k) == []
  {
    if s != [] {
      NoneOfClass(s[..|s| - 1], k);
    }
  }

  lemma {:induction false} AllOfClass(s: seq<Occurrence>, k: Class)
    requires forall i :: 0 <= i < |s| ==> s[i].group == k
    ensures OfClass(s, k) == s
  {
    if s != [] {
      AllOfClass(s[..|s| - 1], k);
    }
  }

  /** One file alone. */
  lemma OneFile(f: File)
    requires f.facts.Some?
    ensures Listed([f], map[], 1) == OccurrencesIn(f, map[])
    ensures Offered([f], map[], 1) == if Collected(f) then OccurrencesIn(f, map[]) else []
    ensures Collected(f) ==> |OccurrencesIn(f, map[])| <= MAX_PER_FILE
    ensures Total([f], 1) <= MAX_PER_FILE
  {
    assert Listed([f], map[], 0) == [] && Offered([f], map[], 0) == [] && Total([f], 0) == 0;
    assert [] + OccurrencesIn(f, map[]) == OccurrencesIn(f, map[]);
  }

  function Pair(content: ContentId): seq<Occurrence> {
    OccurrencesIn(Sparse(content, true), map[])
  }

  /** A snapshot of one sparse file: its view and what it holds. */
  lemma SparseAlone(content: ContentId, k: Class)
    ensures var files := [Sparse(content, true)];
            && OfClass(Listed(files, map[], 1), k) == (if k == RARE then Pair(content) else [])
            && Viewed(files, map[], k) == (if k == RARE then Sort(PlaceLess, Pair(content)) else [])
            && !TallyOf(files, 1).requestTruncated
  {
    var f := Sparse(content, true);
    assert f.facts.Some? && Collected(f);
    PairGroups(content);
    hide Sort, OfClass, Listed, Offered, CountStatus, Total, Sparse, OccurrencesIn, PlaceLess;
    OneFile(f);
    SortedNone(map[], k);
    if k == RARE {
      AllOfClass(Pair(content), k);
    } else {
      NoneOfClass(Pair(content), k);
    }
    assert Kept(Pair(content)) == Pair(content);
  }

  lemma PairGroups(content: ContentId)
    ensures |Pair(content)| == 2 && forall i :: 0 <= i < 2 ==> Pair(content)[i].group == RARE && Pair(content)[i].path == [49]
  {
  }

  /** A snapshot of one crowded file: it holds thousands, and its view is empty. */
  lemma CrowdedAlone(content: ContentId, k: Class)
    ensures var files := [Crowded(content)];
            && OfClass(Listed(files, map[], 1), RARE) == OccurrencesIn(Crowded(content), map[])
            && |OccurrencesIn(Crowded(content), map[])| == MAX_PER_FILE
            && Viewed(files, map[], k) == [] && !TallyOf(files, 1).requestTruncated
  {
    var f := Crowded(content);
    OneFile(f);
    SortedNone(map[], k);
    AllOfClass(OccurrencesIn(f, map[]), RARE);
    NoneOfClass([], k);
    assert Kept([]) == [];
    hide Sort, OfClass, Listed, Offered, CountStatus, Total;
  }

  // A full snapshot.

  lemma {:induction false} OfferedDense(last: File, n: nat)
    requires n <= 49
    ensures |Offered(Full(last), map[], n)| == MAX_PER_FILE * n
    ensures forall i :: 0 <= i < |Offered(Full(last), map[], n)| ==> Offered(Full(last), map[], n)[i].group == COMMON
    ensures Offered(Full(last), map[], n) == Offered(Full(Sparse([100], false)), map[], n)
  {
    if n > 0 {
      OfferedDense(last, n - 1);
      assert Full(last)[n - 1] == Dense(n - 1);
    }
  }

  function DenseOffered(): seq<Occurrence> {
    Offered(Full(Sparse([100], false)), map[], 49)
  }

  /** The callables of a full snapshot: the dense ones, which alone exceed the limit, then the last. */
  lemma FullSplits(content: ContentId, pair: bool)
    ensures var files := Full(Sparse(content, pair));
            && Offered(files, map[], 50) == DenseOffered() + OccurrencesIn(Sparse(content, pair), map[])
            && Listed(files, map[], 50) == Offered(files, map[], 50)
            && |DenseOffered()| > MAX_PER_REQUEST
            && forall i :: 0 <= i < |DenseOffered()| ==> DenseOffered()[i].group == COMMON
  {
    OfferedDense(Sparse(content, pair), 49);
    var files := Full(Sparse(content, pair));
    assert files[49] == Sparse(content, pair);
    assert Offered(files, map[], 50) == Offered(files, map[], 49) + OccurrencesIn(files[49], map[]);
    AllOffered(files, map[], 50);
    hide Offered, Full, OccurrencesIn, Sparse, Listed;
  }

  /** The kept ones are all common, and the pair is cut off. */
  lemma FullSnapshot(content: ContentId, pair: bool)
    ensures var files := Full(Sparse(content, pair));
            && OfClass(Listed(files, map[], 50), RARE) == OccurrencesIn(Sparse(content, pair), map[])
            && |DenseOffered()| > MAX_PER_REQUEST
            && Kept(Offered(files, map[], 50)) == DenseOffered()[..MAX_PER_REQUEST]
            && OfClass(DenseOffered()[..MAX_PER_REQUEST], RARE) == []
            && TallyOf(files, 50).requestTruncated
  {
    var files := Full(Sparse(content, pair));
    FullSplits(content, pair);
    OfferedTotal(files, map[], 50);
    SparseGroups(content, pair);
    hide Offered, DenseOffered, Full, Sparse, OfClass, Listed, OccurrencesIn, Total, CountStatus, Kept;
    KeptDense(DenseOffered(), OccurrencesIn(Sparse(content, pair), map[]));
    AllOfClass(OccurrencesIn(Sparse(content, pair), map[]), RARE);
  }

  lemma SparseGroups(content: ContentId, pair: bool)
    ensures forall i :: 0 <= i < |OccurrencesIn(Sparse(content, pair), map[])| ==>
              OccurrencesIn(Sparse(content, pair), map[])[i].group == RARE
  {
  }

  lemma KeptDense(dense: seq<Occurrence>, more: seq<Occurrence>)
    requires |dense| > MAX_PER_REQUEST && forall i :: 0 <= i < |dense| ==> dense[i].group == COMMON
    ensures Kept(dense + more) == dense[..MAX_PER_REQUEST]
    ensures OfClass(dense[..MAX_PER_REQUEST], RARE) == [] && OfClass(dense + more, RARE) == OfClass(more, RARE)
  {
    hide OfClass;
    NoneOfClass(dense, RARE);
    NoneOfClass(dense[..MAX_PER_REQUEST], RARE);
    OfClassAppend(dense, more, RARE);
  }

  // Identical files play no part: no two files have the same content.

  ghost predicate DistinctContents(files: seq<File>) {
    forall i, j :: 0 <= i < j < |files| ==> files[i].content != files[j].content
  }

  lemma OneCopyEach(s: Snapshots, id: ContentId)
    requires DistinctContents(s.after)
    ensures !CopiesReported(s, id)
  {
    var copies := CopiesAfter(s, id);
    if copies != {} {
      var p :| p in copies;
      forall q | q in copies ensures q == p {
        var f :| f in s.after && f.bytes >= s.minimum && f.content == id && p == Renamed(map[], f.path);
        var g :| g in s.after && g.bytes >= s.minimum && g.content == id && q == Renamed(map[], g.path);
        assert f == g;
      }
      assert copies == {p};
    }
  }

  lemma NothingSuppressed(s: Snapshots)
    requires DistinctContents(s.after)
    ensures Suppressed(s) == {} && forall id :: !CopiesReported(s, id)
  {
    forall id ensures !CopiesReported(s, id) {
      OneCopyEach(s, id);
    }
    hide CopiesReported;
  }

  lemma EditedChanges(before: seq<File>, after: seq<File>)
    ensures Changed(Edited(before, after)) == {[49]}
  {
    var s := Edited(before, after);
    assert Renamed(s.continuity, [49]) == [49] && [49] in s.changedPaths;
  }

  // The pair in the views.

  lemma PairPaths(s: seq<Occurrence>)
    requires |s| == 2 && s[0].path == [49] && s[1].path == [49]
    ensures PathsIn(s) == multiset{[49], [49]}
  {
    assert s[..1][..0] == [] && s[..1][0] == s[0];
    assert PathsIn(s[..1]) == PathsIn([]) + multiset{[49]};
  }

  /** A pair where there was nothing grows at its path. */
  lemma PairGrows(t: seq<Occurrence>)
    requires PathsIn(t) == multiset{[49], [49]}
    ensures Grown([], t) == {[49]}
  {
    assert PathsIn([]) == multiset{};
    hide PathsIn;
  }

  lemma PairViewed(content: ContentId)
    ensures |Pair(content)| == 2 && Grown([], Pair(content)) == {[49]}
    ensures var t := Sort(PlaceLess, Pair(content)); |t| == 2 && Grown([], t) == {[49]}
  {
    var s := Pair(content);
    PlaceIsOrder();
    SortSorts(PlaceLess, s);
    hide Sort, PlaceLess, StrictWeak, SortedBy;
    PairPaths(s);
    hide PathsIn;
    PathsInPermutation(Sort(PlaceLess, s), s);
    PairGrows(s);
    PairGrows(Sort(PlaceLess, s));
  }

  // Findings without growth.

  /** The pair appears in the after view but not in the before view, and the snapshots held as much
      before. */
  ghost predicate LooksNew(s: Snapshots) {
    && s.after == [Sparse([101], true)] && s.minimum == MINIMUM && Changed(s) == {[49]}
    && View(s, RARE, false) == [] && |Held(s, RARE, false)| >= 2
  }

  /** Every search of such snapshots that may return anything returns a finding that is not grounded:
      its class did not grow. */
  lemma ReportsWithoutGrowth(s: Snapshots, limit: nat, r: Result) returns (f: Finding)
    requires LooksNew(s) && SearchOf(s, limit, r) && limit > 0
    ensures f in r.callables && f.group == RARE && !Grounded(s, f)
    ensures |Held(s, RARE, true)| <= |Held(s, RARE, false)|
  {
    hide Held, View, PathsIn, Changed, Suppressed, CopiesReported, Sort, Grown, Sparse, Pair;
    SparseAlone([101], RARE);
    PairViewed([101]);
    NothingSuppressed(s);
    SparseSides(s);
    assert [49] in {[49]} * {[49]};
    assert ClassReports(s, RARE);
    forall k | ClassReports(s, k) ensures k == RARE {
      SparseAlone([101], k);
    }
    SomeElement(r.files);
    assert r.files == [];
    if r.truncated {
      f := r.callables[0];
      assert Founded(s, f);
    } else {
      f :| f in r.callables && f.group == RARE;
    }
  }

  lemma SparseSides(s: Snapshots)
    requires s.after == [Sparse([101], true)]
    ensures forall k :: View(s, k, true) == Viewed([Sparse([101], true)], map[], k)
    ensures forall k :: Held(s, k, true) == OfClass(Listed([Sparse([101], true)], map[], 1), k)
  {
  }

  /** At the limit per request: the pair was there before, but its view was cut. */
  lemma CutBaselineReports(limit: nat, r: Result) returns (f: Finding)
    requires SearchOf(CUT_BEFORE, limit, r) && limit > 0
    ensures r.before.requestTruncated
    ensures f in r.callables && f.group == RARE && !Grounded(CUT_BEFORE, f)
    ensures |Held(CUT_BEFORE, RARE, true)| <= |Held(CUT_BEFORE, RARE, false)|
  {
    CutBeforeLooksNew();
    hide SearchOf, LooksNew, TallyOf, Grounded;
    SearchCounts(CUT_BEFORE, limit, r);
    f := ReportsWithoutGrowth(CUT_BEFORE, limit, r);
  }

  lemma CutBeforeLooksNew()
    ensures LooksNew(CUT_BEFORE) && TallyOf(CUT_BEFORE.before, |CUT_BEFORE.before|).requestTruncated
  {
    FullSnapshot([100], true);
    EditedChanges(Full(Sparse([100], true)), [Sparse([101], true)]);
    SortedNone(map[], RARE);
    hide Offered, Listed, Kept, OfClass, Sort, PlaceLess, Changed, TallyOf, DenseOffered;
  }

  /** At the limit per file: the file had thousands before, but was left out of its view; nothing says
      so but the number of truncated files. */
  lemma CrowdedBaselineReports(limit: nat, r: Result) returns (f: Finding)
    requires SearchOf(CROWDED_BEFORE, limit, r) && limit > 0
    ensures !r.before.requestTruncated && !r.after.requestTruncated
    ensures f in r.callables && f.group == RARE && !Grounded(CROWDED_BEFORE, f)
    ensures |Held(CROWDED_BEFORE, RARE, true)| <= |Held(CROWDED_BEFORE, RARE, false)|
  {
    CrowdedBeforeLooksNew();
    hide SearchOf, LooksNew, TallyOf, Grounded;
    SearchCounts(CROWDED_BEFORE, limit, r);
    f := ReportsWithoutGrowth(CROWDED_BEFORE, limit, r);
  }

  lemma CrowdedBeforeLooksNew()
    ensures LooksNew(CROWDED_BEFORE)
    ensures !TallyOf(CROWDED_BEFORE.before, |CROWDED_BEFORE.before|).requestTruncated
    ensures !TallyOf(CROWDED_BEFORE.after, |CROWDED_BEFORE.after|).requestTruncated
  {
    CrowdedAlone([100], RARE);
    SparseAlone([101], RARE);
    EditedChanges([Crowded([100])], [Sparse([101], true)]);
    hide Listed, OfClass, Viewed, Changed, TallyOf, Sparse, Crowded;
  }

  // Growth that nothing accounts for.

  /** The class grew on a changed path, and no class is reportable in the views. */
  ghost predicate LooksOld(s: Snapshots) {
    && Grew(s, RARE) && HeldGrowth(s, RARE) * Changed(s) != {} && DistinctContents(s.after)
    && forall k :: !ClassReports(s, k)
  }

  lemma MissesGrowth(s: Snapshots, limit: nat, r: Result)
    requires LooksOld(s) && SearchOf(s, limit, r)
    ensures Grew(s, RARE) && HeldGrowth(s, RARE) * Changed(s) != {} && !Accounted(s, r, RARE)
  {
    hide Held, Changed, ClassReports, CopiesReported, SearchOf, HeldGrowth;
    NothingSuppressed(s);
    NothingFound(s, limit, r);
    var p :| p in HeldGrowth(s, RARE) * Changed(s);
    assert !CopyReported(s, r.files, p);
  }

  /** At the limit per request: the new pair is not seen. */
  lemma CutAfterMisses(limit: nat, r: Result)
    requires SearchOf(CUT_AFTER, limit, r)
    ensures r.after.requestTruncated && Grew(CUT_AFTER, RARE) && !Accounted(CUT_AFTER, r, RARE)
  {
    CutAfterLooksOld();
    hide SearchOf, LooksOld, TallyOf, Grew, Accounted;
    SearchCounts(CUT_AFTER, limit, r);
    MissesGrowth(CUT_AFTER, limit, r);
  }

  lemma CutAfterLooksOld()
    ensures LooksOld(CUT_AFTER) && TallyOf(CUT_AFTER.after, |CUT_AFTER.after|).requestTruncated
  {
    CutAfterSides();
    EditedChanges(Full(Sparse([100], false)), Full(Sparse([101], true)));
    FullContents();
    PairViewed([101]);
    hide Held, View, Changed, TallyOf, Full, Sparse, DistinctContents, LooksOld, Grown, Sort, Pair;
    GrowthUnseen(CUT_AFTER);
  }

  lemma GrowthUnseen(s: Snapshots)
    requires Grew(s, RARE) && [49] in HeldGrowth(s, RARE) && Changed(s) == {[49]} && DistinctContents(s.after)
    requires forall k :: View(s, k, true) == View(s, k, false) || View(s, k, true) == []
    ensures LooksOld(s)
  {
    hide Held, View, Changed, DistinctContents, HeldGrowth, Grew, ClassReports;
    assert [49] in HeldGrowth(s, RARE) * Changed(s);
    forall k ensures !ClassReports(s, k) {
      UngrownUnreported(s, k);
    }
  }

  lemma UngrownUnreported(s: Snapshots, k: Class)
    requires View(s, k, true) == View(s, k, false) || View(s, k, true) == []
    ensures !ClassReports(s, k)
  {
    hide View, Changed, Suppressed, Grown;
  }

  lemma CutAfterSides()
    ensures Held(CUT_AFTER, RARE, false) == [] && Held(CUT_AFTER, RARE, true) == Pair([101])
    ensures forall k :: View(CUT_AFTER, k, false) == View(CUT_AFTER, k, true)
    ensures TallyOf(CUT_AFTER.after, |CUT_AFTER.after|).requestTruncated
  {
    FullSnapshot([100], false);
    FullSnapshot([101], true);
    assert OccurrencesIn(Sparse([100], false), map[]) == [];
    assert |CUT_AFTER.before| == |CUT_AFTER.after| == 50;
    hide Offered, Listed, Kept, OfClass, Sort, PlaceLess, TallyOf, DenseOffered, Full, Sparse, OccurrencesIn;
  }

  lemma FullContents()
    ensures DistinctContents(Full(Sparse([101], true)))
  {
    var files := Full(Sparse([101], true));
    forall i, j | 0 <= i < j < |files| ensures files[i].content != files[j].content {
      assert files[i].content == [i];
      assert files[j].content == if j < 49 then [j] else [101];
      assert files[i].content[0] != files[j].content[0];
    }
  }

  /** At the limit per file: the file grew from two to thousands, and is left out. */
  lemma CrowdedAfterMisses(limit: nat, r: Result)
    requires SearchOf(CROWDED_AFTER, limit, r)
    ensures !r.before.requestTruncated && !r.after.requestTruncated
    ensures Grew(CROWDED_AFTER, RARE) && !Accounted(CROWDED_AFTER, r, RARE)
  {
    CrowdedAfterLooksOld();
    hide SearchOf, LooksOld, TallyOf, Grew, Accounted;
    SearchCounts(CROWDED_AFTER, limit, r);
    MissesGrowth(CROWDED_AFTER, limit, r);
  }

  lemma CrowdedAfterLooksOld()
    ensures LooksOld(CROWDED_AFTER)
    ensures !TallyOf(CROWDED_AFTER.before, |CROWDED_AFTER.before|).requestTruncated
    ensures !TallyOf(CROWDED_AFTER.after, |CROWDED_AFTER.after|).requestTruncated
  {
    var s := CROWDED_AFTER;
    CrowdedSides();
    EditedChanges([Sparse([100], true)], [Crowded([101])]);
    PairViewed([100]);
    CrowdedGrows();
    CrowdedAlone([101], RARE);
    hide Held, View, Pair, Changed, TallyOf, Sparse, Crowded, Grown, OccurrencesIn, LooksOld, Sort;
    assert DistinctContents(s.after);
    GrowthUnseen(s);
  }

  lemma CrowdedSides()
    ensures Held(CROWDED_AFTER, RARE, false) == Pair([100])
    ensures Held(CROWDED_AFTER, RARE, true) == OccurrencesIn(Crowded([101]), map[])
    ensures forall k :: View(CROWDED_AFTER, k, true) == []
    ensures !TallyOf(CROWDED_AFTER.before, |CROWDED_AFTER.before|).requestTruncated
    ensures !TallyOf(CROWDED_AFTER.after, |CROWDED_AFTER.after|).requestTruncated
  {
    var s := CROWDED_AFTER;
    CrowdedAlone([101], RARE);
    SparseAlone([100], RARE);
    hide Listed, OfClass, Viewed, TallyOf, Sparse, Crowded, OccurrencesIn;
    forall k ensures View(s, k, true) == [] {
      CrowdedAlone([101], k);
    }
  }

  lemma CrowdedGrows()
    ensures [49] in Grown(Pair([100]), OccurrencesIn(Crowded([101]), map[]))
  {
    PairPaths(Pair([100]));
    var s := OccurrencesIn(Crowded([101]), map[]);
    OnePath(s);
    hide PathsIn, Crowded;
    PathsInSize(s);
  }

  lemma {:induction false} OnePath(s: seq<Occurrence>)
    requires forall i :: 0 <= i < |s| ==> s[i].path == [49]
    ensures PathsIn(s)[[49]] == |s|
  {
    if s != [] {
      OnePath(s[..|s| - 1]);
    }
  }
}
