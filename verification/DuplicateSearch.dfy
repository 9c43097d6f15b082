/** The search for introduced duplicates from the snapshots on: file groups, callable views, findings
    within one limit, and what they say about the snapshots themselves. */
module DuplicateSearch {
  import opened Collections
  import opened Coverage
  import opened Duplicates
  import opened Sorting
  import opened TextOrder

  datatype Snapshots = Snapshots(before: seq<File>, after: seq<File>, continuity: map<Path, Path>,
                                 changedPaths: set<Path>, minimum: nat)

  datatype Result = Result(files: seq<FileFinding>, callables: seq<Finding>, truncated: bool, before: Tally, after: Tally)

  /** `canonical_changed_paths` */
  function Changed(s: Snapshots): set<Path> {
    set p | p in s.changedPaths :: Renamed(s.continuity, p)
  }

  function ClassKey(c: Class): Key {
    [c.family, c.digest]
  }

  predicate ClassLess(a: Class, b: Class) {
    KeyLess(ClassKey(a), ClassKey(b))
  }

  lemma ClassIsOrder()
    ensures StrictWeak(ClassLess)
    ensures forall m: multiset<Class> :: RankInjective(ClassLess, m)
  {
    forall a, b | ClassKey(a) == ClassKey(b) ensures a == b {
      assert ClassKey(a)[0] == a.family && ClassKey(a)[1] == a.digest;
      assert ClassKey(b)[0] == b.family && ClassKey(b)[1] == b.digest;
    }
    OrderByKey(ClassLess, ClassKey);
  }

  // What the snapshots hold: every callable that the facts of their files list.

  /** The callables that the facts of the first `n` files list, whatever their status and number. */
  function Listed(files: seq<File>, continuity: map<Path, Path>, n: nat): seq<Occurrence>
    requires n <= |files|
  {
    if n == 0 then []
    else if files[n - 1].facts.Some?
    then Listed(files, continuity, n - 1) + OccurrencesIn(files[n - 1], continuity)
    else Listed(files, continuity, n - 1)
  }

  function FilesOn(s: Snapshots, after: bool): seq<File> {
    if after then s.after else s.before
  }

  function ContinuityOn(s: Snapshots, after: bool): map<Path, Path> {
    if after then map[] else s.continuity
  }

  /** The callables of a class, before and after. */
  function Held(s: Snapshots, k: Class, after: bool): seq<Occurrence> {
    OfClass(Listed(FilesOn(s, after), ContinuityOn(s, after), |FilesOn(s, after)|), k)
  }

  /** Those that the view holds. */
  function View(s: Snapshots, k: Class, after: bool): seq<Occurrence> {
    Viewed(FilesOn(s, after), ContinuityOn(s, after), k)
  }

  /** The view of this side was cut at the request limit. */
  function Cut(s: Snapshots, after: bool): bool {
    TallyOf(FilesOn(s, after), |FilesOn(s, after)|).requestTruncated
  }

  /** The facts list callables of the file, but the view leaves them out: the file was over the
      per-file limit, or its status is not complete. */
  predicate Skipped(f: File) {
    f.facts.Some? && f.facts.value.callables != [] && !Collected(f)
  }

  /** The view of this side leaves nothing out. */
  predicate Unlimited(s: Snapshots, after: bool) {
    !Cut(s, after) && forall i :: 0 <= i < |FilesOn(s, after)| ==> !Skipped(FilesOn(s, after)[i])
  }

  /** The view of this side leaves nothing of the class out. */
  predicate Whole(s: Snapshots, k: Class, after: bool) {
    |View(s, k, after)| == |Held(s, k, after)|
  }

  function CopiesBefore(s: Snapshots, id: ContentId): set<Path> {
    PathsOf(s.before, s.minimum, s.continuity, id)
  }

  function CopiesAfter(s: Snapshots, id: ContentId): set<Path> {
    PathsOf(s.after, s.minimum, map[], id)
  }

  function NewCopies(s: Snapshots, id: ContentId): set<Path> {
    CopiesAfter(s, id) - CopiesBefore(s, id)
  }

  predicate CopiesReported(s: Snapshots, id: ContentId) {
    && |CopiesAfter(s, id)| >= 2 && |CopiesAfter(s, id)| > |CopiesBefore(s, id)|
    && NewCopies(s, id) * Changed(s) != {}
  }

  /** The new copies of the contents that are reportable as identical files. */
  function Suppressed(s: Snapshots): set<Path> {
    set f, p | f in s.after && CopiesReported(s, f.content) && p in NewCopies(s, f.content) :: p
  }

  /** The class is reportable in the views. */
  predicate ClassReports(s: Snapshots, k: Class) {
    Reportable(View(s, k, false), View(s, k, true), Changed(s), Suppressed(s))
  }

  // The view of a class against what the snapshot holds.

  lemma {:induction false} PathsInPrefix(s: seq<Occurrence>, n: nat)
    requires n <= |s|
    ensures PathsIn(s[..n]) <= PathsIn(s)
  {
    if n < |s| {
      PathsInPrefix(s[..|s| - 1], n);
      assert s[..|s| - 1][..n] == s[..n];
    } else {
      assert s[..n] == s;
    }
  }

  lemma {:induction false} OfClassPrefix(s: seq<Occurrence>, n: nat, k: Class) returns (m: nat)
    requires n <= |s|
    ensures m <= |OfClass(s, k)| && OfClass(s[..n], k) == OfClass(s, k)[..m]
  {
    if n < |s| {
      m := OfClassPrefix(s[..|s| - 1], n, k);
      assert s[..|s| - 1][..n] == s[..n];
    } else {
      assert s[..n] == s;
      m := |OfClass(s, k)|;
    }
  }

  lemma {:induction false} PathsInPermutation(s: seq<Occurrence>, t: seq<Occurrence>)
    requires multiset(s) == multiset(t)
    ensures PathsIn(s) == PathsIn(t)
  {
    if s == [] {
      assert |multiset(t)| == 0;
    } else {
      var x := s[|s| - 1];
      assert s == s[..|s| - 1] + [x];
      assert x in multiset(t);
      var i :| 0 <= i < |t| && t[i] == x;
      var u := t[..i] + t[i + 1..];
      assert t == t[..i] + [x] + t[i + 1..];
      assert multiset(u) == multiset(t) - multiset{x};
      PathsInPermutation(s[..|s| - 1], u);
      PathsInInsert(t[..i], x, t[i + 1..]);
    }
  }

  lemma PathsInMore(s: seq<Occurrence>, x: Occurrence)
    ensures PathsIn(s + [x]) == PathsIn(s) + multiset{x.path}
  {
    assert (s + [x])[..|s|] == s;
  }

  lemma {:induction false} PathsInInsert(a: seq<Occurrence>, x: Occurrence, b: seq<Occurrence>)
    ensures PathsIn(a + [x] + b) == PathsIn(a + b) + multiset{x.path}
    decreases |b|
  {
    hide PathsIn;
    if b == [] {
      assert a + [x] + b == a + [x] && a + b == a;
      PathsInMore(a, x);
    } else {
      var c, y := b[..|b| - 1], b[|b| - 1];
      PathsInInsert(a, x, c);
      assert a + [x] + b == (a + [x] + c) + [y] && a + b == (a + c) + [y];
      PathsInMore(a + [x] + c, y);
      PathsInMore(a + c, y);
    }
  }

  lemma {:induction false} PathsInAppend(a: seq<Occurrence>, b: seq<Occurrence>)
    ensures PathsIn(a + b) == PathsIn(a) + PathsIn(b)
    decreases |b|
  {
    if b == [] {
      assert a + b == a;
    } else {
      hide PathsIn;
      var c, y := b[..|b| - 1], b[|b| - 1];
      assert b == c + [y];
      PathsInAppend(a, c);
      PathsInAppendOne(a, c, y);
    }
  }

  lemma PathsInAppendOne(a: seq<Occurrence>, c: seq<Occurrence>, y: Occurrence)
    requires PathsIn(a + c) == PathsIn(a) + PathsIn(c)
    ensures PathsIn(a + (c + [y])) == PathsIn(a) + PathsIn(c + [y])
  {
    hide PathsIn;
    assert a + (c + [y]) == (a + c) + [y];
    PathsInMore(a + c, y);
    PathsInMore(c, y);
  }

  lemma {:induction false} OfClassAppend(a: seq<Occurrence>, b: seq<Occurrence>, k: Class)
    ensures OfClass(a + b, k) == OfClass(a, k) + OfClass(b, k)
  {
    if b == [] {
      assert a + b == a;
    } else {
      var c := b[..|b| - 1];
      OfClassAppend(a, c, k);
      assert (a + b)[..|a + b| - 1] == a + c;
    }
  }

  /** The offered callables of a class are among the listed ones. */
  lemma {:induction false} OfferedWithin(files: seq<File>, continuity: map<Path, Path>, n: nat, k: Class)
    requires n <= |files|
    ensures PathsIn(OfClass(Offered(files, continuity, n), k)) <= PathsIn(OfClass(Listed(files, continuity, n), k))
  {
    hide PathsIn, OfClass;
    if n > 0 {
      OfferedWithin(files, continuity, n - 1, k);
      if files[n - 1].facts.Some? {
        var more := OccurrencesIn(files[n - 1], continuity);
        OfClassAppend(Offered(files, continuity, n - 1), more, k);
        OfClassAppend(Listed(files, continuity, n - 1), more, k);
        PathsInAppend(OfClass(Offered(files, continuity, n - 1), k), OfClass(more, k));
        PathsInAppend(OfClass(Listed(files, continuity, n - 1), k), OfClass(more, k));
      }
    } else {
      assert Offered(files, continuity, n) == Listed(files, continuity, n);
    }
  }

  /** If no file is skipped, all that is listed is offered. */
  lemma {:induction false} AllOffered(files: seq<File>, continuity: map<Path, Path>, n: nat)
    requires n <= |files| && forall i :: 0 <= i < n ==> !Skipped(files[i])
    ensures Offered(files, continuity, n) == Listed(files, continuity, n)
  {
    if n > 0 {
      AllOffered(files, continuity, n - 1);
    }
  }

  /** A view counts, in all and per path, no more of a class than the snapshot holds; and the same per
      path if it counts the same in all. */
  lemma ViewCounts(s: Snapshots, k: Class, after: bool)
    ensures |View(s, k, after)| <= |Held(s, k, after)|
    ensures PathsIn(View(s, k, after)) <= PathsIn(Held(s, k, after))
    ensures Whole(s, k, after) ==> PathsIn(View(s, k, after)) == PathsIn(Held(s, k, after))
  {
    var files, continuity := FilesOn(s, after), ContinuityOn(s, after);
    var offered := Offered(files, continuity, |files|);
    var n := |Kept(offered)|;
    assert Kept(offered) == offered[..n];
    OfferedWithin(files, continuity, |files|, k);
    hide Offered, Listed, Kept, Sort, OfClass, PathsIn;
    var seen := OfClass(Kept(offered), k);
    PlaceIsOrder();
    SortSorts(PlaceLess, seen);
    PathsInPermutation(View(s, k, after), seen);
    var m := OfClassPrefix(offered, n, k);
    PathsInPrefix(OfClass(offered, k), m);
    PathsInSize(View(s, k, after));
    PathsInSize(Held(s, k, after));
    Included(PathsIn(View(s, k, after)), PathsIn(Held(s, k, after)));
    if Whole(s, k, after) {
      SameSizeSubset(PathsIn(View(s, k, after)), PathsIn(Held(s, k, after)));
    }
  }

  /** A view that leaves nothing out leaves nothing of any class out. */
  lemma UnlimitedIsWhole(s: Snapshots, k: Class, after: bool)
    requires Unlimited(s, after)
    ensures Whole(s, k, after)
  {
    var files, continuity := FilesOn(s, after), ContinuityOn(s, after);
    AllOffered(files, continuity, |files|);
    OfferedTotal(files, continuity, |files|);
    hide Offered, Listed;
    PlaceIsOrder();
    SortSorts(PlaceLess, Held(s, k, after));
  }

  /** The coverage tells: if every file is complete and the request limit was not reached, nothing was
      left out. */
  lemma CoverageTells(s: Snapshots, after: bool)
    requires var t := TallyOf(FilesOn(s, after), |FilesOn(s, after)|); t.complete == t.files && !t.requestTruncated
    ensures Unlimited(s, after)
  {
    AllComplete(FilesOn(s, after), |FilesOn(s, after)|);
  }

  lemma {:induction false} AllComplete(files: seq<File>, n: nat)
    requires n <= |files|
    ensures CountStatus(files, Complete, n) <= n
    ensures CountStatus(files, Complete, n) == n ==> forall i :: 0 <= i < n ==> StatusOf(files[i]) == Complete
  {
    if n > 0 {
      AllComplete(files, n - 1);
    }
  }

  // The search.

  /** Identical files: what is found, and which paths the callable search then leaves alone. */
  method SearchFiles(s: Snapshots, limit: nat) returns (files: seq<FileFinding>, suppressed: set<Path>, truncated: bool)
    ensures |files| <= limit && (truncated ==> |files| == limit) && suppressed == Suppressed(s)
    ensures FilesSound(s, files, truncated)
  {
    hide GroupsOf, StrictWeak, RankInjective, PathsOf, Suppressed, FilesSound, FileReported, FileSuppressed;
    var before := FileGroups(s.before, s.minimum, s.continuity);
    var after := FileGroups(s.after, s.minimum, map[]);
    TextIsOrder();
    var contents := ListSet(TextLess, after.Keys);
    forall i, j | 0 <= i < j < |contents| ensures TextLess(contents[i], contents[j]) {
      ListingStrict(TextLess, after.Keys, i, j);
    }
    var fc := FileComparison(before, after, Changed(s));
    files, suppressed, truncated := IdenticalFileFindings(fc, contents, limit);
    SuppressedAgree(s, fc, contents);
    FilesAreSound(s, fc, contents, limit, files, truncated);
  }

  method SearchCallables(s: Snapshots, suppressed: set<Path>, limit: nat)
    returns (callables: seq<Finding>, truncated: bool, before: Tally, after: Tally)
    requires suppressed == Suppressed(s)
    ensures before == TallyOf(s.before, |s.before|) && after == TallyOf(s.after, |s.after|)
    ensures |callables| <= limit && (truncated ==> |callables| == limit) && CallablesSound(s, callables, truncated)
  {
    hide StrictWeak, RankInjective, TallyOf, Viewed, Suppressed, CallablesSound, Reported, Changed;
    var viewBefore, viewAfter;
    viewBefore, before := CallableView(s.before, s.continuity);
    viewAfter, after := CallableView(s.after, map[]);
    ClassIsOrder();
    var classes := ListSet(ClassLess, viewAfter.Keys);
    forall i, j | 0 <= i < j < |classes| ensures ClassLess(classes[i], classes[j]) {
      ListingStrict(ClassLess, viewAfter.Keys, i, j);
    }
    var c := Comparison(viewBefore, viewAfter, Changed(s), suppressed);
    callables, truncated := CallableFindings(c, classes, limit);
    CallablesAreSound(s, c, classes, limit, callables, truncated);
  }

  /** The whole search, but for token regions: both parts share the limit. */
  method Search(s: Snapshots, limit: nat) returns (r: Result)
    ensures SearchOf(s, limit, r)
  {
    hide Suppressed, TallyOf, ClassReports, Names, Founded, CopyReported, CopiesReported, FileCounted;
    hide CallablesOrdered, TextLess, NamesContent;
    var files, suppressed, filesTruncated := SearchFiles(s, limit);
    var callables, callablesTruncated, before, after := SearchCallables(s, suppressed, limit - |files|);
    r := Result(files, callables, filesTruncated || callablesTruncated, before, after);
  }

  /** What the search returns for these snapshots. */
  ghost predicate SearchOf(s: Snapshots, limit: nat, r: Result) {
    && r.before == TallyOf(s.before, |s.before|) && r.after == TallyOf(s.after, |s.after|)
    && |r.files| + |r.callables| <= limit && (r.truncated ==> |r.files| + |r.callables| == limit)
    && (forall f :: f in r.files ==> CopiesReported(s, f.content) && FileCounted(s, f))
    && (forall p :: p in Suppressed(s) ==> r.truncated || CopyReported(s, r.files, p))
    && (forall k :: ClassReports(s, k) ==> r.truncated || Names(r.callables, k))
    && (forall f :: f in r.callables ==> Founded(s, f))
    && (r.truncated ==> (exists k :: ClassReports(s, k)) || (exists id :: CopiesReported(s, id)))
    && FilesOrdered(s, r.files, r.truncated) && CallablesOrdered(s, r.callables)
  }

  /** The file findings are reportable, and every suppressed path is a new copy in one of them unless
      some were left out. */
  ghost predicate FilesSound(s: Snapshots, files: seq<FileFinding>, truncated: bool) {
    && (forall f :: f in files ==> CopiesReported(s, f.content) && FileCounted(s, f))
    && (forall p :: p in Suppressed(s) ==> truncated || CopyReported(s, files, p))
    && (truncated ==> exists id :: CopiesReported(s, id)) && FilesOrdered(s, files, truncated)
  }

  /** The findings are in the order of the contents; a reportable content without a finding comes later and
      was left out. */
  ghost predicate FilesOrdered(s: Snapshots, files: seq<FileFinding>, truncated: bool) {
    && (forall i, j :: 0 <= i < j < |files| ==> TextLess(files[i].content, files[j].content))
    && (forall id :: CopiesReported(s, id) && !NamesContent(files, id) ==>
          truncated && forall i :: 0 <= i < |files| ==> TextLess(files[i].content, id))
  }

  ghost predicate NamesContent(files: seq<FileFinding>, id: ContentId) {
    exists i :: 0 <= i < |files| && files[i].content == id
  }

  /** The callable findings are exactly about the reportable classes, unless some were left out. */
  ghost predicate CallablesSound(s: Snapshots, callables: seq<Finding>, truncated: bool) {
    && (forall k :: ClassReports(s, k) ==> truncated || Names(callables, k))
    && (forall f :: f in callables ==> Founded(s, f))
    && (truncated ==> exists k :: ClassReports(s, k)) && CallablesOrdered(s, callables)
  }

  /** The findings are in the order of the classes, and a reportable class without a finding comes later. */
  ghost predicate CallablesOrdered(s: Snapshots, callables: seq<Finding>) {
    && (forall i, j :: 0 <= i < j < |callables| ==> ClassLess(callables[i].group, callables[j].group))
    && (forall k :: ClassReports(s, k) && !Names(callables, k) ==>
          forall i :: 0 <= i < |callables| ==> ClassLess(callables[i].group, k))
  }

  /** Some finding is about the class. */
  ghost predicate Names(callables: seq<Finding>, k: Class) {
    exists f :: f in callables && f.group == k
  }

  /** The finding is about a class that is reportable in the views, with the counts of the views, and
      shows a changed occurrence first. */
  ghost predicate Founded(s: Snapshots, f: Finding) {
    && ClassReports(s, f.group)
    && f.before == |View(s, f.group, false)| && f.after == |View(s, f.group, true)|
    && f.occurrences != [] && f.occurrences[0].changed && Shows(s, f)
  }

  /** The finding shows the first five occurrences of the class in the after view, those on changed paths
      before the others, and the length of the first of them all. */
  ghost predicate Shows(s: Snapshots, f: Finding) {
    var after := View(s, f.group, true);
    after != [] && f.tokens == Some(after[0].tokens)
    && ShowsFirst(f.occurrences, f.occurrencesTruncated, Marked(after, Changed(s)))
  }

  /** The finding has the counts of the copies, the size of one of them, and shows the first five. */
  ghost predicate FileCounted(s: Snapshots, f: FileFinding) {
    && f.before == |CopiesBefore(s, f.content)| && f.after == |CopiesAfter(s, f.content)|
    && SizeOf(s.after, s.minimum, f.content, f.bytes)
    && exists paths :: ListsCopies(s, f.content, paths)
                       && ShowsFirst(f.occurrences, f.occurrencesTruncated, MarkedPaths(paths, Changed(s)))
  }

  ghost predicate ListsCopies(s: Snapshots, id: ContentId, paths: seq<Path>) {
    multiset(paths) == multiset(CopiesAfter(s, id))
  }

  /** The path is a new copy of a file in a reported class of identical files. */
  ghost predicate CopyReported(s: Snapshots, files: seq<FileFinding>, p: Path) {
    exists f :: f in files && p in NewCopies(s, f.content)
  }

  /** The groups are those of the snapshots. */
  ghost predicate FilesOf(s: Snapshots, fc: FileComparison) {
    && GroupsOf(fc.before, s.before, s.minimum, s.continuity) && GroupsOf(fc.after, s.after, s.minimum, map[])
    && fc.changed == Changed(s)
  }

  lemma FilesAgree(s: Snapshots, fc: FileComparison, id: ContentId)
    requires FilesOf(s, fc)
    ensures GroupPaths(fc.before, id) == CopiesBefore(s, id) && GroupPaths(fc.after, id) == CopiesAfter(s, id)
    ensures Introduced(fc, id) == NewCopies(s, id) && (FileReports(fc, id) <==> CopiesReported(s, id))
    ensures CopiesReported(s, id) ==> id in fc.after
  {
    assert GroupPaths(fc.before, id) == PathsOf(s.before, s.minimum, s.continuity, id);
    assert GroupPaths(fc.after, id) == PathsOf(s.after, s.minimum, map[], id);
  }

  lemma SuppressedAgree(s: Snapshots, fc: FileComparison, order: seq<ContentId>)
    requires FilesOf(s, fc) && forall id :: id in order <==> id in fc.after
    ensures FileSuppressed(fc, order, |order|) == Suppressed(s)
  {
    hide FilesOf, CopiesReported, NewCopies, Introduced, FileReports;
    forall p ensures p in FileSuppressed(fc, order, |order|) <==> p in Suppressed(s) {
      SuppressedExact(fc, order, |order|, p);
      if p in FileSuppressed(fc, order, |order|) {
        var i: nat :| i < |order| && FileReports(fc, order[i]) && p in Introduced(fc, order[i]);
        FilesAgree(s, fc, order[i]);
        var f := FileOf(s, order[i]);
      }
      if p in Suppressed(s) {
        var f :| f in s.after && CopiesReported(s, f.content) && p in NewCopies(s, f.content);
        FilesAgree(s, fc, f.content);
        assert f.content in order;
        var i: nat :| i < |order| && order[i] == f.content;
        assert FileReports(fc, order[i]) && p in Introduced(fc, order[i]);
      }
    }
  }

  lemma FileOf(s: Snapshots, id: ContentId) returns (f: File)
    requires CopiesReported(s, id)
    ensures f in s.after && f.content == id
  {
    var p :| p in CopiesAfter(s, id);
    f :| f in s.after && f.bytes >= s.minimum && f.content == id && Renamed(map[], f.path) == p;
  }

  lemma FileIsCounted(s: Snapshots, fc: FileComparison, f: FileFinding)
    requires FilesOf(s, fc) && FileReports(fc, f.content) && f == FileFindingOf(fc, f.content)
    ensures CopiesReported(s, f.content) && FileCounted(s, f)
  {
    hide CopiesReported, FileReports, Bounded, MarkedPaths, PathsOf, ShowsFirst, StrictWeak, SizeOf;
    FilesAgree(s, fc, f.content);
    TextIsOrder();
    var paths := Listing(TextLess, GroupPaths(fc.after, f.content));
    BoundedShowsFirst(MarkedPaths(paths, fc.changed));
    assert ListsCopies(s, f.content, paths);
    assert SizeOf(s.after, s.minimum, f.content, fc.after[f.content].bytes);
  }

  lemma FilesAreOrdered(s: Snapshots, fc: FileComparison, order: seq<ContentId>, limit: nat,
                        files: seq<FileFinding>, truncated: bool)
    requires FilesOf(s, fc) && forall id :: id in order <==> id in fc.after
    requires forall i, j :: 0 <= i < j < |order| ==> TextLess(order[i], order[j])
    requires files == First(FileReported(fc, order, |order|), limit)
    requires truncated == (|FileReported(fc, order, |order|)| > limit)
    ensures FilesOrdered(s, files, truncated)
  {
    hide FilesOf, CopiesReported, TextLess, FileReports, FileReported;
    var all := FileReported(fc, order, |order|);
    var at := FileReportedAt(fc, order, |order|);
    PickedInOrder(TextLess, order, FileReporting(fc), at, ContentsIn(all), limit);
    hide Picks;
    var first := First(ContentsIn(all), limit);
    assert first == ContentsIn(files);
    forall i, j | 0 <= i < j < |files| ensures TextLess(files[i].content, files[j].content) {
      assert TextLess(first[i], first[j]);
    }
    forall id | CopiesReported(s, id) && !NamesContent(files, id)
      ensures truncated && forall i :: 0 <= i < |files| ==> TextLess(files[i].content, id)
    {
      FilesAgree(s, fc, id);
      assert FileReporting(fc)(id) && id in order;
      assert id !in first;
      forall i | 0 <= i < |files| ensures TextLess(files[i].content, id) {
        assert TextLess(first[i], id);
      }
    }
  }

  lemma FilesAreSound(s: Snapshots, fc: FileComparison, order: seq<ContentId>, limit: nat,
                      files: seq<FileFinding>, truncated: bool)
    requires FilesOf(s, fc) && forall id :: id in order <==> id in fc.after
    requires forall i, j :: 0 <= i < j < |order| ==> TextLess(order[i], order[j])
    requires files == First(FileReported(fc, order, |order|), limit)
    requires truncated == (|FileReported(fc, order, |order|)| > limit)
    ensures FilesSound(s, files, truncated)
  {
    hide FilesOf, CopiesReported, NewCopies, Introduced, FileReports, FileSuppressed, Suppressed, FileCounted;
    hide FileFindingOf, FilesOrdered;
    FilesAreOrdered(s, fc, order, limit, files, truncated);
    forall f | f in files ensures CopiesReported(s, f.content) && FileCounted(s, f) {
      FileReportedExact(fc, order, |order|, f);
      FileIsCounted(s, fc, f);
    }
    SuppressedAgree(s, fc, order);
    forall p | p in Suppressed(s) && !truncated ensures CopyReported(s, files, p) {
      var f := SuppressedAccountedFor(fc, order, limit, p);
      FilesAgree(s, fc, f.content);
    }
    if truncated {
      var f := FileReported(fc, order, |order|)[0];
      FileReportedExact(fc, order, |order|, f);
      FilesAgree(s, fc, f.content);
    }
  }

  ghost predicate ViewsOf(s: Snapshots, c: Comparison) {
    && (forall k :: Members(c.before, k) == View(s, k, false)) && (forall k :: Members(c.after, k) == View(s, k, true))
    && c.changed == Changed(s) && c.suppressed == Suppressed(s)
  }

  lemma CallablesAreSound(s: Snapshots, c: Comparison, order: seq<Class>, limit: nat,
                          callables: seq<Finding>, truncated: bool)
    requires ViewsOf(s, c) && forall k :: k in order <==> k in c.after
    requires forall i, j :: 0 <= i < j < |order| ==> ClassLess(order[i], order[j])
    requires callables == First(Reported(c, order, |order|), limit)
    requires truncated == (|Reported(c, order, |order|)| > limit)
    ensures CallablesSound(s, callables, truncated)
  {
    hide View, Reportable, Changed, Suppressed, Bounded, Marked, Shows, CallablesOrdered, ClassLess;
    CallablesAreOrdered(s, c, order, limit, callables);
    forall k | ClassReports(s, k) && !truncated ensures Names(callables, k) {
      assert Members(c.before, k) == View(s, k, false) && Members(c.after, k) == View(s, k, true);
      ReportableHas(Members(c.before, k), Members(c.after, k), c.changed, c.suppressed);
      assert k in order;
      ReportedFinding(c, order, k);
      assert FindingOf(c, k) in callables && FindingOf(c, k).group == k;
    }
    forall f | f in callables ensures Founded(s, f) {
      NoReportWithoutGrowth(c, order, limit, f);
      assert Members(c.before, f.group) == View(s, f.group, false) && Members(c.after, f.group) == View(s, f.group, true);
      FindingShows(s, c, f);
    }
    if truncated {
      var f := Reported(c, order, |order|)[0];
      ReportedExact(c, order, |order|, f);
      assert Members(c.before, f.group) == View(s, f.group, false) && Members(c.after, f.group) == View(s, f.group, true);
      assert ClassReports(s, f.group);
    }
  }

  lemma FindingShows(s: Snapshots, c: Comparison, f: Finding)
    requires ViewsOf(s, c) && f == FindingOf(c, f.group) && View(s, f.group, true) != []
    ensures Shows(s, f)
  {
    hide View, Changed, Suppressed, Bounded, Marked, ShowsFirst;
    assert Members(c.after, f.group) == View(s, f.group, true);
    BoundedShowsFirst(Marked(View(s, f.group, true), Changed(s)));
  }

  lemma CallablesAreOrdered(s: Snapshots, c: Comparison, order: seq<Class>, limit: nat, callables: seq<Finding>)
    requires ViewsOf(s, c) && forall k :: k in order <==> k in c.after
    requires forall i, j :: 0 <= i < j < |order| ==> ClassLess(order[i], order[j])
    requires callables == First(Reported(c, order, |order|), limit)
    ensures CallablesOrdered(s, callables)
  {
    hide View, Reportable, Changed, Suppressed, ClassLess, Reported;
    var all := Reported(c, order, |order|);
    var at := ReportedAt(c, order, |order|);
    PickedInOrder(ClassLess, order, Reporting(c), at, ClassesIn(all), limit);
    hide Picks;
    var first := First(ClassesIn(all), limit);
    assert first == ClassesIn(callables);
    forall i, j | 0 <= i < j < |callables| ensures ClassLess(callables[i].group, callables[j].group) {
      assert ClassLess(first[i], first[j]);
    }
    forall k, i | ClassReports(s, k) && !Names(callables, k) && 0 <= i < |callables|
      ensures ClassLess(callables[i].group, k)
    {
      assert Members(c.before, k) == View(s, k, false) && Members(c.after, k) == View(s, k, true);
      ReportableHas(Members(c.before, k), Members(c.after, k), c.changed, c.suppressed);
      assert Reporting(c)(k) && k in order;
      forall j | 0 <= j < |first| ensures first[j] != k {
        assert callables[j] in callables && callables[j].group == first[j];
      }
      assert k !in first;
      assert ClassLess(first[i], k);
    }
  }

  lemma ReportableHas(before: seq<Occurrence>, after: seq<Occurrence>, changed: set<Path>, suppressed: set<Path>)
    requires Reportable(before, after, changed, suppressed)
    ensures |after| >= 2
  {
  }

  // What the findings say about the snapshots.

  /** The paths on which the snapshots hold more callables of the class than before. */
  function HeldGrowth(s: Snapshots, k: Class): set<Path> {
    Grown(Held(s, k, false), Held(s, k, true))
  }

  /** The snapshots hold more callables of the class than before, and at least two. */
  predicate Grew(s: Snapshots, k: Class) {
    |Held(s, k, true)| >= 2 && |Held(s, k, true)| > |Held(s, k, false)|
  }

  /** The class is reported, or findings were left out, or every path on which it grew is a new copy
      of a file in a reported class of identical files. */
  ghost predicate Accounted(s: Snapshots, r: Result, k: Class) {
    r.truncated || Names(r.callables, k) || forall p :: p in HeldGrowth(s, k) ==> CopyReported(s, r.files, p)
  }

  /** The snapshots hold more callables of the finding's class than before, on a changed path. */
  ghost predicate Grounded(s: Snapshots, f: Finding) {
    && f.before == |Held(s, f.group, false)| < f.after <= |Held(s, f.group, true)|
    && exists p :: p in HeldGrowth(s, f.group) && p in Changed(s)
  }

  /** Unless the after view leaves out some of it, a class that grew to two or more, on some changed
      path, is accounted for. */
  lemma GrowthIsAccounted(s: Snapshots, limit: nat, r: Result, k: Class)
    requires SearchOf(s, limit, r) && Whole(s, k, true)
    requires Grew(s, k) && HeldGrowth(s, k) * Changed(s) != {}
    ensures Accounted(s, r, k)
  {
    hide Held, View, PathsIn, Changed, Suppressed, Names, CopyReported, CopiesReported, FileCounted, Founded, TallyOf;
    var before, after := View(s, k, false), View(s, k, true);
    ViewCounts(s, k, false);
    ViewCounts(s, k, true);
    assert HeldGrowth(s, k) <= Grown(before, after);
    var p :| p in HeldGrowth(s, k) * Changed(s);
    assert p in Grown(before, after) * Changed(s);
    if !(Grown(before, after) <= Suppressed(s)) {
      assert ClassReports(s, k);
    }
  }

  /** A finding says how many of its class the snapshots held before, and is about growth on a changed
      path, exactly when the before view leaves nothing of the class out. */
  lemma FindingsAreGrounded(s: Snapshots, limit: nat, r: Result, f: Finding)
    requires SearchOf(s, limit, r) && f in r.callables
    ensures Grounded(s, f) <==> Whole(s, f.group, false)
  {
    hide Held, View, PathsIn, Changed, Suppressed, Names, CopyReported, CopiesReported, FileCounted, TallyOf;
    var k := f.group;
    var before, after := View(s, k, false), View(s, k, true);
    assert Founded(s, f);
    ViewCounts(s, k, false);
    ViewCounts(s, k, true);
    var p :| p in Grown(before, after) * Changed(s);
    assert Whole(s, k, false) ==> p in HeldGrowth(s, k) && p in Changed(s);
  }

  /** Equal snapshots, in which nothing was renamed, have nothing to report. */
  lemma EqualSnapshotsFindNothing(s: Snapshots, limit: nat, r: Result)
    requires SearchOf(s, limit, r) && s.before == s.after && s.continuity == map[]
    ensures r == Result([], [], false, TallyOf(s.before, |s.before|), TallyOf(s.before, |s.before|))
  {
    hide TallyOf, Viewed, Changed, Suppressed, Names, CopyReported, FileCounted;
    forall k ensures !ClassReports(s, k) {
      assert View(s, k, false) == View(s, k, true);
    }
    forall id ensures !CopiesReported(s, id) {
      assert CopiesBefore(s, id) == CopiesAfter(s, id);
    }
    NothingFound(s, limit, r);
  }

  lemma SomeElement<T>(s: seq<T>)
    ensures s == [] || exists x :: x in s
  {
    if s != [] {
      assert s[0] in s;
    }
  }

  /** `introduced_duplicates`, but for token regions: equal snapshots skip the search. Whatever the
      snapshots, growth is accounted for and findings are grounded, class by class, as far as the views
      leave nothing out. */
  method IntroducedDuplicates(s: Snapshots, limit: nat) returns (r: Result)
    ensures r.before == TallyOf(s.before, |s.before|) && r.after == TallyOf(s.after, |s.after|)
    ensures |r.files| + |r.callables| <= limit
    ensures forall k :: Whole(s, k, true) && Grew(s, k) && HeldGrowth(s, k) * Changed(s) != {} ==> Accounted(s, r, k)
    ensures forall f :: f in r.callables ==> (Grounded(s, f) <==> Whole(s, f.group, false))
    ensures s.before == s.after ==> r.files == [] && r.callables == [] && !r.truncated
  {
    hide SearchOf, TallyOf, Held, HeldGrowth, Changed, Accounted, Grounded, Whole;
    if s.before == s.after {
      var t := FingerprintCoverage(s.before);
      r := Result([], [], false, t, t);
      forall k ensures !Grew(s, k) {
        EqualHeld(s, k);
      }
      return;
    }
    r := Search(s, limit);
    SearchCounts(s, limit, r);
    forall k | Whole(s, k, true) && Grew(s, k) && HeldGrowth(s, k) * Changed(s) != {} ensures Accounted(s, r, k) {
      GrowthIsAccounted(s, limit, r, k);
    }
    forall f | f in r.callables ensures Grounded(s, f) <==> Whole(s, f.group, false) {
      FindingsAreGrounded(s, limit, r, f);
    }
  }

  /** Renames do not change how many callables of a class are held. */
  lemma EqualHeld(s: Snapshots, k: Class)
    requires s.before == s.after
    ensures |Held(s, k, true)| == |Held(s, k, false)|
  {
    ListedAlike(s.before, s.continuity, map[], |s.before|);
    hide Listed;
    OfClassAlike(Listed(s.before, s.continuity, |s.before|), Listed(s.before, map[], |s.before|), k);
  }

  /** The same callables, at perhaps other paths. */
  ghost predicate Alike(s: seq<Occurrence>, t: seq<Occurrence>) {
    |s| == |t| && forall i :: 0 <= i < |s| ==> s[i].group == t[i].group
  }

  lemma {:induction false} ListedAlike(files: seq<File>, c: map<Path, Path>, d: map<Path, Path>, n: nat)
    requires n <= |files|
    ensures Alike(Listed(files, c, n), Listed(files, d, n))
  {
    if n > 0 {
      ListedAlike(files, c, d, n - 1);
    }
  }

  lemma {:induction false} OfClassAlike(s: seq<Occurrence>, t: seq<Occurrence>, k: Class)
    requires Alike(s, t)
    ensures |OfClass(s, k)| == |OfClass(t, k)|
  {
    if s != [] {
      OfClassAlike(s[..|s| - 1], t[..|t| - 1], k);
    }
  }

  lemma SearchCounts(s: Snapshots, limit: nat, r: Result)
    requires SearchOf(s, limit, r)
    ensures r.before == TallyOf(s.before, |s.before|) && r.after == TallyOf(s.after, |s.after|)
    ensures |r.files| + |r.callables| <= limit
  {
  }

  lemma NothingFound(s: Snapshots, limit: nat, r: Result)
    requires SearchOf(s, limit, r) && (forall k :: !ClassReports(s, k)) && forall id :: !CopiesReported(s, id)
    ensures r.files == [] && r.callables == [] && !r.truncated
  {
    hide ClassReports, CopiesReported;
    SomeElement(r.files);
    SomeElement(r.callables);
  }
}
