/** The terms of the duplicate search told from the files of the snapshots, and what follows from them:
    moving files finds nothing. */
module DuplicateLaws {
  import opened Collections
  import opened Coverage
  import opened Duplicates
  import opened DuplicateSearch
  import opened Sorting
  import opened TextOrder

  // Statuses.

  /** A file counts as complete when both extractions are and neither is over its limit; without facts or with an
      unsupported extraction it is unsupported; then a parser failure and a truncation count, in this order,
      except that being over a limit comes first. */
  lemma {:induction false} StatusTold(f: File)
    ensures f.facts.None? ==> StatusOf(f) == Unsupported
    ensures f.facts.Some? ==>
              var over := |f.facts.value.callables| > 4096 || f.facts.value.anchors > 4096;
              var one, other := f.facts.value.callableStatus, f.facts.value.regionStatus;
              && (StatusOf(f) == Complete <==> !over && one == other == Complete)
              && (StatusOf(f) == Unsupported <==> !over && (one == Unsupported || other == Unsupported))
              && (StatusOf(f) == ParserFailed
                  <==> !over && one != Unsupported && other != Unsupported && (one == ParserFailed || other == ParserFailed))
  {
  }

  ghost function Statuses(files: seq<File>): seq<Status> {
    seq(|files|, i requires 0 <= i < |files| => StatusOf(files[i]))
  }

  lemma {:induction false} StatusCounted(files: seq<File>, status: Status, n: nat)
    requires n <= |files|
    ensures CountStatus(files, status, n) == multiset(Statuses(files)[..n])[status]
  {
    hide StatusOf;
    if n > 0 {
      StatusCounted(files, status, n - 1);
      var all := Statuses(files);
      assert all[..n] == all[..n - 1] + [all[n - 1]];
    }
  }

  /** The coverage counts the files, those under each status, and the callables offered, up to 200 000. */
  lemma {:induction false} TallyTold(files: seq<File>, continuity: map<Path, Path>)
    ensures var t, all, offered := TallyOf(files, |files|), multiset(Statuses(files)), |Offered(files, continuity, |files|)|;
            && t.files == |files| && t.complete == all[Complete] && t.truncated == all[Truncated]
            && t.failed == all[ParserFailed] && t.unsupported == all[Unsupported]
            && (t.requestTruncated <==> offered > 200_000) && t.callables == if offered > 200_000 then 200_000 else offered
  {
    hide CountStatus;
    assert Statuses(files)[..|files|] == Statuses(files);
    StatusCounted(files, Complete, |files|);
    StatusCounted(files, ParserFailed, |files|);
    StatusCounted(files, Unsupported, |files|);
    StatusCounted(files, Truncated, |files|);
    OfferedTotal(files, continuity, |files|);
  }

  // Counting callables.

  ghost function NewPath(continuity: map<Path, Path>, p: Path): Path {
    if p in continuity then continuity[p] else p
  }

  ghost function WithDigest(callables: seq<Callable>, digest: Digest): nat {
    if callables == [] then 0
    else WithDigest(callables[..|callables| - 1], digest) + if callables[|callables| - 1].digest == digest then 1 else 0
  }

  /** Number of callables of the class that the facts of a file list. */
  ghost function InFile(f: File, k: Class): nat {
    if f.facts.Some? && f.family == k.family then WithDigest(f.facts.value.callables, k.digest) else 0
  }

  ghost function InFiles(files: seq<File>, k: Class): nat {
    if files == [] then 0 else InFiles(files[..|files| - 1], k) + InFile(files[|files| - 1], k)
  }

  /** Number of them on a path. */
  ghost function OnPath(files: seq<File>, continuity: map<Path, Path>, k: Class, p: Path): nat {
    if files == [] then 0
    else
      var f := files[|files| - 1];
      OnPath(files[..|files| - 1], continuity, k, p) + if NewPath(continuity, f.path) == p then InFile(f, k) else 0
  }

  /** How many of a list are of the class, and of these on the path. */
  ghost predicate Counted(s: seq<Occurrence>, k: Class, p: Path, all: nat, there: nat) {
    |OfClass(s, k)| == all && PathsIn(OfClass(s, k))[p] == there
  }

  lemma {:induction false} CountedNone(k: Class, p: Path)
    ensures Counted([], k, p, 0, 0)
  {
  }

  lemma {:induction false} CountedOne(s: seq<Occurrence>, o: Occurrence, k: Class, p: Path, all: nat, there: nat)
    requires Counted(s, k, p, all, there)
    ensures var more := if o.group == k then 1 else 0;
            Counted(s + [o], k, p, all + more, there + if o.path == p then more else 0)
  {
    assert (s + [o])[..|s|] == s;
    var was := OfClass(s, k);
    assert (was + [o])[..|was|] == was;
  }

  lemma {:induction false} CountedAppend(s: seq<Occurrence>, t: seq<Occurrence>, k: Class, p: Path,
                                         all: nat, there: nat, more: nat, thereMore: nat)
    requires Counted(s, k, p, all, there) && Counted(t, k, p, more, thereMore)
    ensures Counted(s + t, k, p, all + more, there + thereMore)
  {
    OfClassAppend(s, t, k);
    PathsInAppend(OfClass(s, k), OfClass(t, k));
  }

  lemma {:induction false} OneFileCounted(f: File, continuity: map<Path, Path>, k: Class, p: Path, n: nat)
    requires f.facts.Some? && n <= |f.facts.value.callables|
    ensures |OccurrencesIn(f, continuity)| == |f.facts.value.callables|
    ensures var m := if f.family == k.family then WithDigest(f.facts.value.callables[..n], k.digest) else 0;
            Counted(OccurrencesIn(f, continuity)[..n], k, p, m, if NewPath(continuity, f.path) == p then m else 0)
  {
    hide Counted;
    var all, callables := OccurrencesIn(f, continuity), f.facts.value.callables;
    if n == 0 {
      CountedNone(k, p);
      assert all[..0] == [];
    } else {
      OneFileCounted(f, continuity, k, p, n - 1);
      var m := if f.family == k.family then WithDigest(callables[..n - 1], k.digest) else 0;
      assert callables[..n][..n - 1] == callables[..n - 1] && all[..n] == all[..n - 1] + [all[n - 1]];
      CountedOne(all[..n - 1], all[n - 1], k, p, m, if NewPath(continuity, f.path) == p then m else 0);
    }
  }

  lemma {:induction false} ListedCounted(files: seq<File>, continuity: map<Path, Path>, k: Class, p: Path, n: nat)
    requires n <= |files|
    ensures Counted(Listed(files, continuity, n), k, p, InFiles(files[..n], k), OnPath(files[..n], continuity, k, p))
  {
    hide Counted, OccurrencesIn, InFile, NewPath;
    if n == 0 {
      CountedNone(k, p);
    } else {
      ListedCounted(files, continuity, k, p, n - 1);
      assert files[..n][..n - 1] == files[..n - 1];
      var f := files[n - 1];
      if f.facts.Some? {
        WholeFileCounted(f, continuity, k, p);
        CountedAppend(Listed(files, continuity, n - 1), OccurrencesIn(f, continuity), k, p, InFiles(files[..n - 1], k),
                      OnPath(files[..n - 1], continuity, k, p), InFile(f, k),
                      if NewPath(continuity, f.path) == p then InFile(f, k) else 0);
      } else {
        NoFacts(f, k);
      }
    }
  }

  lemma {:induction false} NoFacts(f: File, k: Class)
    ensures f.facts.None? ==> InFile(f, k) == 0
  {
  }

  lemma {:induction false} WholeFileCounted(f: File, continuity: map<Path, Path>, k: Class, p: Path)
    requires f.facts.Some?
    ensures Counted(OccurrencesIn(f, continuity), k, p, InFile(f, k), if NewPath(continuity, f.path) == p then InFile(f, k) else 0)
  {
    hide Counted;
    var callables, all := f.facts.value.callables, OccurrencesIn(f, continuity);
    OneFileCounted(f, continuity, k, p, |callables|);
    assert callables[..|callables|] == callables && all[..|callables|] == all;
  }

  /** What a snapshot holds of a class, in all and on each path, is the number of callables in its files. */
  lemma {:induction false} HeldTold(s: Snapshots, k: Class, p: Path)
    ensures |Held(s, k, false)| == InFiles(s.before, k) && |Held(s, k, true)| == InFiles(s.after, k)
    ensures PathsIn(Held(s, k, false))[p] == OnPath(s.before, s.continuity, k, p)
    ensures PathsIn(Held(s, k, true))[p] == OnPath(s.after, map[], k, p)
  {
    hide Listed, OfClass, PathsIn, InFiles, OnPath;
    assert s.before[..|s.before|] == s.before && s.after[..|s.after|] == s.after;
    ListedCounted(s.before, s.continuity, k, p, |s.before|);
    ListedCounted(s.after, map[], k, p, |s.after|);
  }

  /** The class grew on a path exactly when its files hold more callables there than those before it, renames
      followed. */
  lemma {:induction false} GrowthTold(s: Snapshots, k: Class, p: Path)
    ensures p in HeldGrowth(s, k) <==> OnPath(s.before, s.continuity, k, p) < OnPath(s.after, map[], k, p)
    ensures Grew(s, k) <==> InFiles(s.after, k) >= 2 && InFiles(s.after, k) > InFiles(s.before, k)
    ensures p in Changed(s) <==> exists q :: q in s.changedPaths && NewPath(s.continuity, q) == p
  {
    HeldTold(s, k, p);
    hide Held, PathsIn, OnPath, InFiles;
  }

  // Identical files.

  ghost predicate CopyBefore(s: Snapshots, id: ContentId, p: Path) {
    exists f :: f in s.before && f.content == id && f.bytes >= s.minimum && NewPath(s.continuity, f.path) == p
  }

  ghost predicate CopyAfter(s: Snapshots, id: ContentId, p: Path) {
    exists f :: f in s.after && f.content == id && f.bytes >= s.minimum && f.path == p
  }

  /** A content is reportable when it has two or more copies of the minimal size, more than before, and one of
      them is new and on a changed path. */
  lemma {:induction false} CopiesTold(s: Snapshots, id: ContentId)
    ensures forall p :: p in CopiesBefore(s, id) <==> CopyBefore(s, id, p)
    ensures forall p :: p in CopiesAfter(s, id) <==> CopyAfter(s, id, p)
    ensures CopiesReported(s, id)
       <==> && |CopiesAfter(s, id)| >= 2 && |CopiesAfter(s, id)| > |CopiesBefore(s, id)|
            && exists p :: CopyAfter(s, id, p) && !CopyBefore(s, id, p) && p in Changed(s)
  {
    forall p ensures p in CopiesBefore(s, id) <==> CopyBefore(s, id, p) {
      assert forall f: File :: Renamed(s.continuity, f.path) == NewPath(s.continuity, f.path);
    }
    forall p ensures p in CopiesAfter(s, id) <==> CopyAfter(s, id, p) {
    }
    hide Changed, CopiesBefore, CopiesAfter, CopyBefore, CopyAfter;
    var newly := NewCopies(s, id) * Changed(s);
    assert forall p :: p in newly <==> CopyAfter(s, id, p) && !CopyBefore(s, id, p) && p in Changed(s);
    if exists p :: CopyAfter(s, id, p) && !CopyBefore(s, id, p) && p in Changed(s) {
      var p :| CopyAfter(s, id, p) && !CopyBefore(s, id, p) && p in Changed(s);
      assert p in newly;
    } else {
      assert newly == {};
    }
  }

  /** A class is not reported for new copies of files that are reportable themselves: its view grew on some
      other path. */
  lemma {:induction false} FindingsUnexplained(s: Snapshots, limit: nat, r: Result, f: Finding) returns (p: Path)
    requires SearchOf(s, limit, r) && f in r.callables
    ensures p in Grown(View(s, f.group, false), View(s, f.group, true))
    ensures forall x :: x in s.after && CopiesReported(s, x.content) ==> p !in NewCopies(s, x.content)
  {
    hide View, Grown, Changed, NewCopies, CopiesReported, Names, CopyReported, FileCounted, Shows;
    assert Founded(s, f);
    p :| p in Grown(View(s, f.group, false), View(s, f.group, true)) && p !in Suppressed(s);
  }

  // Where the occurrences come from.

  /** The occurrence is the `j`-th callable of the file, at its path after renames. */
  ghost predicate OccursIn(o: Occurrence, f: File, continuity: map<Path, Path>, j: nat) {
    && f.facts.Some? && j < |f.facts.value.callables|
    && var c := f.facts.value.callables[j];
    && o.group.family == f.family && o.group.digest == c.digest && o.path == NewPath(continuity, f.path)
    && o.range == c.range && o.kind == c.kind && o.tokens == c.tokens
  }

  lemma {:induction false} OfferedFrom(files: seq<File>, continuity: map<Path, Path>, n: nat, o: Occurrence) returns (i: nat, j: nat)
    requires n <= |files| && o in Offered(files, continuity, n)
    ensures i < |files| && OccursIn(o, files[i], continuity, j)
  {
    var f := files[n - 1];
    if Collected(f) && o in OccurrencesIn(f, continuity) {
      i := n - 1;
      j :| 0 <= j < |OccurrencesIn(f, continuity)| && OccurrencesIn(f, continuity)[j] == o;
    } else {
      i, j := OfferedFrom(files, continuity, n - 1, o);
    }
  }

  lemma {:induction false} OfClassFrom(s: seq<Occurrence>, k: Class, o: Occurrence)
    requires o in OfClass(s, k)
    ensures o in s && o.group == k
  {
    if o != s[|s| - 1] || o.group != k {
      OfClassFrom(s[..|s| - 1], k, o);
    }
  }

  /** What a view holds of a class are callables of its files, with their ranges, kinds and lengths, in the order of
      path, range and kind. */
  lemma {:induction false} ViewFrom(s: Snapshots, k: Class, after: bool, o: Occurrence) returns (i: nat, j: nat)
    requires o in View(s, k, after)
    ensures o.group == k && i < |FilesOn(s, after)| && OccursIn(o, FilesOn(s, after)[i], ContinuityOn(s, after), j)
    ensures var view := View(s, k, after);
            forall m, n :: 0 <= m < n < |view| ==> PlaceNotAfter(view[m], view[n])
  {
    var files, continuity := FilesOn(s, after), ContinuityOn(s, after);
    var all := Offered(files, continuity, |files|);
    PlaceIsOrder();
    SortSorts(PlaceLess, OfClass(Kept(all), k));
    assert o in multiset(View(s, k, after));
    OfClassFrom(Kept(all), k, o);
    i, j := OfferedFrom(files, continuity, |files|, o);
    hide StrictWeak, PlaceLess, PlaceNotAfter;
    var view := View(s, k, after);
    forall m, n | 0 <= m < n < |view| ensures PlaceNotAfter(view[m], view[n]) {
      PlaceOrder(view[m], view[n]);
    }
  }

  ghost predicate PlaceNotAfter(a: Occurrence, b: Occurrence) {
    && !TextLess(b.path, a.path) && (a.path == b.path ==> !TextLess(b.range, a.range))
    && (a.path == b.path && a.range == b.range ==> a.kind <= b.kind)
  }

  lemma {:induction false} PlaceOrder(a: Occurrence, b: Occurrence)
    ensures PlaceNotAfter(a, b) <==> !PlaceLess(b, a)
  {
    ShownOrder(Shown(a.path, a.range, a.kind, true), Shown(b.path, b.range, b.kind, true));
    var x, y := Place(b), Place(a);
    var w, z := ShownKey(Shown(b.path, b.range, b.kind, true)), ShownKey(Shown(a.path, a.range, a.kind, true));
    assert w[1..] == x && z[1..] == y && w[0] == z[0] == [0];
    SmallTexts(0, 0);
  }

  // What the findings show.

  /** An occurrence of a file finding is a copy of the file, marked as changed exactly if its path is. */
  lemma {:induction false} CopyShown(s: Snapshots, limit: nat, r: Result, f: FileFinding, x: Shown)
    requires SearchOf(s, limit, r) && f in r.files && x in f.occurrences
    ensures CopyAfter(s, f.content, x.path) && (x.changed <==> x.path in Changed(s)) && x.range == [] && x.kind == 0
  {
    CopiesTold(s, f.content);
    hide CopiesAfter, CopiesBefore, CopyAfter, CopyBefore, CopiesReported, Changed, Suppressed, Founded, Names, CopyReported, SizeOf;
    assert FileCounted(s, f);
    var paths :| ListsCopies(s, f.content, paths)
                 && ShowsFirst(f.occurrences, f.occurrencesTruncated, MarkedPaths(paths, Changed(s)));
    var all := MarkedPaths(paths, Changed(s));
    assert x in multiset(f.occurrences) && x in multiset(all);
    var i :| 0 <= i < |all| && all[i] == x;
    assert paths[i] in multiset(paths);
  }

  /** An occurrence of a callable finding is one of the class in the after view, marked in the same way. */
  lemma {:induction false} CallableShown(s: Snapshots, limit: nat, r: Result, f: Finding, x: Shown) returns (o: Occurrence)
    requires SearchOf(s, limit, r) && f in r.callables && x in f.occurrences
    ensures o in View(s, f.group, true) && x.path == o.path && x.range == o.range && x.kind == o.kind
    ensures x.changed <==> x.path in Changed(s)
  {
    hide View, CopiesReported, Changed, Suppressed, ClassReports, Names, CopyReported, FileCounted;
    assert Founded(s, f);
    var after := View(s, f.group, true);
    var all := Marked(after, Changed(s));
    assert x in multiset(f.occurrences) && x in multiset(all);
    var i :| 0 <= i < |all| && all[i] == x;
    o := after[i];
  }

  // Moving files.

  ghost function MovedFiles(files: seq<File>, continuity: map<Path, Path>): seq<File> {
    seq(|files|, i requires 0 <= i < |files| => files[i].(path := NewPath(continuity, files[i].path)))
  }

  lemma {:induction false} MovedHoldsSame(files: seq<File>, continuity: map<Path, Path>, k: Class)
    ensures InFiles(MovedFiles(files, continuity), k) == InFiles(files, k)
  {
    if files != [] {
      var front := files[..|files| - 1];
      MovedHoldsSame(front, continuity, k);
      assert MovedFiles(files, continuity)[..|front|] == MovedFiles(front, continuity);
    }
  }

  lemma {:induction false} InFilesRemove(files: seq<File>, i: nat, k: Class)
    requires i < |files|
    ensures InFiles(files, k) == InFiles(files[..i] + files[i + 1..], k) + InFile(files[i], k)
  {
    hide InFile;
    var n := |files| - 1;
    if i == n {
      assert files[..i] + files[i + 1..] == files[..n];
    } else {
      var front := files[..n];
      InFilesRemove(front, i, k);
      var rest := files[..i] + files[i + 1..];
      assert rest[..|rest| - 1] == front[..i] + front[i + 1..] && rest[|rest| - 1] == files[n];
    }
  }

  /** The order of the files does not matter. */
  lemma {:induction false} InFilesPermutation(a: seq<File>, b: seq<File>, k: Class)
    requires multiset(a) == multiset(b)
    ensures InFiles(a, k) == InFiles(b, k)
    decreases |a|
  {
    hide InFile;
    SameLength(a, b);
    if a != [] {
      var n := |a| - 1;
      SplitLast(a);
      assert a[n] in multiset(b);
      var i :| 0 <= i < |b| && b[i] == a[n];
      RemoveOne(b, i);
      InFilesPermutation(a[..n], b[..i] + b[i + 1..], k);
      InFilesRemove(b, i, k);
    }
  }

  lemma {:induction false} MovedCopies(s: Snapshots, id: ContentId)
    requires multiset(s.after) == multiset(MovedFiles(s.before, s.continuity))
    ensures forall p :: CopyAfter(s, id, p) <==> CopyBefore(s, id, p)
  {
    var moved := MovedFiles(s.before, s.continuity);
    forall x ensures x in s.after <==> x in moved {
      assert x in multiset(s.after) <==> x in multiset(moved);
    }
    forall p ensures CopyAfter(s, id, p) <==> CopyBefore(s, id, p) {
      if CopyAfter(s, id, p) {
        var x :| x in s.after && x.content == id && x.bytes >= s.minimum && x.path == p;
        var i :| 0 <= i < |moved| && moved[i] == x;
        assert s.before[i] in s.before;
      }
      if CopyBefore(s, id, p) {
        var f :| f in s.before && f.content == id && f.bytes >= s.minimum && NewPath(s.continuity, f.path) == p;
        var i :| 0 <= i < |s.before| && s.before[i] == f;
        assert moved[i] in moved;
      }
    }
  }

  /** If the files were only moved, as the renames say, the search finds nothing, whatever their order, unless the
      view of the baseline leaves something out. */
  lemma {:induction false} MovingFindsNothing(s: Snapshots, limit: nat, r: Result)
    requires SearchOf(s, limit, r) && Unlimited(s, false)
    requires multiset(s.after) == multiset(MovedFiles(s.before, s.continuity))
    ensures r.files == [] && r.callables == [] && !r.truncated
  {
    forall k ensures !ClassReports(s, k) {
      HeldTold(s, k, []);
      MovedHoldsSame(s.before, s.continuity, k);
      InFilesPermutation(s.after, MovedFiles(s.before, s.continuity), k);
      ViewCounts(s, k, true);
      UnlimitedIsWhole(s, k, false);
    }
    forall id ensures !CopiesReported(s, id) {
      CopiesTold(s, id);
      MovedCopies(s, id);
    }
    NothingFound(s, limit, r);
  }
}
