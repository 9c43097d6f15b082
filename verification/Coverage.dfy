/** Coverage of duplicate detection: the full callable view, the pass for identical snapshots and the
    limit tracker walk the same files, and must count the same. */
module Coverage {
  import opened Collections
  import opened Sorting
  import opened TextOrder

  const MAX_PER_FILE: nat := 4096
  const MAX_PER_REQUEST: nat := 200000

  type Path = Text

  /** Extraction statuses in increasing order of severity. */
  datatype Status = Complete | Truncated | ParserFailed | Unsupported

  function Severity(s: Status): nat {
    match s
    case Complete => 0
    case Truncated => 1
    case ParserFailed => 2
    case Unsupported => 3
  }

  function Worse(a: Status, b: Status): Status {
    if Severity(a) >= Severity(b) then a else b
  }

  /** The digest of one callable body. */
  type Digest = Text

  /** A callable: its digest, the numbers of its source range, its kind and its length. */
  datatype Callable = Callable(digest: Digest, range: Text, kind: nat, tokens: nat)

  datatype Facts = Facts(callableStatus: Status, callables: seq<Callable>, regionStatus: Status, anchors: nat)

  type ContentId = Text

  /** A file of a snapshot, with its language family and the facts found for it, if any. */
  datatype File = File(path: Path, content: ContentId, bytes: nat, family: Text, facts: Option<Facts>, malformed: bool)

  /** A class of callables: those of one family with one digest. */
  datatype Class = Class(family: Text, digest: Digest)

  datatype Occurrence = Occurrence(group: Class, path: Path, range: Text, kind: nat, tokens: nat)

  datatype Tally = Tally(files: nat, complete: nat, unsupported: nat, failed: nat, truncated: nat,
                         callables: nat, requestTruncated: bool)

  const NOTHING: Tally := Tally(0, 0, 0, 0, 0, 0, false)

  // Extraction: the facts of one file.

  function CallableKey(c: Callable): Key {
    [[c.kind], c.range, [c.tokens], c.digest]
  }

  predicate CallableLess(a: Callable, b: Callable) {
    KeyLess(CallableKey(a), CallableKey(b))
  }

  class FingerprintCollector {
    var callables: seq<Callable>
    var truncated: bool
    /** Every callable found. */
    ghost var found: seq<Callable>

    ghost predicate Valid()
      reads this
    {
      && callables == (if |found| <= MAX_PER_FILE then found else found[..MAX_PER_FILE])
      && truncated == (|found| > MAX_PER_FILE)
    }

    constructor ()
      ensures Valid() && found == []
    {
      callables, truncated, found := [], false, [];
    }

    method Push(fingerprint: Option<Callable>)
      requires Valid()
      modifies this
      ensures Valid() && found == old(found) + (if fingerprint.Some? then [fingerprint.value] else [])
    {
      if fingerprint.None? {
        return;
      }
      found := found + [fingerprint.value];
      if |callables| >= MAX_PER_FILE {
        truncated := true;
        return;
      }
      callables := callables + [fingerprint.value];
    }

    /** The facts list every callable found and are complete, or list the first 4096 and are truncated. */
    method Finish() returns (status: Status, listed: seq<Callable>)
      requires Valid()
      ensures status == if |found| <= MAX_PER_FILE then Complete else Truncated
      ensures multiset(listed) == multiset(if |found| <= MAX_PER_FILE then found else found[..MAX_PER_FILE])
      ensures SortedBy(CallableLess, listed)
    {
      OrderByKey(CallableLess, CallableKey);
      SortSorts(CallableLess, callables);
      listed := Sort(CallableLess, callables);
      status := if truncated then Truncated else Complete;
    }
  }

  // Reference: which callables count at all, and what is kept of them.

  predicate Collected(f: File) {
    f.facts.Some? && f.facts.value.callableStatus == Complete && |f.facts.value.callables| <= MAX_PER_FILE
  }

  function StatusOf(f: File): Status {
    if f.facts.None? then Unsupported
    else if |f.facts.value.callables| > MAX_PER_FILE || f.facts.value.anchors > MAX_PER_FILE then Truncated
    else Worse(f.facts.value.callableStatus, f.facts.value.regionStatus)
  }

  function Renamed(continuity: map<Path, Path>, p: Path): Path {
    if p in continuity then continuity[p] else p
  }

  function OccurrencesIn(f: File, continuity: map<Path, Path>): seq<Occurrence>
    requires f.facts.Some?
  {
    var c := f.facts.value.callables;
    seq(|c|, i requires 0 <= i < |c| =>
      Occurrence(Class(f.family, c[i].digest), Renamed(continuity, f.path), c[i].range, c[i].kind, c[i].tokens))
  }

  /** All callables of the collected files among the first `n`, in order. */
  function Offered(files: seq<File>, continuity: map<Path, Path>, n: nat): seq<Occurrence>
    requires n <= |files|
  {
    if n == 0 then []
    else if Collected(files[n - 1])
    then Offered(files, continuity, n - 1) + OccurrencesIn(files[n - 1], continuity)
    else Offered(files, continuity, n - 1)
  }

  function Kept(s: seq<Occurrence>): seq<Occurrence> {
    if |s| <= MAX_PER_REQUEST then s else s[..MAX_PER_REQUEST]
  }

  function CountStatus(files: seq<File>, status: Status, n: nat): nat
    requires n <= |files|
  {
    if n == 0 then 0 else CountStatus(files, status, n - 1) + (if StatusOf(files[n - 1]) == status then 1 else 0)
  }

  /** How many callables the collected files among the first `n` have. */
  function Total(files: seq<File>, n: nat): nat
    requires n <= |files|
  {
    if n == 0 then 0
    else Total(files, n - 1) + (if Collected(files[n - 1]) then |files[n - 1].facts.value.callables| else 0)
  }

  function Capped(n: nat): nat {
    if n <= MAX_PER_REQUEST then n else MAX_PER_REQUEST
  }

  /** The coverage that every pass must report. */
  function TallyOf(files: seq<File>, n: nat): Tally
    requires n <= |files|
  {
    Tally(n, CountStatus(files, Complete, n), CountStatus(files, Unsupported, n), CountStatus(files, ParserFailed, n),
          CountStatus(files, Truncated, n), Capped(Total(files, n)), Total(files, n) > MAX_PER_REQUEST)
  }

  /** The four status counts sum to the number of files. */
  lemma {:induction false} StatusesSum(files: seq<File>, n: nat)
    requires n <= |files|
    ensures var t := TallyOf(files, n); t.complete + t.unsupported + t.failed + t.truncated == t.files
  {
    if n > 0 {
      StatusesSum(files, n - 1);
    }
  }

  lemma {:induction false} OfferedTotal(files: seq<File>, continuity: map<Path, Path>, n: nat)
    requires n <= |files|
    ensures |Offered(files, continuity, n)| == Total(files, n)
  {
    if n > 0 {
      OfferedTotal(files, continuity, n - 1);
    }
  }

  // The passes.

  function RecordStatus(t: Tally, f: Facts): Tally {
    var status :=
      if |f.callables| > MAX_PER_FILE || f.anchors > MAX_PER_FILE then Truncated
      else Worse(f.callableStatus, f.regionStatus);
    match status
    case Complete => t.(complete := t.complete + 1)
    case Unsupported => t.(unsupported := t.unsupported + 1)
    case ParserFailed => t.(failed := t.failed + 1)
    case Truncated => t.(truncated := t.truncated + 1)
  }

  /** The pass for identical snapshots adds the callables of a file in one go. */
  method FingerprintCoverage(files: seq<File>) returns (t: Tally)
    ensures t == TallyOf(files, |files|)
    ensures t.complete + t.unsupported + t.failed + t.truncated == t.files
  {
    t := NOTHING;
    for i := 0 to |files|
      invariant t == TallyOf(files, i)
    {
      t := t.(files := t.files + 1);
      if files[i].facts.None? {
        t := t.(unsupported := t.unsupported + 1);
      } else {
        var facts := files[i].facts.value;
        t := RecordStatus(t, facts);
        if facts.callableStatus == Complete && |facts.callables| <= MAX_PER_FILE {
          var remaining := MAX_PER_REQUEST - t.callables;
          var more := if |facts.callables| <= remaining then |facts.callables| else remaining;
          t := t.(callables := t.callables + more,
                  requestTruncated := t.requestTruncated || |facts.callables| > remaining);
        }
      }
    }
    StatusesSum(files, |files|);
  }

  type Groups = map<Class, seq<Occurrence>>

  function OfClass(s: seq<Occurrence>, c: Class): seq<Occurrence> {
    if s == [] then []
    else if s[|s| - 1].group == c then OfClass(s[..|s| - 1], c) + [s[|s| - 1]]
    else OfClass(s[..|s| - 1], c)
  }

  /** The groups hold exactly the given occurrences, class by class, in order. */
  ghost predicate Grouped(groups: Groups, s: seq<Occurrence>) {
    forall c :: Members(groups, c) == OfClass(s, c)
  }

  function Members(groups: Groups, c: Class): seq<Occurrence> {
    if c in groups then groups[c] else []
  }

  function Pushed(groups: Groups, o: Occurrence): Groups {
    groups[o.group := Members(groups, o.group) + [o]]
  }

  lemma PushGroups(groups: Groups, s: seq<Occurrence>, o: Occurrence)
    requires Grouped(groups, s)
    ensures Grouped(Pushed(groups, o), s + [o])
    ensures (forall c :: c in groups ==> groups[c] != []) ==>
              forall c :: c in Pushed(groups, o) ==> Pushed(groups, o)[c] != []
  {
    assert (s + [o])[..|s|] == s;
    forall c ensures Members(Pushed(groups, o), c) == OfClass(s + [o], c) {
      assert Members(groups, c) == OfClass(s, c);
    }
  }

  /** Occurrences in order of path, range and kind. */
  function Place(o: Occurrence): Key {
    [o.path, o.range, [o.kind]]
  }

  predicate PlaceLess(a: Occurrence, b: Occurrence) {
    KeyLess(Place(a), Place(b))
  }

  lemma PlaceIsOrder()
    ensures StrictWeak(PlaceLess)
  {
    OrderByKey(PlaceLess, Place);
  }

  /** The occurrences of a class that a view holds: those within the request limit, in order. */
  function Viewed(files: seq<File>, continuity: map<Path, Path>, c: Class): seq<Occurrence> {
    Sort(PlaceLess, OfClass(Kept(Offered(files, continuity, |files|)), c))
  }

  /** The full view adds them one by one, then sorts each class. It reports the same coverage, and
      groups exactly the callables within the request limit. */
  method CallableView(files: seq<File>, continuity: map<Path, Path>) returns (groups: Groups, t: Tally)
    ensures t == TallyOf(files, |files|)
    ensures forall c :: Members(groups, c) == Viewed(files, continuity, c)
    ensures forall c :: c in groups ==> groups[c] != []
  {
    hide Grouped, Kept, Offered, TallyOf, Sort, PlaceLess;
    groups, t := map[], NOTHING;
    ViewBegins(files, continuity);
    for i := 0 to |files|
      invariant t == TallyOf(files, i) && (forall c :: c in groups ==> groups[c] != [])
      invariant Grouped(groups, Kept(Offered(files, continuity, i)))
    {
      groups, t := VisitFile(files, i, continuity, groups, t);
    }
    ghost var kept := Kept(Offered(files, continuity, |files|));
    groups := SortGroups(groups, kept);
  }

  lemma ViewBegins(files: seq<File>, continuity: map<Path, Path>)
    ensures Grouped(map[], Kept(Offered(files, continuity, 0))) && TallyOf(files, 0) == NOTHING
  {
  }

  /** Sorts every class in place, in whatever order the map yields them. */
  method SortGroups(before: Groups, ghost kept: seq<Occurrence>) returns (groups: Groups)
    requires Grouped(before, kept) && forall c :: c in before ==> before[c] != []
    ensures forall c :: Members(groups, c) == Sort(PlaceLess, OfClass(kept, c))
    ensures forall c :: c in groups ==> groups[c] != []
  {
    hide PlaceLess, Sort, OfClass;
    groups := before;
    var left := groups.Keys;
    while left != {}
      invariant left <= groups.Keys == before.Keys
      invariant forall c :: c in left ==> groups[c] == before[c]
      invariant forall c :: c in groups && c !in left ==> groups[c] == Sort(PlaceLess, before[c])
    {
      var c :| c in left;
      groups := groups[c := Sort(PlaceLess, groups[c])];
      left := left - {c};
    }
    forall c ensures Members(groups, c) == Sort(PlaceLess, OfClass(kept, c)) && (c in groups ==> groups[c] != []) {
      assert Members(before, c) == OfClass(kept, c);
      SortedNone(before, c);
    }
  }

  lemma SortedNone(groups: Groups, c: Class)
    ensures Sort(PlaceLess, []) == []
    ensures c in groups && groups[c] != [] ==> Sort(PlaceLess, groups[c]) != []
  {
    PlaceIsOrder();
    if c in groups {
      SortSorts(PlaceLess, groups[c]);
    }
  }

  method VisitFile(files: seq<File>, i: nat, continuity: map<Path, Path>, before: Groups, start: Tally)
    returns (groups: Groups, t: Tally)
    requires i < |files| && start == TallyOf(files, i) && Grouped(before, Kept(Offered(files, continuity, i)))
    requires forall c :: c in before ==> before[c] != []
    ensures t == TallyOf(files, i + 1) && Grouped(groups, Kept(Offered(files, continuity, i + 1)))
    ensures forall c :: c in groups ==> groups[c] != []
  {
    hide Grouped, Kept;
    groups, t := before, start.(files := start.files + 1);
    if files[i].facts.None? {
      t := t.(unsupported := t.unsupported + 1);
    } else {
      var facts := files[i].facts.value;
      t := RecordStatus(t, facts);
      if facts.callableStatus == Complete && facts.callables != [] && |facts.callables| <= MAX_PER_FILE {
        OfferedTotal(files, continuity, i);
        groups, t := CollectFile(files[i], continuity, groups, t, Offered(files, continuity, i));
      } else {
        NoneOffered(files, continuity, i);
      }
    }
  }

  lemma NoneOffered(files: seq<File>, continuity: map<Path, Path>, i: nat)
    requires i < |files| && (Collected(files[i]) ==> files[i].facts.value.callables == [])
    ensures Offered(files, continuity, i + 1) == Offered(files, continuity, i)
  {
  }

  /** The callables of one collected file. */
  method CollectFile(f: File, continuity: map<Path, Path>, before: Groups, start: Tally, ghost offered: seq<Occurrence>)
    returns (groups: Groups, t: Tally)
    requires Collected(f) && Grouped(before, Kept(offered)) && forall c :: c in before ==> before[c] != []
    requires start.callables == Capped(|offered|) && start.requestTruncated == (|offered| > MAX_PER_REQUEST)
    ensures var all := offered + OccurrencesIn(f, continuity);
            && Grouped(groups, Kept(all))
            && t == start.(callables := Capped(|all|), requestTruncated := |all| > MAX_PER_REQUEST)
    ensures forall c :: c in groups ==> groups[c] != []
  {
    hide Grouped, Kept, Pushed;
    groups, t := before, start;
    var occurrences := OccurrencesIn(f, continuity);
    assert offered + occurrences[..0] == offered;
    for i := 0 to |occurrences|
      invariant Grouped(groups, Kept(offered + occurrences[..i])) && forall c :: c in groups ==> groups[c] != []
      invariant t == start.(callables := Capped(|offered| + i), requestTruncated := |offered| + i > MAX_PER_REQUEST)
    {
      KeepNext(offered + occurrences[..i], occurrences[i]);
      assert offered + occurrences[..i + 1] == offered + occurrences[..i] + [occurrences[i]];
      if t.callables >= MAX_PER_REQUEST {
        t := t.(requestTruncated := true);
      } else {
        t := t.(callables := t.callables + 1);
        PushGroups(groups, Kept(offered + occurrences[..i]), occurrences[i]);
        groups := Pushed(groups, occurrences[i]);
      }
    }
    assert occurrences[..|occurrences|] == occurrences;
  }

  lemma KeepNext(s: seq<Occurrence>, o: Occurrence)
    ensures Kept(s + [o]) == if |s| >= MAX_PER_REQUEST then Kept(s) else Kept(s) + [o]
  {
  }

  // The limit tracker.

  /** The files it lists for a limit. */
  function AffectedPaths(files: seq<File>, n: nat, affected: (nat) -> bool): seq<Path>
    requires n <= |files|
  {
    if n == 0 then []
    else if affected(n - 1) then AffectedPaths(files, n - 1, affected) + [files[n - 1].path]
    else AffectedPaths(files, n - 1, affected)
  }

  function OverFile(files: seq<File>): (nat) -> bool {
    (i: nat) => i < |files| && files[i].facts.Some?
         && (files[i].facts.value.callableStatus == Truncated || |files[i].facts.value.callables| > MAX_PER_FILE)
  }

  function OverRequest(files: seq<File>): (nat) -> bool {
    (i: nat) => i < |files| && Collected(files[i])
         && |files[i].facts.value.callables| > MAX_PER_REQUEST - Capped(Total(files, i))
  }

  class LimitState {
    var callableFiles: seq<Path>
    var callableRequest: seq<Path>
    var regionFiles: seq<Path>
    var regionRequest: seq<Path>
    var callables: nat
    var regions: nat

    constructor ()
      ensures callableFiles == callableRequest == regionFiles == regionRequest == []
      ensures callables == regions == 0
    {
      callableFiles, callableRequest, regionFiles, regionRequest := [], [], [], [];
      callables, regions := 0, 0;
    }

    method ObserveCallables(path: Path, facts: Facts)
      requires callables <= MAX_PER_REQUEST
      modifies this`callableFiles, this`callableRequest, this`callables
      ensures var n, bounded := |facts.callables|, |facts.callables| <= MAX_PER_FILE;
              var collected := bounded && facts.callableStatus == Complete;
              && callableFiles == old(callableFiles) + (if facts.callableStatus == Truncated || !bounded then [path] else [])
              && callableRequest == old(callableRequest) + (if collected && n > MAX_PER_REQUEST - old(callables) then [path] else [])
              && callables == if collected then Capped(old(callables) + n) else old(callables)
    {
      var count := |facts.callables|;
      var bounded := count <= MAX_PER_FILE;
      if facts.callableStatus == Truncated || !bounded {
        callableFiles := callableFiles + [path];
      }
      if !bounded || facts.callableStatus != Complete {
        return;
      }
      var remaining := MAX_PER_REQUEST - callables;
      if count > remaining {
        callableRequest := callableRequest + [path];
      }
      callables := callables + (if count <= remaining then count else remaining);
    }

    /** Anchors of a file are admitted all or none. */
    method ObserveRegions(path: Path, facts: Facts, malformed: bool)
      requires regions <= MAX_PER_REQUEST
      modifies this`regionFiles, this`regionRequest, this`regions
      ensures regions <= MAX_PER_REQUEST
      ensures var bounded := facts.anchors <= MAX_PER_FILE;
              var offered := bounded && !malformed && facts.regionStatus == Complete;
              var fits := old(regions) + facts.anchors <= MAX_PER_REQUEST;
              && regionFiles == old(regionFiles) + (if facts.regionStatus == Truncated || !bounded then [path] else [])
              && regionRequest == old(regionRequest) + (if offered && !fits then [path] else [])
              && regions == old(regions) + (if offered && fits then facts.anchors else 0)
    {
      var bounded := facts.anchors <= MAX_PER_FILE;
      if facts.regionStatus == Truncated || !bounded {
        regionFiles := regionFiles + [path];
      }
      if bounded && !malformed && facts.regionStatus == Complete {
        if facts.anchors <= MAX_PER_REQUEST - regions {
          regions := regions + facts.anchors;
        } else {
          regionRequest := regionRequest + [path];
        }
      }
    }
  }

  lemma {:induction false} SomeListedIff(files: seq<File>, n: nat)
    requires n <= |files|
    ensures AffectedPaths(files, n, OverRequest(files)) != [] <==> Total(files, n) > MAX_PER_REQUEST
  {
    if n > 0 {
      SomeListedIff(files, n - 1);
    }
  }

  /** The tracker's callable total is that of the coverage, and it lists a file at the request limit
      exactly when the coverage is truncated. */
  method SnapshotLimits(files: seq<File>) returns (state: LimitState)
    ensures fresh(state)
    ensures state.callables == TallyOf(files, |files|).callables
    ensures state.callableRequest != [] <==> TallyOf(files, |files|).requestTruncated
    ensures state.callableRequest == AffectedPaths(files, |files|, OverRequest(files))
    ensures state.callableFiles == AffectedPaths(files, |files|, OverFile(files))
    ensures state.regions <= MAX_PER_REQUEST
  {
    state := new LimitState();
    for i := 0 to |files|
      invariant fresh(state) && state.regions <= MAX_PER_REQUEST
      invariant state.callables == Capped(Total(files, i))
      invariant state.callableRequest == AffectedPaths(files, i, OverRequest(files))
      invariant state.callableFiles == AffectedPaths(files, i, OverFile(files))
    {
      if files[i].facts.Some? {
        state.ObserveCallables(files[i].path, files[i].facts.value);
        state.ObserveRegions(files[i].path, files[i].facts.value, files[i].malformed);
      }
    }
    SomeListedIff(files, |files|);
  }
}
