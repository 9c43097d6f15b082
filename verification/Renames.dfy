/** Content-based rename pairing: removed and added paths of one content, language and mode are
    paired in path order. */
module Renames {
  import opened Collections
  import opened Sorting
  import opened TextOrder

  /** Identity of a source file: content digest, language, language mode. */
  datatype SourceFile = SourceFile(content: Text, language: nat, mode: Text)

  datatype Input = Input(path: Text, before: Option<SourceFile>, after: Option<SourceFile>)

  type PathLists = map<SourceFile, seq<Text>>

  /** Requested paths form a set, so every input has its own path. */
  ghost predicate DistinctPaths(inputs: seq<Input>) {
    forall i, j :: 0 <= i < j < |inputs| ==> inputs[i].path != inputs[j].path
  }

  predicate IsRemoved(input: Input, file: SourceFile) {
    input.before == Some(file) && input.after.None?
  }

  predicate IsAdded(input: Input, file: SourceFile) {
    input.before.None? && input.after == Some(file)
  }

  function RemovedPaths(inputs: seq<Input>, file: SourceFile): seq<Text> {
    if inputs == [] then []
    else
      var last := inputs[|inputs| - 1];
      var front := RemovedPaths(inputs[..|inputs| - 1], file);
      if IsRemoved(last, file) then front + [last.path] else front
  }

  function AddedPaths(inputs: seq<Input>, file: SourceFile): seq<Text> {
    if inputs == [] then []
    else
      var last := inputs[|inputs| - 1];
      var front := AddedPaths(inputs[..|inputs| - 1], file);
      if IsAdded(last, file) then front + [last.path] else front
  }

  /** The `t`-th removed and the `t`-th added path of one identity, in path order. */
  ghost predicate Paired(inputs: seq<Input>, file: SourceFile, t: nat, p: Text, q: Text) {
    var removed, added := Sort(TextLess, RemovedPaths(inputs, file)), Sort(TextLess, AddedPaths(inputs, file));
    t < |removed| && t < |added| && removed[t] == p && added[t] == q
  }

  ghost predicate PairedBySome(inputs: seq<Input>, p: Text, q: Text) {
    exists file, t: nat :: Paired(inputs, file, t, p, q)
  }

  /** The continuity map lists exactly the pairs. */
  ghost predicate IsContinuity(inputs: seq<Input>, m: map<Text, Text>) {
    forall p, q :: (p in m && m[p] == q) <==> PairedBySome(inputs, p, q)
  }

  /** A path is listed as removed under one identity only, at one place. */
  lemma {:induction false} RemovedFrom(inputs: seq<Input>, file: SourceFile, t: nat) returns (i: nat)
    requires t < |RemovedPaths(inputs, file)|
    ensures i < |inputs| && IsRemoved(inputs[i], file) && inputs[i].path == RemovedPaths(inputs, file)[t]
    ensures |RemovedPaths(inputs[..i], file)| == t
  {
    var front := inputs[..|inputs| - 1];
    if t < |RemovedPaths(front, file)| {
      i := RemovedFrom(front, file, t);
      assert front[..i] == inputs[..i];
    } else {
      i := |inputs| - 1;
    }
  }

  lemma {:induction false} AddedFrom(inputs: seq<Input>, file: SourceFile, t: nat) returns (i: nat)
    requires t < |AddedPaths(inputs, file)|
    ensures i < |inputs| && IsAdded(inputs[i], file) && inputs[i].path == AddedPaths(inputs, file)[t]
    ensures |AddedPaths(inputs[..i], file)| == t
  {
    var front := inputs[..|inputs| - 1];
    if t < |AddedPaths(front, file)| {
      i := AddedFrom(front, file, t);
      assert front[..i] == inputs[..i];
    } else {
      i := |inputs| - 1;
    }
  }

  /** Every removed and every added input is listed. */
  lemma {:induction false} PathsListed(inputs: seq<Input>, file: SourceFile, i: nat)
    requires i < |inputs|
    ensures IsRemoved(inputs[i], file) ==> inputs[i].path in RemovedPaths(inputs, file)
    ensures IsAdded(inputs[i], file) ==> inputs[i].path in AddedPaths(inputs, file)
  {
    if i < |inputs| - 1 {
      PathsListed(inputs[..|inputs| - 1], file, i);
    }
  }

  lemma RemovedDistinct(inputs: seq<Input>, file: SourceFile)
    requires DistinctPaths(inputs)
    ensures NoDuplicates(RemovedPaths(inputs, file))
  {
    var s := RemovedPaths(inputs, file);
    forall i, j | 0 <= i < j < |s|
      ensures s[i] != s[j]
    {
      var a := RemovedFrom(inputs, file, i);
      var b := RemovedFrom(inputs, file, j);
    }
  }

  lemma AddedDistinct(inputs: seq<Input>, file: SourceFile)
    requires DistinctPaths(inputs)
    ensures NoDuplicates(AddedPaths(inputs, file))
  {
    var s := AddedPaths(inputs, file);
    forall i, j | 0 <= i < j < |s|
      ensures s[i] != s[j]
    {
      var a := AddedFrom(inputs, file, i);
      var b := AddedFrom(inputs, file, j);
    }
  }

  /** Sorting keeps a duplicate-free list duplicate-free. */
  lemma SortDistinct(s: seq<Text>)
    requires NoDuplicates(s)
    ensures NoDuplicates(Sort(TextLess, s))
    ensures |Sort(TextLess, s)| == |s|
    ensures forall x :: x in Sort(TextLess, s) <==> x in s
  {
    TextIsOrder();
    SortSorts(TextLess, s);
    var r := Sort(TextLess, s);
    assert forall x :: x in r <==> x in multiset(r);
    assert forall x :: x in s <==> x in multiset(s);
    forall i, j | 0 <= i < j < |r|
      ensures r[i] != r[j]
    {
      OccursOnce(s, r[i]);
      TwiceOccurs(r, i, j);
    }
  }

  lemma {:induction false} OccursOnce(s: seq<Text>, x: Text)
    requires NoDuplicates(s)
    ensures multiset(s)[x] <= 1
  {
    if s != [] {
      OccursOnce(s[..|s| - 1], x);
      assert s == s[..|s| - 1] + [s[|s| - 1]];
      if s[|s| - 1] == x {
        assert x !in s[..|s| - 1];
      }
    }
  }

  lemma TwiceOccurs(s: seq<Text>, i: nat, j: nat)
    requires i < j < |s|
    ensures s[i] == s[j] ==> multiset(s)[s[i]] >= 2
  {
    assert s == s[..i] + [s[i]] + s[i + 1..j] + [s[j]] + s[j + 1..];
  }

  /** A pair relates a removed input to an added input of the same identity. */
  lemma PairedInputs(inputs: seq<Input>, file: SourceFile, t: nat, p: Text, q: Text) returns (i: nat, j: nat)
    requires DistinctPaths(inputs) && Paired(inputs, file, t, p, q)
    ensures i < |inputs| && IsRemoved(inputs[i], file) && inputs[i].path == p
    ensures j < |inputs| && IsAdded(inputs[j], file) && inputs[j].path == q
  {
    RemovedDistinct(inputs, file);
    AddedDistinct(inputs, file);
    SortDistinct(RemovedPaths(inputs, file));
    SortDistinct(AddedPaths(inputs, file));
    var removed, added := RemovedPaths(inputs, file), AddedPaths(inputs, file);
    assert p in Sort(TextLess, removed) && q in Sort(TextLess, added);
    var u :| 0 <= u < |removed| && removed[u] == p;
    var v :| 0 <= v < |added| && added[v] == q;
    i := RemovedFrom(inputs, file, u);
    j := AddedFrom(inputs, file, v);
  }

  /** Pairing is a partial bijection: pairs that agree on one side agree on the other. */
  lemma PairedUnique(inputs: seq<Input>, f: SourceFile, t: nat, p: Text, q: Text, g: SourceFile, u: nat, r: Text, s: Text)
    requires DistinctPaths(inputs) && Paired(inputs, f, t, p, q) && Paired(inputs, g, u, r, s)
    ensures p == r <==> q == s
    ensures p == r ==> f == g && t == u
  {
    var i, j := PairedInputs(inputs, f, t, p, q);
    var k, l := PairedInputs(inputs, g, u, r, s);
    if p == r || q == s {
      assert f == g;
      RemovedDistinct(inputs, f);
      AddedDistinct(inputs, f);
      SortDistinct(RemovedPaths(inputs, f));
      SortDistinct(AddedPaths(inputs, f));
    }
  }

  /** The continuity map is injective, goes from removed to added paths, and keeps content,
      language and mode. */
  lemma ContinuitySound(inputs: seq<Input>, m: map<Text, Text>, p: Text) returns (i: nat, j: nat, file: SourceFile)
    requires DistinctPaths(inputs) && IsContinuity(inputs, m) && p in m
    ensures i < |inputs| && inputs[i].path == p && IsRemoved(inputs[i], file)
    ensures j < |inputs| && inputs[j].path == m[p] && IsAdded(inputs[j], file)
    ensures forall r :: r in m && m[r] == m[p] ==> r == p
  {
    assert PairedBySome(inputs, p, m[p]);
    var t: nat;
    file, t :| Paired(inputs, file, t, p, m[p]);
    i, j := PairedInputs(inputs, file, t, p, m[p]);
    forall r | r in m && m[r] == m[p]
      ensures r == p
    {
      assert PairedBySome(inputs, r, m[r]);
      var g, u: nat :| Paired(inputs, g, u, r, m[r]);
      PairedUnique(inputs, file, t, p, m[p], g, u, r, m[r]);
    }
  }

  function ListAt(lists: PathLists, file: SourceFile): seq<Text> {
    if file in lists then lists[file] else []
  }

  function Push(lists: PathLists, file: SourceFile, path: Text): PathLists {
    lists[file := ListAt(lists, file) + [path]]
  }

  /** Collects the removed and the added paths by identity. */
  method GroupPaths(inputs: seq<Input>) returns (removed: PathLists, added: PathLists)
    ensures forall f :: ListAt(removed, f) == RemovedPaths(inputs, f)
    ensures forall f :: ListAt(added, f) == AddedPaths(inputs, f)
  {
    removed, added := map[], map[];
    for i := 0 to |inputs|
      invariant forall f :: ListAt(removed, f) == RemovedPaths(inputs[..i], f)
      invariant forall f :: ListAt(added, f) == AddedPaths(inputs[..i], f)
    {
      var input := inputs[i];
      assert inputs[..i + 1][..i] == inputs[..i];
      match (input.before, input.after) {
        case (Some(before), None) => removed := Push(removed, before, input.path);
        case (None, Some(after)) => added := Push(added, after, input.path);
        case _ =>
      }
    }
    assert inputs[..|inputs|] == inputs;
  }

  /** Pairs recorded once the identities `done` and the first `n` pairs of `file` are processed. */
  ghost predicate PairedSoFar(inputs: seq<Input>, done: set<SourceFile>, file: SourceFile, n: nat, p: Text, q: Text) {
    exists f, t: nat :: (f in done || (f == file && t < n)) && Paired(inputs, f, t, p, q)
  }

  ghost predicate Records(inputs: seq<Input>, done: set<SourceFile>, file: SourceFile, n: nat, m: map<Text, Text>) {
    forall p, q :: (p in m && m[p] == q) <==> PairedSoFar(inputs, done, file, n, p, q)
  }

  lemma RecordsNext(inputs: seq<Input>, done: set<SourceFile>, file: SourceFile, n: nat, m: map<Text, Text>, p: Text, q: Text)
    requires DistinctPaths(inputs) && Records(inputs, done, file, n, m)
    requires file !in done && Paired(inputs, file, n, p, q)
    ensures Records(inputs, done, file, n + 1, m[p := q])
  {
    var next, k := m[p := q], n + 1;
    forall r, s
      ensures (r in next && next[r] == s) <==> PairedSoFar(inputs, done, file, k, r, s)
    {
      if PairedSoFar(inputs, done, file, k, r, s) {
        var f, t: nat :| (f in done || (f == file && t < k)) && Paired(inputs, f, t, r, s);
        PairedUnique(inputs, file, n, p, q, f, t, r, s);
        if r != p {
          assert PairedSoFar(inputs, done, file, n, r, s);
        }
      }
      if r == p && s == q {
        assert PairedSoFar(inputs, done, file, k, p, q);
      } else if r != p && PairedSoFar(inputs, done, file, n, r, s) {
        var f, t: nat :| (f in done || (f == file && t < n)) && Paired(inputs, f, t, r, s);
        assert t < k || f in done;
      }
    }
  }

  /** Once all pairs of `file` are recorded it joins the processed identities. */
  lemma RecordsDone(inputs: seq<Input>, done: set<SourceFile>, file: SourceFile, other: SourceFile, n: nat, m: map<Text, Text>)
    requires Records(inputs, done, file, n, m)
    requires forall t: nat, p, q :: Paired(inputs, file, t, p, q) ==> t < n
    ensures Records(inputs, done + {file}, other, 0, m)
  {
    forall p, q
      ensures PairedSoFar(inputs, done, file, n, p, q) <==> PairedSoFar(inputs, done + {file}, other, 0, p, q)
    {
      if PairedSoFar(inputs, done, file, n, p, q) {
        var f, t: nat :| (f in done || (f == file && t < n)) && Paired(inputs, f, t, p, q);
        assert f in done + {file};
      }
      if PairedSoFar(inputs, done + {file}, other, 0, p, q) {
        var f, t: nat :| f in done + {file} && Paired(inputs, f, t, p, q);
        assert f in done || (f == file && t < n);
      }
    }
  }

  /** Records the pairs of one identity. */
  method PairIdentity(inputs: seq<Input>, ghost done: set<SourceFile>, file: SourceFile,
                      removed: seq<Text>, added: seq<Text>, start: map<Text, Text>) returns (m: map<Text, Text>)
    requires DistinctPaths(inputs) && file !in done
    requires removed == RemovedPaths(inputs, file) && added == AddedPaths(inputs, file)
    requires Records(inputs, done, file, 0, start)
    ensures Records(inputs, done + {file}, file, 0, m)
  {
    hide Records;
    var beforePaths, afterPaths := Sort(TextLess, removed), Sort(TextLess, added);
    m := start;
    var n := Min(|beforePaths|, |afterPaths|);
    for t := 0 to n
      invariant Records(inputs, done, file, t, m)
    {
      RecordsNext(inputs, done, file, t, m, beforePaths[t], afterPaths[t]);
      m := m[beforePaths[t] := afterPaths[t]];
    }
    RecordsDone(inputs, done, file, file, n, m);
  }

  lemma RecordsSwitch(inputs: seq<Input>, done: set<SourceFile>, a: SourceFile, b: SourceFile, m: map<Text, Text>)
    requires Records(inputs, done, a, 0, m)
    ensures Records(inputs, done, b, 0, m)
  {
    forall p, q
      ensures PairedSoFar(inputs, done, a, 0, p, q) <==> PairedSoFar(inputs, done, b, 0, p, q)
    {
    }
  }

  /** `exact_content_path_continuity` */
  method ExactContentPathContinuity(inputs: seq<Input>) returns (m: map<Text, Text>)
    requires DistinctPaths(inputs)
    ensures IsContinuity(inputs, m)
  {
    var removed, added := GroupPaths(inputs);
    m := map[];
    var pending := removed.Keys;
    ghost var done: set<SourceFile> := {};
    while pending != {}
      invariant pending + done == removed.Keys && pending !! done
      invariant forall f :: Records(inputs, done, f, 0, m)
      decreases pending
    {
      var file :| file in pending;
      var next := m;
      if file in added {
        next := PairIdentity(inputs, done, file, removed[file], added[file], m);
      } else {
        RecordsDone(inputs, done, file, file, 0, m);
      }
      forall f
        ensures Records(inputs, done + {file}, f, 0, next)
      {
        RecordsSwitch(inputs, done + {file}, file, f, next);
      }
      m := next;
      done := done + {file};
      pending := pending - {file};
    }
    RecordsAll(inputs, done, removed, m);
  }

  lemma RecordsAll(inputs: seq<Input>, done: set<SourceFile>, removed: PathLists, m: map<Text, Text>)
    requires forall f :: Records(inputs, done, f, 0, m)
    requires done == removed.Keys && forall f :: ListAt(removed, f) == RemovedPaths(inputs, f)
    ensures IsContinuity(inputs, m)
  {
    forall p, q
      ensures (p in m && m[p] == q) <==> PairedBySome(inputs, p, q)
    {
      var any := SourceFile([], 0, []);
      assert Records(inputs, done, any, 0, m);
      if PairedBySome(inputs, p, q) {
        var f, t: nat :| Paired(inputs, f, t, p, q);
        assert RemovedPaths(inputs, f) != [];
        assert f in done;
        assert PairedSoFar(inputs, done, any, 0, p, q);
      }
      if PairedSoFar(inputs, done, any, 0, p, q) {
        var f, t: nat :| f in done && Paired(inputs, f, t, p, q);
        assert PairedBySome(inputs, p, q);
      }
    }
  }

  /** Pairing is as large as it can be: the smaller side of every identity is paired entirely. */
  lemma ContinuityMaximal(inputs: seq<Input>, m: map<Text, Text>, file: SourceFile)
    requires DistinctPaths(inputs) && IsContinuity(inputs, m)
    ensures |RemovedPaths(inputs, file)| <= |AddedPaths(inputs, file)| ==>
              forall p :: p in RemovedPaths(inputs, file) ==> p in m
    ensures |AddedPaths(inputs, file)| <= |RemovedPaths(inputs, file)| ==>
              forall q :: q in AddedPaths(inputs, file) ==> q in m.Values
  {
    RemovedDistinct(inputs, file);
    AddedDistinct(inputs, file);
    SortDistinct(RemovedPaths(inputs, file));
    SortDistinct(AddedPaths(inputs, file));
    var removed, added := Sort(TextLess, RemovedPaths(inputs, file)), Sort(TextLess, AddedPaths(inputs, file));
    forall t: nat | t < |removed| && t < |added|
      ensures removed[t] in m && m[removed[t]] == added[t]
    {
      assert Paired(inputs, file, t, removed[t], added[t]);
      assert PairedBySome(inputs, removed[t], added[t]);
    }
  }
}
