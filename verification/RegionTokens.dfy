/** The token-region facts of a file, told from its tokens: which streams have facts, what the records
    and hashes are, and what files that share a run of tokens have in common. */
module RegionTokens {
  import opened Bytes
  import opened Collections
  import opened Words
  import opened Winnowing
  import opened RegionFacts

  // What the records are, told from the tokens.

  /** The encodings of the tokens, one after the other. */
  function Encoding(ts: seq<Token>): seq<byte> {
    if ts == [] then [] else Encoding(ts[..|ts| - 1]) + Component(ts[|ts| - 1].tag, ts[|ts| - 1].text)
  }

  /** `at` lists the positions of the counted tokens. */
  ghost predicate CountedAt(tokens: seq<Token>, at: seq<nat>) {
    Increasing(at) && forall i: nat :: i in at <==> i < |tokens| && tokens[i].counted
  }

  /** Where the uncounted tokens before the `t`-th counted token begin. */
  function GapStart(at: seq<nat>, t: nat): nat
    requires t <= |at|
  {
    if t == 0 then 0 else at[t - 1] + 1
  }

  /** The record of a counted token: its positions, tag and text, and the encoding of the tokens strictly
      between the previous counted token and itself. */
  ghost predicate Describes(r: Record, tokens: seq<Token>, at: seq<nat>, t: nat) {
    && t < |at| && at[t] < |tokens| && GapStart(at, t) <= at[t]
    && r.startByte == tokens[at[t]].startByte && r.endByte == tokens[at[t]].endByte
    && r.tag == tokens[at[t]].tag && r.text == tokens[at[t]].text
    && r.prefix == Encoding(tokens[GapStart(at, t)..at[t]])
  }

  /** The pending bytes encode the tokens after the last counted one. */
  ghost predicate Remains(pending: seq<byte>, tokens: seq<Token>, at: seq<nat>) {
    GapStart(at, |at|) <= |tokens| && pending == Encoding(tokens[GapStart(at, |at|)..])
  }

  ghost predicate Scanned(scan: Scan, tokens: seq<Token>, at: seq<nat>) {
    && scan.Reading? && CountedAt(tokens, at) && |scan.records| == |at| && Remains(scan.pending, tokens, at)
    && forall t :: 0 <= t < |at| ==> Describes(scan.records[t], tokens, at, t)
  }

  /** The records of a readable stream are its counted tokens in order, each with the uncounted tokens
      between the previous counted token and itself. */
  lemma {:induction false} RecordsFromTokens(tokens: seq<Token>) returns (at: seq<nat>)
    requires ScanAll(tokens).Reading?
    ensures Scanned(ScanAll(tokens), tokens, at)
  {
    hide Component, ScanStep;
    if tokens == [] {
      at := [];
    } else {
      var front, token := tokens[..|tokens| - 1], tokens[|tokens| - 1];
      assert tokens == front + [token];
      StepReads(ScanAll(front), token);
      at := RecordsFromTokens(front);
      if token.counted {
        CountedStep(ScanAll(front), front, at, token);
        at := at + [|front|];
      } else {
        UncountedStep(ScanAll(front), front, at, token);
      }
    }
  }

  lemma {:induction false} StepReads(scan: Scan, token: Token)
    requires ScanStep(scan, token).Reading?
    ensures scan.Reading?
  {
  }

  lemma {:induction false} CountedStep(scan: Scan, tokens: seq<Token>, at: seq<nat>, token: Token)
    requires Scanned(scan, tokens, at) && token.counted && ScanStep(scan, token).Reading?
    ensures Scanned(ScanStep(scan, token), tokens + [token], at + [|tokens|])
  {
    CountedAtMore(tokens, at, token);
    var r := Record(token.startByte, token.endByte, token.tag, scan.pending, token.text);
    var next, all, more := ScanStep(scan, token), tokens + [token], at + [|tokens|];
    assert next == Reading(scan.records + [r], []);
    hide Component, ScanStep, CountedAt;
    forall t | 0 <= t < |more|
      ensures Describes(next.records[t], all, more, t)
    {
      if t < |at| {
        DescribesMore(scan.records[t], tokens, at, t, token, [|tokens|]);
      } else {
        assert all[GapStart(more, t)..more[t]] == tokens[GapStart(at, |at|)..];
      }
    }
    assert all[GapStart(more, |more|)..] == [];
  }

  lemma {:induction false} UncountedStep(scan: Scan, tokens: seq<Token>, at: seq<nat>, token: Token)
    requires Scanned(scan, tokens, at) && !token.counted && ScanStep(scan, token).Reading?
    ensures Scanned(ScanStep(scan, token), tokens + [token], at)
  {
    CountedAtMore(tokens, at, token);
    var next, all, g := ScanStep(scan, token), tokens + [token], GapStart(at, |at|);
    assert next.records == scan.records;
    PendingMore(scan.pending, tokens, at, token);
    hide Component, Encoding, CountedAt;
    forall t | 0 <= t < |at|
      ensures Describes(next.records[t], all, at, t)
    {
      DescribesMore(scan.records[t], tokens, at, t, token, []);
      assert at + [] == at;
    }
  }

  lemma {:induction false} PendingMore(pending: seq<byte>, tokens: seq<Token>, at: seq<nat>, token: Token)
    requires Remains(pending, tokens, at)
    ensures Remains(pending + Component(token.tag, token.text), tokens + [token], at)
  {
    hide Component;
    var rest := (tokens + [token])[GapStart(at, |at|)..];
    assert rest[..|rest| - 1] == tokens[GapStart(at, |at|)..] && rest[|rest| - 1] == token;
  }

  lemma {:induction false} DescribesMore(r: Record, tokens: seq<Token>, at: seq<nat>, t: nat, token: Token, more: seq<nat>)
    requires Describes(r, tokens, at, t)
    ensures Describes(r, tokens + [token], at + more, t)
  {
    hide Encoding;
    assert (tokens + [token])[GapStart(at, t)..at[t]] == tokens[GapStart(at, t)..at[t]];
    assert GapStart(at + more, t) == GapStart(at, t);
  }

  lemma {:induction false} CountedAtMore(tokens: seq<Token>, at: seq<nat>, token: Token)
    requires CountedAt(tokens, at)
    ensures CountedAt(tokens + [token], if token.counted then at + [|tokens|] else at)
  {
    var more, all := if token.counted then at + [|tokens|] else at, tokens + [token];
    forall i | 0 <= i < |at|
      ensures at[i] < |tokens|
    {
      assert at[i] in at;
    }
    assert Increasing(more);
    forall i: nat
      ensures i in more <==> i < |all| && all[i].counted
    {
      assert i in more <==> i in at || (token.counted && i == |tokens|);
      assert i < |tokens| ==> all[i] == tokens[i];
    }
  }

  lemma {:induction false} EncodingNone()
    ensures Encoding([]) == []
  {
  }

  // Which streams are readable.

  ghost predicate Uncounted(ts: seq<Token>) {
    forall i :: 0 <= i < |ts| ==> !ts[i].counted
  }

  /** No counted token ends before it starts and no run of uncounted tokens encodes to more than 65 535 bytes. */
  ghost predicate Fits(tokens: seq<Token>) {
    && (forall i :: 0 <= i < |tokens| && tokens[i].counted ==> tokens[i].startByte <= tokens[i].endByte)
    && (forall i, j :: 0 <= i <= j <= |tokens| && Uncounted(tokens[i..j]) ==> |Encoding(tokens[i..j])| <= U16_MAX)
  }

  lemma {:induction false} EncodingAppend(a: seq<Token>, b: seq<Token>)
    ensures Encoding(a + b) == Encoding(a) + Encoding(b)
  {
    hide Component;
    if b == [] {
      assert a + b == a;
    } else {
      var front, token := b[..|b| - 1], b[|b| - 1];
      EncodingAppend(a, front);
      assert b == front + [token] && a + b == (a + front) + [token];
      EncodingSnoc(front, token);
      EncodingSnoc(a + front, token);
    }
  }

  lemma {:induction false} EncodingSnoc(ts: seq<Token>, token: Token)
    ensures Encoding(ts + [token]) == Encoding(ts) + Component(token.tag, token.text)
  {
    hide Component;
    assert (ts + [token])[..|ts|] == ts;
  }

  /** A stream is readable exactly when it fits. */
  lemma {:induction false} ReadableIffFits(tokens: seq<Token>)
    ensures ScanAll(tokens).Reading? <==> Fits(tokens)
  {
    hide Component, ScanStep, Fits;
    if tokens == [] {
      NothingFits();
    } else {
      var front, token := tokens[..|tokens| - 1], tokens[|tokens| - 1];
      assert tokens == front + [token];
      ReadableIffFits(front);
      if Fits(tokens) {
        FrontFits(front, token);
        var at := RecordsFromTokens(front);
        FitsStep(ScanAll(front), front, at, token);
      }
      if ScanAll(tokens).Reading? {
        StepReads(ScanAll(front), token);
        var at := RecordsFromTokens(tokens);
        ReadFits(ScanAll(front), front, at, token);
      }
    }
  }

  lemma {:induction false} NothingFits()
    ensures Fits([])
  {
    EncodingNone();
    var none: seq<Token> := [];
    assert forall i, j :: 0 <= i <= j <= |none| ==> none[i..j] == [];
  }

  lemma {:induction false} FrontFits(front: seq<Token>, token: Token)
    requires Fits(front + [token])
    ensures Fits(front)
  {
    hide Encoding;
    var tokens := front + [token];
    forall i, j | 0 <= i <= j <= |front| && Uncounted(front[i..j])
      ensures |Encoding(front[i..j])| <= U16_MAX
    {
      assert front[i..j] == tokens[i..j];
    }
    forall i | 0 <= i < |front| && front[i].counted
      ensures front[i].startByte <= front[i].endByte
    {
      assert tokens[i] == front[i];
    }
  }

  lemma {:induction false} FitsStep(scan: Scan, front: seq<Token>, at: seq<nat>, token: Token)
    requires Fits(front + [token]) && Scanned(scan, front, at) && scan == ScanAll(front)
    ensures ScanStep(scan, token).Reading?
  {
    var tokens, g := front + [token], GapStart(at, |at|);
    PendingFits(front);
    assert tokens[|front|] == token;
    if !token.counted {
      PendingMore(scan.pending, front, at, token);
      hide Encoding, Component;
      var rest := tokens[g..|tokens|];
      assert rest == tokens[g..];
      forall i | 0 <= i < |rest|
        ensures !rest[i].counted
      {
        if g + i < |front| {
          LastCounted(front, at, g + i);
        }
      }
      assert Uncounted(tokens[g..|tokens|]);
    }
  }

  /** Nothing after the last listed position is counted. */
  lemma {:induction false} LastCounted(tokens: seq<Token>, at: seq<nat>, i: nat)
    requires CountedAt(tokens, at) && i < |tokens|
    ensures i >= GapStart(at, |at|) ==> !tokens[i].counted
    ensures i < GapStart(at, |at|) ==> i <= at[|at| - 1] < |tokens| && tokens[at[|at| - 1]].counted
  {
    if |at| > 0 {
      assert at[|at| - 1] in at;
    }
    if tokens[i].counted {
      assert i in at;
    }
  }

  lemma {:induction false} PendingFits(tokens: seq<Token>)
    ensures ScanAll(tokens).Reading? ==> |ScanAll(tokens).pending| <= U16_MAX
  {
    hide Component;
  }

  lemma {:induction false} ReadFits(scan: Scan, front: seq<Token>, at: seq<nat>, token: Token)
    requires Fits(front) && scan == ScanAll(front)
    requires ScanAll(front + [token]) == ScanStep(scan, token) && Scanned(ScanStep(scan, token), front + [token], at)
    ensures Fits(front + [token])
  {
    var tokens, n, g := front + [token], |front|, GapStart(at, |at|);
    PendingFits(tokens);
    assert token.counted ==> token.startByte <= token.endByte;
    hide Encoding, Component, ScanAll, ScanStep;
    forall i, j | 0 <= i <= j <= |tokens| && Uncounted(tokens[i..j])
      ensures |Encoding(tokens[i..j])| <= U16_MAX
    {
      if j <= n {
        assert front[i..j] == tokens[i..j];
      } else if i < j {
        LastRun(tokens, at, i);
      } else {
        EncodingNone();
        assert tokens[i..j] == [];
      }
    }
    forall i | 0 <= i < |tokens| && tokens[i].counted
      ensures tokens[i].startByte <= tokens[i].endByte
    {
      assert i < n ==> front[i] == tokens[i];
    }
  }

  lemma {:induction false} LastRun(tokens: seq<Token>, at: seq<nat>, i: nat)
    requires CountedAt(tokens, at) && i < |tokens| && Uncounted(tokens[i..|tokens|]) && GapStart(at, |at|) <= |tokens|
    ensures |Encoding(tokens[i..|tokens|])| <= |Encoding(tokens[GapStart(at, |at|)..])|
  {
    hide Encoding;
    var g := GapStart(at, |at|);
    LastCounted(tokens, at, i);
    forall k | i <= k < |tokens|
      ensures !tokens[k].counted
    {
      assert !tokens[i..|tokens|][k - i].counted;
    }
    assert tokens[g..] == tokens[g..i] + tokens[i..|tokens|];
    EncodingAppend(tokens[g..i], tokens[i..|tokens|]);
  }

  // The encoding of a gap determines its tokens.

  lemma {:induction false} ComponentCancels(t: Token, u: Token, x: seq<byte>, y: seq<byte>)
    requires |t.text| <= U32_MAX && |u.text| <= U32_MAX
    requires Component(t.tag, t.text) + x == Component(u.tag, u.text) + y
    ensures t.tag == u.tag && t.text == u.text && x == y
  {
    hide BigEndian;
    Ranges();
    var a, b := Component(t.tag, t.text), Component(u.tag, u.text);
    assert (a + x)[0] == t.tag && (b + y)[0] == u.tag;
    assert (a + x)[1..5] == BigEndian(|t.text|, 4) && (b + y)[1..5] == BigEndian(|u.text|, 4);
    BigEndianInjective(|t.text|, |u.text|, 4);
    assert (a + x)[5..|a|] == t.text && (b + y)[5..|a|] == u.text;
    assert (a + x)[|a|..] == x && (b + y)[|a|..] == y;
  }

  ghost predicate SameTexts(a: seq<Token>, b: seq<Token>) {
    |a| == |b| && forall i :: 0 <= i < |a| ==> a[i].tag == b[i].tag && a[i].text == b[i].text
  }

  /** Gaps of a readable stream have one encoding exactly when they have the same tags and texts. */
  lemma {:induction false} EncodingDetermines(a: seq<Token>, b: seq<Token>)
    requires |Encoding(a)| <= U16_MAX && |Encoding(b)| <= U16_MAX
    ensures Encoding(a) == Encoding(b) <==> SameTexts(a, b)
  {
    hide Component;
    if a == [] || b == [] {
      EncodingNone();
      if a != [] {
        EncodingCons(a);
      }
      if b != [] {
        EncodingCons(b);
      }
    } else {
      EncodingCons(a);
      EncodingCons(b);
      EncodingDetermines(a[1..], b[1..]);
      if Encoding(a) == Encoding(b) {
        ComponentCancels(a[0], b[0], Encoding(a[1..]), Encoding(b[1..]));
      }
      SameTextsCons(a, b);
    }
  }

  lemma {:induction false} SameTextsCons(a: seq<Token>, b: seq<Token>)
    requires a != [] && b != []
    ensures SameTexts(a, b) <==> a[0].tag == b[0].tag && a[0].text == b[0].text && SameTexts(a[1..], b[1..])
  {
    assert a == [a[0]] + a[1..] && b == [b[0]] + b[1..];
    if SameTexts(a[1..], b[1..]) {
      forall i | 1 <= i < |a|
        ensures a[i].tag == b[i].tag && a[i].text == b[i].text
      {
        assert a[1..][i - 1].tag == b[1..][i - 1].tag;
      }
    }
  }

  lemma {:induction false} EncodingCons(ts: seq<Token>)
    requires ts != []
    ensures Encoding(ts) == Component(ts[0].tag, ts[0].text) + Encoding(ts[1..])
    ensures |Encoding(ts)| > |Encoding(ts[1..])| && |ts[0].text| <= |Encoding(ts)|
  {
    assert ts == [ts[0]] + ts[1..];
    EncodingAppend([ts[0]], ts[1..]);
    assert [ts[0]][..0] == [];
  }

  // The facts, told from the tokens.

  /** The hash of the `t`-th counted token: of its gap, tag and text. */
  ghost predicate Hashed(h: HashPair, hash: TokenHash, tokens: seq<Token>, at: seq<nat>, t: nat) {
    && t < |at| && at[t] < |tokens| && GapStart(at, t) <= at[t]
    && h == hash(Encoding(tokens[GapStart(at, t)..at[t]]), tokens[at[t]].tag, tokens[at[t]].text)
  }

  /** A file has complete facts exactly when its tokens fit and their hashes select at most 4096 anchors;
      it then lists those anchors and the number of its counted tokens, and otherwise nothing. */
  lemma {:induction false} FactsFromTokens(bases: Bases, hash: TokenHash, tokens: seq<Token>, at: seq<nat>,
                                           stream: seq<HashPair>)
    requires CountedAt(tokens, at) && |stream| == |at|
    requires forall t :: 0 <= t < |at| ==> Hashed(stream[t], hash, tokens, at, t)
    ensures var facts := FactsOf(bases, hash, tokens);
            && (facts.status == Complete <==> Fits(tokens) && |Anchors(bases, stream)| <= MAX_ANCHORS)
            && (facts.status == Complete ==> facts.anchors == Anchors(bases, stream) && facts.tokenCount == SaturateU32(|at|))
            && (facts.status != Complete ==> facts == Facts(Truncated, 0, [], []))
  {
    ReadableIffFits(tokens);
    hide Anchors, EncodeRecords, ScanAll, Fits;
    if ScanAll(tokens).Reading? {
      var records := ScanAll(tokens).records;
      var at' := RecordsFromTokens(tokens);
      SamePositions(tokens, at, at');
      forall t | 0 <= t < |at|
        ensures Hashes(hash, records)[t] == stream[t]
      {
        assert Describes(records[t], tokens, at, t) && Hashed(stream[t], hash, tokens, at, t);
      }
      assert Hashes(hash, records) == stream;
    }
  }

  lemma {:induction false} SamePositions(tokens: seq<Token>, a: seq<nat>, b: seq<nat>)
    requires CountedAt(tokens, a) && CountedAt(tokens, b)
    ensures a == b
  {
    IncreasingUnique(a, b);
  }

  // Shared runs of tokens.

  /** The runs of `n` tokens from `p` and from `q` agree on everything but the positions. */
  ghost predicate SameRun(left: seq<Token>, p: nat, right: seq<Token>, q: nat, n: nat) {
    && p + n <= |left| && q + n <= |right|
    && SameShapes(left[p..p + n], right[q..q + n])
  }

  ghost predicate SameShapes(a: seq<Token>, b: seq<Token>) {
    |a| == |b| && forall i :: 0 <= i < |a| ==> SameShape(a[i], b[i])
  }

  predicate SameShape(t: Token, u: Token) {
    t.tag == u.tag && t.text == u.text && t.counted == u.counted
  }

  /** Position `p` is not in the middle of a gap. */
  predicate Begins(tokens: seq<Token>, p: nat)
    requires p <= |tokens|
  {
    p == 0 || tokens[p - 1].counted
  }

  function Counted(tokens: seq<Token>): nat {
    if tokens == [] then 0 else Counted(tokens[..|tokens| - 1]) + if tokens[|tokens| - 1].counted then 1 else 0
  }

  lemma {:induction false} ScanCounts(tokens: seq<Token>)
    ensures ScanAll(tokens).Reading? ==> |ScanAll(tokens).records| == Counted(tokens)
  {
    hide Component;
    if tokens != [] {
      ScanCounts(tokens[..|tokens| - 1]);
    }
  }

  /** Scanning starts afresh after a counted token. */
  lemma {:induction false} ScanAppend(a: seq<Token>, b: seq<Token>)
    requires ScanAll(a).Reading? && ScanAll(a).pending == []
    ensures ScanAll(a + b)
         == match ScanAll(b) case Malformed => Malformed
                             case Reading(more, pending) => Reading(ScanAll(a).records + more, pending)
  {
    hide Component;
    if b == [] {
      assert a + b == a;
    } else {
      ScanAppend(a, b[..|b| - 1]);
      assert (a + b)[..|a + b| - 1] == a + b[..|b| - 1];
    }
  }

  lemma {:induction false} ScanExtends(a: seq<Token>, b: seq<Token>)
    requires ScanAll(a + b).Reading?
    ensures ScanAll(a).Reading? && ScanAll(a).records <= ScanAll(a + b).records
  {
    hide Component;
    if b == [] {
      assert a + b == a;
    } else {
      assert (a + b)[..|a + b| - 1] == a + b[..|b| - 1];
      ScanExtends(a, b[..|b| - 1]);
    }
  }

  lemma {:induction false} SameShapesSameRecords(a: seq<Token>, b: seq<Token>)
    requires SameShapes(a, b)
    requires ScanAll(a).Reading? && ScanAll(b).Reading?
    ensures Normalized(ScanAll(a).records) == Normalized(ScanAll(b).records) && ScanAll(a).pending == ScanAll(b).pending
  {
    hide Component;
    if a != [] {
      SameShapesSameRecords(a[..|a| - 1], b[..|b| - 1]);
      NormalizedStep(a, b);
    }
  }

  lemma {:induction false} NormalizedStep(a: seq<Token>, b: seq<Token>)
    requires a != [] && b != [] && SameShape(a[|a| - 1], b[|b| - 1]) && ScanAll(a).Reading? && ScanAll(b).Reading?
    requires var x, y := ScanAll(a[..|a| - 1]), ScanAll(b[..|b| - 1]);
             x.Reading? && y.Reading? && Normalized(x.records) == Normalized(y.records) && x.pending == y.pending
    ensures Normalized(ScanAll(a).records) == Normalized(ScanAll(b).records) && ScanAll(a).pending == ScanAll(b).pending
  {
    hide Component;
    var t, u, x, y := a[|a| - 1], b[|b| - 1], ScanAll(a[..|a| - 1]), ScanAll(b[..|b| - 1]);
    if t.counted {
      NormalizedSnoc(x.records, Record(t.startByte, t.endByte, t.tag, x.pending, t.text));
      NormalizedSnoc(y.records, Record(u.startByte, u.endByte, u.tag, y.pending, u.text));
    }
  }

  lemma {:induction false} NormalizedSnoc(rs: seq<Record>, r: Record)
    ensures Normalized(rs + [r]) == Normalized(rs) + [(r.prefix, r.tag, r.text)]
  {
  }

  /** The records of a run that begins after a counted token are those of the run alone. */
  lemma {:induction false} RunRecords(tokens: seq<Token>, p: nat, n: nat)
    requires p + n <= |tokens| && Begins(tokens, p) && ScanAll(tokens).Reading?
    ensures ScanAll(tokens[p..p + n]).Reading?
    ensures var run := ScanAll(tokens[p..p + n]).records;
            && |run| == Counted(tokens[p..p + n]) && Counted(tokens[..p]) + |run| <= |ScanAll(tokens).records|
            && ScanAll(tokens).records[Counted(tokens[..p])..][..|run|] == run
  {
    var a, b := tokens[..p], tokens[p..p + n];
    assert tokens == (a + b) + tokens[p + n..];
    ScanExtends(a + b, tokens[p + n..]);
    ScanExtends(a, b);
    assert ScanAll(a).pending == [] by {
      hide Component;
    }
    ScanAppend(a, b);
    ScanCounts(a);
    ScanCounts(b);
  }

  /** Files whose complete facts share a run of tokens with 48 counted ones, beginning after a counted
      token, share an anchor there. */
  lemma {:induction false} SharedTokensShareAnchor(bases: Bases, hash: TokenHash, left: seq<Token>, p: nat, right: seq<Token>, q: nat, n: nat)
    requires FactsOf(bases, hash, left).status == Complete && FactsOf(bases, hash, right).status == Complete
    requires SameRun(left, p, right, q, n) && Begins(left, p) && Begins(right, q)
    requires Counted(left[p..p + n]) >= MIN_REGION_TOKENS
    ensures exists d: nat, h: HashPair ::
              CommonAnchor(FactsOf(bases, hash, left).anchors, FactsOf(bases, hash, right).anchors,
                           Counted(left[..p]), Counted(right[..q]), d, h)
  {
    var l, r := left[p..p + n], right[q..q + n];
    var a, b := Counted(left[..p]), Counted(right[..q]);
    RunRecords(left, p, n);
    RunRecords(right, q, n);
    SameShapesSameRecords(l, r);
    NormalizedRun(ScanAll(left).records, ScanAll(l).records, a);
    NormalizedRun(ScanAll(right).records, ScanAll(r).records, b);
    SharedRecordsShareAnchor(bases, hash, left, right, a, b);
  }

  lemma {:induction false} NormalizedRun(rs: seq<Record>, run: seq<Record>, a: nat)
    requires a + |run| <= |rs| && rs[a..][..|run|] == run && |run| >= MIN_REGION_TOKENS
    ensures Normalized(rs)[a..a + MIN_REGION_TOKENS] == Normalized(run)[..MIN_REGION_TOKENS]
  {
    forall i | 0 <= i < MIN_REGION_TOKENS
      ensures Normalized(rs)[a + i] == Normalized(run)[i]
    {
      assert rs[a..][..|run|][i] == run[i];
    }
  }
}
