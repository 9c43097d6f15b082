/** Token-region facts of one file: the token records and the winnowed anchors. */
module RegionFacts {
  import opened Bytes
  import opened Words
  import opened Winnowing
  import opened WinnowerModel
  import RollingHash

  datatype Token = Token(tag: byte, text: seq<byte>, counted: bool, startByte: u32, endByte: u32)

  /** A counted token with the encoding of the uncounted tokens before it. */
  datatype Record = Record(startByte: u32, endByte: u32, tag: byte, prefix: seq<byte>, text: seq<byte>)

  datatype Status = Complete | Truncated

  datatype Facts = Facts(status: Status, tokenCount: nat, encodedTokens: seq<byte>, anchors: seq<Anchor>)

  const TRUNCATED_REGIONS: Facts := Facts(Truncated, 0, [], [])

  /** The token hash depends on the uncounted prefix, the tag and the text. */
  type TokenHash = (seq<byte>, byte, seq<byte>) -> HashPair

  function Component(tag: byte, text: seq<byte>): seq<byte> {
    [tag] + BigEndian(SaturateU32(|text|), 4) + text
  }

  function EncodeRecord(r: Record): seq<byte> {
    BigEndian(r.startByte, 4) + BigEndian(r.endByte, 4) + [r.tag] + BigEndian(|r.prefix|, 2) + r.prefix
  }

  function EncodeRecords(rs: seq<Record>): seq<byte> {
    if rs == [] then [] else EncodeRecords(rs[..|rs| - 1]) + EncodeRecord(rs[|rs| - 1])
  }

  function Hashes(hash: TokenHash, rs: seq<Record>): seq<HashPair> {
    seq(|rs|, i requires 0 <= i < |rs| => hash(rs[i].prefix, rs[i].tag, rs[i].text))
  }

  /** What the scanner has read: the records so far and the pending uncounted tokens, or a
      malformed stream. */
  datatype Scan = Malformed | Reading(records: seq<Record>, pending: seq<byte>)

  function ScanStep(scan: Scan, t: Token): Scan {
    match scan
    case Malformed => Malformed
    case Reading(records, pending) =>
      if !t.counted then
        var grown := pending + Component(t.tag, t.text);
        if |grown| > U16_MAX then Malformed else Reading(records, grown)
      else if t.endByte < t.startByte || |pending| > U16_MAX then Malformed
      else Reading(records + [Record(t.startByte, t.endByte, t.tag, pending, t.text)], [])
  }

  function ScanAll(tokens: seq<Token>): Scan {
    if tokens == [] then Reading([], []) else ScanStep(ScanAll(tokens[..|tokens| - 1]), tokens[|tokens| - 1])
  }

  /** The facts are all or nothing: either every record and every anchor, or none. */
  function FactsOf(bases: Bases, hash: TokenHash, tokens: seq<Token>): Facts {
    match ScanAll(tokens)
    case Malformed => TRUNCATED_REGIONS
    case Reading(records, _) =>
      var anchors := Anchors(bases, Hashes(hash, records));
      if |anchors| > MAX_ANCHORS then TRUNCATED_REGIONS
      else Facts(Complete, SaturateU32(|records|), EncodeRecords(records), anchors)
  }

  lemma {:induction false} MalformedPersists(tokens: seq<Token>, n: nat)
    requires n <= |tokens| && ScanAll(tokens[..n]) == Malformed
    ensures ScanAll(tokens) == Malformed
    decreases |tokens| - n
  {
    if n == |tokens| {
      assert tokens[..n] == tokens;
    } else {
      assert tokens[..n + 1][..n] == tokens[..n];
      MalformedPersists(tokens, n + 1);
    }
  }

  lemma MalformedTruncates(bases: Bases, hash: TokenHash, tokens: seq<Token>, n: nat)
    requires n <= |tokens| && ScanAll(tokens[..n]) == Malformed
    ensures FactsOf(bases, hash, tokens) == TRUNCATED_REGIONS
  {
    MalformedPersists(tokens, n);
  }

  /** Once the anchors of a prefix exceed the bound, so do the anchors of the whole stream. */
  lemma {:induction false} OverflowPersists(bases: Bases, hash: TokenHash, tokens: seq<Token>, n: nat)
    requires n <= |tokens| && ScanAll(tokens[..n]).Reading?
    requires |Anchors(bases, Hashes(hash, ScanAll(tokens[..n]).records))| > MAX_ANCHORS
    ensures FactsOf(bases, hash, tokens) == TRUNCATED_REGIONS
    decreases |tokens| - n
  {
    hide RollingHash.Poly;
    if n == |tokens| {
      assert tokens[..n] == tokens;
    } else {
      assert tokens[..n + 1][..n] == tokens[..n];
      if ScanAll(tokens[..n + 1]) == Malformed {
        MalformedPersists(tokens, n + 1);
      } else {
        var records, more := ScanAll(tokens[..n]).records, ScanAll(tokens[..n + 1]).records;
        if more != records {
          var stream, t := Hashes(hash, records), Hashes(hash, more)[|records|];
          assert Hashes(hash, more) == stream + [t];
          AnchorsGrow(bases, stream, t);
        }
        OverflowPersists(bases, hash, tokens, n + 1);
      }
    }
  }

  lemma AnchorsGrow(bases: Bases, stream: seq<HashPair>, t: HashPair)
    ensures |Anchors(bases, stream)| <= |Anchors(bases, stream + [t])|
  {
    var ks, more := Kgrams(bases, stream), Kgrams(bases, stream + [t]);
    KgramsSnoc(bases, stream, t);
    assert more[..|ks|] == ks;
    SelectionsGrow(more, |ks|);
  }

  lemma ScanBegins(bases: Bases, hash: TokenHash, tokens: seq<Token>)
    ensures ScanAll(tokens[..0]) == Reading([], []) && Hashes(hash, []) == [] && EncodeRecords([]) == []
  {
  }

  lemma ScanNext(tokens: seq<Token>, i: nat)
    requires i < |tokens|
    ensures ScanAll(tokens[..i + 1]) == ScanStep(ScanAll(tokens[..i]), tokens[i])
  {
    assert tokens[..i + 1][..i] == tokens[..i];
  }

  lemma RecordNext(hash: TokenHash, records: seq<Record>, r: Record)
    ensures Hashes(hash, records + [r]) == Hashes(hash, records) + [hash(r.prefix, r.tag, r.text)]
    ensures EncodeRecords(records + [r]) == EncodeRecords(records) + EncodeRecord(r)
  {
    hide BigEndian;
    assert (records + [r])[..|records|] == records;
  }

  lemma ScanEnds(bases: Bases, hash: TokenHash, tokens: seq<Token>, records: seq<Record>, pending: seq<byte>)
    requires ScanAll(tokens[..|tokens|]) == Reading(records, pending)
    requires |Anchors(bases, Hashes(hash, records))| <= MAX_ANCHORS
    ensures FactsOf(bases, hash, tokens)
         == Facts(Complete, SaturateU32(|records|), EncodeRecords(records), Anchors(bases, Hashes(hash, records)))
  {
    hide Anchors;
    assert tokens[..|tokens|] == tokens;
  }

  /** `region_fingerprints`: one pass over the tokens, abandoned at the first failure. */
  method RegionFingerprints(bases: Bases, hash: TokenHash, tokens: seq<Token>) returns (facts: Facts)
    ensures facts == FactsOf(bases, hash, tokens)
  {
    hide Winnower.Valid;
    hide Anchors, BigEndian, FactsOf, EncodeRecords, Hashes, ScanAll;
    var encoded: seq<byte>, pending: seq<byte> := [], [];
    var tokenCount := 0;
    var winnower := new Winnower(bases);
    ghost var records: seq<Record> := [];
    ScanBegins(bases, hash, tokens);
    for i := 0 to |tokens|
      invariant fresh(winnower) && winnower.Valid() && winnower.bases == bases
      invariant ScanAll(tokens[..i]) == Reading(records, pending)
      invariant winnower.tokens == Hashes(hash, records)
      invariant winnower.anchors == Anchors(bases, winnower.tokens) && |winnower.anchors| <= MAX_ANCHORS
      invariant encoded == EncodeRecords(records) && tokenCount == |records|
    {
      var token := tokens[i];
      ScanNext(tokens, i);
      if !token.counted {
        pending := pending + Component(token.tag, token.text);
        if |pending| > U16_MAX {
          MalformedTruncates(bases, hash, tokens, i + 1);
          return TRUNCATED_REGIONS;
        }
      } else {
        if token.endByte < token.startByte || |pending| > U16_MAX {
          MalformedTruncates(bases, hash, tokens, i + 1);
          return TRUNCATED_REGIONS;
        }
        ghost var record := Record(token.startByte, token.endByte, token.tag, pending, token.text);
        RecordNext(hash, records, record);
        records := records + [record];
        encoded := encoded + (BigEndian(token.startByte, 4) + BigEndian(token.endByte, 4) + [token.tag]
                              + BigEndian(|pending|, 2) + pending);
        var tokenHash := hash(pending, token.tag, token.text);
        pending := [];
        var ok := winnower.Push(tokenHash);
        if !ok {
          OverflowPersists(bases, hash, tokens, i + 1);
          return TRUNCATED_REGIONS;
        }
        tokenCount := tokenCount + 1;
      }
    }
    ScanEnds(bases, hash, tokens, records, pending);
    facts := Facts(Complete, SaturateU32(tokenCount), encoded, winnower.anchors);
  }

  /** What the fingerprint is computed from: everything but the byte positions. */
  function Normalized(rs: seq<Record>): seq<(seq<byte>, byte, seq<byte>)> {
    seq(|rs|, i requires 0 <= i < |rs| => (rs[i].prefix, rs[i].tag, rs[i].text))
  }

  lemma SharedRecordsShareAnchor(bases: Bases, hash: TokenHash, left: seq<Token>, right: seq<Token>, a: nat, b: nat)
    requires FactsOf(bases, hash, left).status == Complete && FactsOf(bases, hash, right).status == Complete
    requires a + MIN_REGION_TOKENS <= |ScanAll(left).records| && b + MIN_REGION_TOKENS <= |ScanAll(right).records|
    requires Normalized(ScanAll(left).records)[a..a + MIN_REGION_TOKENS]
          == Normalized(ScanAll(right).records)[b..b + MIN_REGION_TOKENS]
    ensures exists d: nat, h: HashPair ::
              CommonAnchor(FactsOf(bases, hash, left).anchors, FactsOf(bases, hash, right).anchors, a, b, d, h)
  {
    hide RollingHash.Poly;
    var ls, rs := ScanAll(left).records, ScanAll(right).records;
    var lh, rh := Hashes(hash, ls), Hashes(hash, rs);
    EqualNormalizedHash(hash, ls, rs, a, b);
    SharedRunSharesAnchor(bases, lh, rh, a, b);
    assert FactsOf(bases, hash, left).anchors == Anchors(bases, lh);
    assert FactsOf(bases, hash, right).anchors == Anchors(bases, rh);
  }

  lemma EqualNormalizedHash(hash: TokenHash, ls: seq<Record>, rs: seq<Record>, a: nat, b: nat)
    requires a + MIN_REGION_TOKENS <= |ls| && b + MIN_REGION_TOKENS <= |rs|
    requires Normalized(ls)[a..a + MIN_REGION_TOKENS] == Normalized(rs)[b..b + MIN_REGION_TOKENS]
    ensures Hashes(hash, ls)[a..a + MIN_REGION_TOKENS] == Hashes(hash, rs)[b..b + MIN_REGION_TOKENS]
  {
    var ln, rn := Normalized(ls)[a..a + MIN_REGION_TOKENS], Normalized(rs)[b..b + MIN_REGION_TOKENS];
    var lh, rh := Hashes(hash, ls)[a..a + MIN_REGION_TOKENS], Hashes(hash, rs)[b..b + MIN_REGION_TOKENS];
    forall i | 0 <= i < |lh|
      ensures lh[i] == rh[i]
    {
      assert ln[i] == (ls[a + i].prefix, ls[a + i].tag, ls[a + i].text);
      assert rn[i] == (rs[b + i].prefix, rs[b + i].tag, rs[b + i].text);
    }
  }
}
