/** Reading back the token records of a file's region facts: the consumer of what
    `RegionFacts.RegionFingerprints` produces. */
module Evidence {
  import opened Collections
  import opened Bytes
  import opened Words
  import opened Winnowing
  import opened RegionFacts

  const MIN_RECORD_BYTES: nat := 11

  /** A decoded token; its prefix is a range of the encoded bytes. */
  datatype DecodedToken = DecodedToken(start: u32, end: u32, tag: byte, prefixFrom: nat, prefixTo: nat)

  /** The record at the cursor, before its positions are checked. */
  function ReadRecord(bytes: seq<byte>, cursor: nat): Option<DecodedToken> {
    Ranges();
    if cursor + MIN_RECORD_BYTES > |bytes| then None
    else
      EncodeDecode(bytes[cursor..cursor + 4]);
      EncodeDecode(bytes[cursor + 4..cursor + 8]);
      var start := FromBigEndian(bytes[cursor..cursor + 4]);
      var end := FromBigEndian(bytes[cursor + 4..cursor + 8]);
      var from := cursor + MIN_RECORD_BYTES;
      var to := from + FromBigEndian(bytes[cursor + 9..cursor + 11]);
      if to > |bytes| then None else Some(DecodedToken(start, end, bytes[cursor + 8], from, to))
  }

  /** Source order without overlap, no empty token, inside the source. */
  predicate Follows(t: DecodedToken, sourceLength: nat, previousEnd: nat) {
    t.start < t.end <= sourceLength && previousEnd <= t.start
  }

  /** All records from the cursor on. */
  function DecodeFrom(bytes: seq<byte>, sourceLength: nat, cursor: nat, previousEnd: nat): Option<seq<DecodedToken>>
    requires cursor <= |bytes|
    decreases |bytes| - cursor
  {
    if cursor == |bytes| then Some([])
    else
      match ReadRecord(bytes, cursor)
      case None => None
      case Some(t) =>
        if !Follows(t, sourceLength, previousEnd) then None
        else
          match DecodeFrom(bytes, sourceLength, t.prefixTo, t.end)
          case None => None
          case Some(rest) => Some([t] + rest)
  }

  function Exactly(r: Option<seq<DecodedToken>>, expected: nat): Option<seq<DecodedToken>> {
    if r.Some? && |r.value| == expected then r else None
  }

  /** `decode_token_records`: stops at the first record that is cut off, out of order or in excess. */
  method DecodeTokenRecords(bytes: seq<byte>, sourceLength: nat, expected: nat) returns (r: Option<seq<DecodedToken>>)
    ensures r == Exactly(DecodeFrom(bytes, sourceLength, 0, 0), expected)
  {
    hide ReadRecord;
    var tokens: seq<DecodedToken> := [];
    var cursor, previousEnd := 0, 0;
    ghost var whole := DecodeFrom(bytes, sourceLength, 0, 0);
    PrependNone(whole);
    while cursor < |bytes|
      invariant cursor <= |bytes| && |tokens| <= expected
      invariant whole == Prepended(tokens, DecodeFrom(bytes, sourceLength, cursor, previousEnd))
      decreases |bytes| - cursor
    {
      var read := ReadRecord(bytes, cursor);
      if read.None? || !Follows(read.value, sourceLength, previousEnd) {
        return None;
      }
      RecordAdvances(bytes, cursor);
      PrependOne(tokens, read.value, DecodeFrom(bytes, sourceLength, read.value.prefixTo, read.value.end));
      tokens := tokens + [read.value];
      cursor, previousEnd := read.value.prefixTo, read.value.end;
      if |tokens| > expected {
        return None;
      }
    }
    assert tokens + [] == tokens;
    r := if |tokens| == expected then Some(tokens) else None;
  }

  function Prepended(tokens: seq<DecodedToken>, r: Option<seq<DecodedToken>>): Option<seq<DecodedToken>> {
    if r.None? then None else Some(tokens + r.value)
  }

  lemma PrependNone(r: Option<seq<DecodedToken>>)
    ensures Prepended([], r) == r
  {
    if r.Some? {
      assert [] + r.value == r.value;
    }
  }

  lemma PrependOne(tokens: seq<DecodedToken>, t: DecodedToken, r: Option<seq<DecodedToken>>)
    ensures Prepended(tokens, if r.None? then None else Some([t] + r.value)) == Prepended(tokens + [t], r)
  {
    if r.Some? {
      assert tokens + ([t] + r.value) == tokens + [t] + r.value;
    }
  }

  lemma RecordAdvances(bytes: seq<byte>, cursor: nat)
    ensures var t := ReadRecord(bytes, cursor); t.Some? ==> cursor < t.value.prefixTo <= |bytes|
  {
  }

  // Encoding and decoding records.

  /** The record that a token was decoded from; the text of the token itself is not encoded. */
  function RecordOf(bytes: seq<byte>, t: DecodedToken): Record
    requires t.prefixFrom <= t.prefixTo <= |bytes|
  {
    Record(t.start, t.end, t.tag, bytes[t.prefixFrom..t.prefixTo], [])
  }

  predicate Encodable(r: Record) {
    |r.prefix| <= U16_MAX
  }

  /** A record is read back from wherever it is written. */
  lemma ReadWritten(before: seq<byte>, r: Record, after: seq<byte>)
    requires Encodable(r)
    ensures var bytes := before + EncodeRecord(r) + after;
            var end := |before| + |EncodeRecord(r)|;
            && |EncodeRecord(r)| == MIN_RECORD_BYTES + |r.prefix|
            && ReadRecord(bytes, |before|)
               == Some(DecodedToken(r.startByte, r.endByte, r.tag, |before| + MIN_RECORD_BYTES, end))
            && bytes[|before| + MIN_RECORD_BYTES..end] == r.prefix
  {
    hide BigEndian, FromBigEndian;
    Ranges();
    var bytes, c := before + EncodeRecord(r) + after, |before|;
    var start, end, length := BigEndian(r.startByte, 4), BigEndian(r.endByte, 4), BigEndian(|r.prefix|, 2);
    DecodeEncode(r.startByte, 4);
    DecodeEncode(r.endByte, 4);
    DecodeEncode(|r.prefix|, 2);
    assert EncodeRecord(r) == start + end + [r.tag] + length + r.prefix;
    assert bytes[c..c + 4] == start && bytes[c + 4..c + 8] == end;
    assert bytes[c + 8] == r.tag && bytes[c + 9..c + 11] == length;
    assert bytes[c + 11..c + 11 + |r.prefix|] == r.prefix;
  }

  /** What is read is a record written there. */
  lemma WrittenWhereRead(bytes: seq<byte>, cursor: nat)
    requires ReadRecord(bytes, cursor).Some?
    ensures var t := ReadRecord(bytes, cursor).value;
            && cursor < t.prefixFrom <= t.prefixTo <= |bytes| && Encodable(RecordOf(bytes, t))
            && bytes[cursor..t.prefixTo] == EncodeRecord(RecordOf(bytes, t))
  {
    hide BigEndian, FromBigEndian;
    Ranges();
    var c, t := cursor, ReadRecord(bytes, cursor).value;
    EncodeDecode(bytes[c..c + 4]);
    EncodeDecode(bytes[c + 4..c + 8]);
    EncodeDecode(bytes[c + 9..c + 11]);
    assert bytes[c..t.prefixTo] == bytes[c..c + 4] + bytes[c + 4..c + 8] + [bytes[c + 8]] + bytes[c + 9..c + 11]
                                   + bytes[c + 11..t.prefixTo];
  }

  lemma {:induction false} EncodeCons(rs: seq<Record>)
    requires rs != []
    ensures EncodeRecords(rs) == EncodeRecord(rs[0]) + EncodeRecords(rs[1..])
  {
    hide EncodeRecord;
    var n := |rs| - 1;
    if n == 0 {
      assert rs[..n] == [] && rs[1..] == [];
    } else {
      EncodeCons(rs[..n]);
      var tail := rs[1..];
      assert rs[..n][1..] == tail[..n - 1] && tail[n - 1] == rs[n];
      EncodeSnoc(rs);
      EncodeSnoc(tail);
    }
  }

  lemma EncodeSnoc(rs: seq<Record>)
    requires rs != []
    ensures EncodeRecords(rs) == EncodeRecords(rs[..|rs| - 1]) + EncodeRecord(rs[|rs| - 1])
  {
  }

  /** The records are in source order without overlap, from `previousEnd` on. */
  predicate InOrder(rs: seq<Record>, sourceLength: nat, previousEnd: nat) {
    rs == [] ||
    (rs[0].startByte < rs[0].endByte <= sourceLength && previousEnd <= rs[0].startByte
     && InOrder(rs[1..], sourceLength, rs[0].endByte))
  }

  /** The decoded tokens are these records, apart from their text. */
  ghost predicate Same(bytes: seq<byte>, ts: seq<DecodedToken>, rs: seq<Record>) {
    |ts| == |rs| && forall i :: 0 <= i < |ts| ==> SameToken(bytes, ts[i], rs[i])
  }

  ghost predicate SameToken(bytes: seq<byte>, t: DecodedToken, r: Record) {
    t.prefixFrom <= t.prefixTo <= |bytes| && RecordOf(bytes, t) == r.(text := [])
  }

  /** Written records are accepted exactly when they are in order, and are then read back. */
  lemma {:induction false} DecodeWritten(before: seq<byte>, rs: seq<Record>, sourceLength: nat, previousEnd: nat)
    requires forall r :: r in rs ==> Encodable(r)
    ensures var bytes := before + EncodeRecords(rs);
            var decoded := DecodeFrom(bytes, sourceLength, |before|, previousEnd);
            && (decoded.Some? <==> InOrder(rs, sourceLength, previousEnd))
            && (decoded.Some? ==> Same(bytes, decoded.value, rs))
    decreases |rs|
  {
    hide ReadRecord, EncodeRecord, EncodeRecords;
    var bytes := before + EncodeRecords(rs);
    NothingEncoded();
    if rs != [] {
      var r, more := rs[0], EncodeRecords(rs[1..]);
      EncodeCons(rs);
      ReadWritten(before, r, more);
      assert bytes == before + EncodeRecord(r) + more;
      DecodeWritten(before + EncodeRecord(r), rs[1..], sourceLength, r.endByte);
      var decoded := DecodeFrom(bytes, sourceLength, |before|, previousEnd);
      if decoded.Some? {
        var t, rest := decoded.value[0], decoded.value[1..];
        assert decoded.value == [t] + rest;
        assert SameToken(bytes, t, r);
        SameCons(bytes, t, rest, rs);
      }
    }
  }

  lemma NothingEncoded()
    ensures EncodeRecords([]) == []
  {
  }

  lemma SameCons(bytes: seq<byte>, t: DecodedToken, rest: seq<DecodedToken>, rs: seq<Record>)
    requires rs != [] && SameToken(bytes, t, rs[0]) && Same(bytes, rest, rs[1..])
    ensures Same(bytes, [t] + rest, rs)
  {
    hide SameToken;
    assert rs == [rs[0]] + rs[1..];
  }

  /** Whatever is accepted is the encoding of records in order. */
  lemma {:induction false} DecodedIsWritten(bytes: seq<byte>, sourceLength: nat, cursor: nat, previousEnd: nat)
    returns (rs: seq<Record>)
    requires cursor <= |bytes| && DecodeFrom(bytes, sourceLength, cursor, previousEnd).Some?
    ensures bytes[cursor..] == EncodeRecords(rs) && InOrder(rs, sourceLength, previousEnd)
    ensures Same(bytes, DecodeFrom(bytes, sourceLength, cursor, previousEnd).value, rs)
    ensures forall r :: r in rs ==> Encodable(r)
    decreases |bytes| - cursor
  {
    hide ReadRecord, EncodeRecord, EncodeRecords;
    NothingEncoded();
    if cursor == |bytes| {
      rs := [];
    } else {
      var t := ReadRecord(bytes, cursor).value;
      WrittenWhereRead(bytes, cursor);
      var rest := DecodedIsWritten(bytes, sourceLength, t.prefixTo, t.end);
      rs := [RecordOf(bytes, t)] + rest;
      EncodeCons(rs);
      assert rs[1..] == rest;
      assert bytes[cursor..] == bytes[cursor..t.prefixTo] + bytes[t.prefixTo..];
      SameCons(bytes, t, DecodeFrom(bytes, sourceLength, t.prefixTo, t.end).value, rs);
    }
  }

  // The facts of a file are accepted by their reader.

  /** Every anchor's k-gram lies within the expected tokens. */
  predicate AnchorsWithin(anchors: seq<Anchor>, expected: nat) {
    forall i :: 0 <= i < |anchors| ==> anchors[i].tokenIndex + KGRAM_TOKENS <= expected
  }

  /** `DecodedTokens::read`, after base64. */
  function ReadEvidence(facts: Facts, sourceLength: nat): Option<seq<DecodedToken>> {
    if facts.tokenCount > |facts.encodedTokens| / MIN_RECORD_BYTES then None
    else
      match Exactly(DecodeFrom(facts.encodedTokens, sourceLength, 0, 0), facts.tokenCount)
      case None => None
      case Some(ts) => if AnchorsWithin(facts.anchors, facts.tokenCount) then Some(ts) else None
  }

  lemma {:induction false} EncodedLength(rs: seq<Record>)
    ensures |EncodeRecords(rs)| >= MIN_RECORD_BYTES * |rs|
  {
    hide BigEndian;
    if rs != [] {
      EncodedLength(rs[..|rs| - 1]);
    }
  }

  lemma {:induction false} ScannedEncodable(tokens: seq<Token>)
    ensures ScanAll(tokens).Reading? ==> forall r :: r in ScanAll(tokens).records ==> Encodable(r)
  {
    hide Component;
    if tokens != [] {
      ScannedEncodable(tokens[..|tokens| - 1]);
    }
  }

  lemma AnchorsOfStream(bases: Bases, stream: seq<HashPair>)
    ensures AnchorsWithin(Anchors(bases, stream), |stream|)
  {
    var ks := Kgrams(bases, stream);
    var selected := SelectionsBounded(ks);
    assert ks != [] ==> |ks| + KGRAM_TOKENS == |stream| + 1;
    hide SelectionsBounded, Kgrams;
    forall i | 0 <= i < |Anchors(bases, stream)|
      ensures Anchors(bases, stream)[i].tokenIndex + KGRAM_TOKENS <= |stream|
    {
      assert Anchors(bases, stream)[i] == AnchorAt(ks, selected[i]);
    }
  }

  /** Complete facts of a file are accepted by their reader exactly when the counted tokens are in
      source order, none empty, inside the source; and then exactly those tokens are read. */
  lemma FactsReadBack(bases: Bases, hash: TokenHash, tokens: seq<Token>, sourceLength: nat)
    requires FactsOf(bases, hash, tokens).status == Complete
    requires |ScanAll(tokens).records| <= U32_MAX
    ensures var facts, rs := FactsOf(bases, hash, tokens), ScanAll(tokens).records;
            var read := ReadEvidence(facts, sourceLength);
            && (read.Some? <==> InOrder(rs, sourceLength, 0))
            && (read.Some? ==> Same(facts.encodedTokens, read.value, rs))
  {
    var facts, rs := FactsOf(bases, hash, tokens), ScanAll(tokens).records;
    ScannedEncodable(tokens);
    hide Anchors, ScanAll, EncodeRecords, DecodeFrom, InOrder, AnchorsWithin, Same;
    AnchorsOfStream(bases, Hashes(hash, rs));
    EncodedLength(rs);
    DecodeWritten([], rs, sourceLength, 0);
    assert [] + EncodeRecords(rs) == EncodeRecords(rs);
    SameCount(facts.encodedTokens, DecodeFrom(facts.encodedTokens, sourceLength, 0, 0), rs);
  }

  lemma SameCount(bytes: seq<byte>, r: Option<seq<DecodedToken>>, rs: seq<Record>)
    requires r.Some? ==> Same(bytes, r.value, rs)
    ensures r.Some? ==> |r.value| == |rs|
  {
  }

  /** The facts are an encoding of as many records as they say, in source order, and every anchor's 32 tokens lie
      within them. */
  ghost predicate Evident(facts: Facts, sourceLength: nat, rs: seq<Record>) {
    && (forall r :: r in rs ==> Encodable(r)) && InOrder(rs, sourceLength, 0)
    && facts.encodedTokens == EncodeRecords(rs) && facts.tokenCount == |rs|
    && forall a :: a in facts.anchors ==> a.tokenIndex + 32 <= facts.tokenCount
  }

  /** The reader accepts exactly such facts, whoever wrote them. */
  lemma {:induction false} AcceptedIffEvident(facts: Facts, sourceLength: nat)
    ensures ReadEvidence(facts, sourceLength).Some? <==> exists rs :: Evident(facts, sourceLength, rs)
  {
    hide DecodeFrom, EncodeRecords, InOrder, Same;
    var bytes := facts.encodedTokens;
    WithinTold(facts);
    if ReadEvidence(facts, sourceLength).Some? {
      var rs := DecodedIsWritten(bytes, sourceLength, 0, 0);
      assert bytes[0..] == bytes;
      SameCount(bytes, DecodeFrom(bytes, sourceLength, 0, 0), rs);
      assert Evident(facts, sourceLength, rs);
    }
    if exists rs :: Evident(facts, sourceLength, rs) {
      var rs :| Evident(facts, sourceLength, rs);
      DecodeWritten([], rs, sourceLength, 0);
      assert [] + EncodeRecords(rs) == EncodeRecords(rs);
      SameCount(bytes, DecodeFrom(bytes, sourceLength, 0, 0), rs);
      EncodedLength(rs);
    }
  }

  lemma {:induction false} WithinTold(facts: Facts)
    ensures AnchorsWithin(facts.anchors, facts.tokenCount)
       <==> forall a :: a in facts.anchors ==> a.tokenIndex + 32 <= facts.tokenCount
  {
    if forall a :: a in facts.anchors ==> a.tokenIndex + 32 <= facts.tokenCount {
      assert forall i :: 0 <= i < |facts.anchors| ==> facts.anchors[i] in facts.anchors;
    }
  }
}
