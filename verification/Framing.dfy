/** Newline framing of the stdio transport: the provider's streaming reader, which recovers after an
    error, and the host's reader, which stops at the first one. */
module Framing {
  import opened Bytes

  const MAX_FRAME_BYTES: nat := 8 * 1024 * 1024
  const LF: byte := 10
  const CR: byte := 13

  /** What one call of a frame reader yields. */
  datatype Outcome = EndOfInput | Frame(body: seq<byte>) | Empty | Oversize | Unterminated

  predicate IsError(o: Outcome) {
    o.Empty? || o.Oversize? || o.Unterminated?
  }

  // Reference: cut the bytes into lines, then judge each line.

  predicate LineFree(s: seq<byte>) {
    forall i :: 0 <= i < |s| ==> s[i] != LF
  }

  /** A line: no newline except possibly as the last byte. */
  predicate IsLine(s: seq<byte>) {
    s != [] && LineFree(s[..|s| - 1])
  }

  predicate Terminated(s: seq<byte>) {
    s != [] && s[|s| - 1] == LF
  }

  /** The bytes up to and including the first newline, or all of them. */
  function LinePrefixLen(s: seq<byte>): (n: nat)
    ensures n <= |s| && (s != [] ==> n > 0)
    ensures forall i :: 0 <= i < n - 1 ==> s[i] != LF
    ensures n < |s| ==> s[n - 1] == LF
  {
    if s == [] then 0
    else if s[0] == LF then 1
    else 1 + LinePrefixLen(s[1..])
  }

  /** The first line is the only line that starts the input and is complete or reaches its end. */
  lemma {:induction false} LinePrefixUnique(line: seq<byte>, rest: seq<byte>)
    requires IsLine(line) && (Terminated(line) || rest == [])
    ensures LinePrefixLen(line + rest) == |line|
  {
    if |line| == 1 {
      assert line[0] != LF ==> (line + rest)[1..] == [];
    } else {
      assert line[0] == line[..|line| - 1][0];
      assert (line + rest)[1..] == line[1..] + rest;
      assert line[1..][..|line| - 2] == line[..|line| - 1][1..];
      LinePrefixUnique(line[1..], rest);
    }
  }

  function Body(line: seq<byte>): seq<byte>
    requires Terminated(line)
  {
    var body := line[..|line| - 1];
    if body != [] && body[|body| - 1] == CR then body[..|body| - 1] else body
  }

  function Judge(line: seq<byte>): Outcome {
    if line == [] then EndOfInput
    else if |line| > MAX_FRAME_BYTES then Oversize
    else if !Terminated(line) then Unterminated
    else if Body(line) == [] then Empty
    else Frame(Body(line))
  }

  /** The verdict on a line, told by what the line is. */
  lemma JudgeExact(line: seq<byte>, b: seq<byte>)
    ensures Judge(line) == Oversize <==> |line| > MAX_FRAME_BYTES
    ensures |line| <= MAX_FRAME_BYTES ==>
              && (Judge(line) == EndOfInput <==> line == [])
              && (Judge(line) == Unterminated <==> line != [] && line[|line| - 1] != LF)
              && (Judge(line) == Empty <==> line == [LF] || line == [CR, LF])
              && (Judge(line) == Frame(b) <==>
                    b != [] && (line == b + [CR, LF] || (line == b + [LF] && b[|b| - 1] != CR)))
  {
    if Terminated(line) {
      var n := |line| - 1;
      assert line == line[..n] + [LF];
      if n > 0 && line[n - 1] == CR {
        assert line == line[..n - 1] + [CR, LF];
        assert Body(line) == line[..n - 1];
      } else {
        assert Body(line) == line[..n];
      }
    }
  }

  function Next(s: seq<byte>): (o: Outcome)
    ensures o == EndOfInput <==> s == []
  {
    Judge(s[..LinePrefixLen(s)])
  }

  function AfterLine(s: seq<byte>): seq<byte> {
    s[LinePrefixLen(s)..]
  }

  /** The outcomes of the lines of the input, in order. */
  function Outcomes(s: seq<byte>): seq<Outcome> {
    if s == [] then [] else [Next(s)] + Outcomes(AfterLine(s))
  }

  /** Recovery: whatever complete lines came before, the lines after them are judged as if alone. */
  lemma {:induction false} OutcomesAppend(a: seq<byte>, b: seq<byte>)
    requires a == [] || Terminated(a)
    ensures Outcomes(a + b) == Outcomes(a) + Outcomes(b)
    decreases |a|
  {
    hide Next, AfterLine, Terminated;
    if a == [] {
      assert a + b == b;
    } else {
      FirstLineAppend(a, b);
      OutcomesAppend(AfterLine(a), b);
      assert a + b != [];
    }
  }

  /** More input after complete lines does not change the first of them. */
  lemma FirstLineAppend(a: seq<byte>, b: seq<byte>)
    requires Terminated(a)
    ensures Next(a + b) == Next(a) && AfterLine(a + b) == AfterLine(a) + b
    ensures |AfterLine(a)| < |a| && (AfterLine(a) == [] || Terminated(AfterLine(a)))
  {
    hide LinePrefixLen, Judge;
    var n := LinePrefixLen(a);
    var line, rest := a[..n], a[n..];
    assert line + (rest + b) == a + b;
    assert Terminated(line);
    LinePrefixUnique(line, rest + b);
    assert (a + b)[..n] == line && (a + b)[n..] == rest + b;
    assert rest != [] ==> rest[|rest| - 1] == a[|a| - 1];
  }

  // The round trip: what the writers send, one message per line, and what the readers make of it.

  /** What the serializer yields: something, on one line, not ending in a carriage return. */
  predicate Serialized(m: seq<byte>) {
    m != [] && LineFree(m) && m[|m| - 1] != CR
  }

  function Written(messages: seq<seq<byte>>): seq<byte> {
    if messages == [] then [] else messages[0] + [LF] + Written(messages[1..])
  }

  function Frames(messages: seq<seq<byte>>): seq<Outcome> {
    seq(|messages|, i requires 0 <= i < |messages| => Frame(messages[i]))
  }

  /** A message is read back if it leaves room for its newline. */
  function Verdict(m: seq<byte>): Outcome {
    if |m| < MAX_FRAME_BYTES then Frame(m) else Oversize
  }

  function Verdicts(messages: seq<seq<byte>>): seq<Outcome> {
    seq(|messages|, i requires 0 <= i < |messages| => Verdict(messages[i]))
  }

  lemma SentLine(m: seq<byte>, rest: seq<byte>)
    requires Serialized(m)
    ensures Outcomes(m + [LF] + rest) == [Verdict(m)] + Outcomes(rest)
  {
    hide Judge, LinePrefixLen;
    var line := m + [LF];
    assert line[..|line| - 1] == m;
    LinePrefixUnique(line, rest);
    assert (line + rest)[..|line|] == line && (line + rest)[|line|..] == rest;
    JudgeExact(line, m);
  }

  /** Each serialized message gets its verdict, so all are read back exactly when every one is
      shorter than the frame limit. */
  lemma {:induction false} WrittenThenRead(messages: seq<seq<byte>>)
    requires forall i :: 0 <= i < |messages| ==> Serialized(messages[i])
    ensures Outcomes(Written(messages)) == Verdicts(messages)
    ensures Outcomes(Written(messages)) == Frames(messages)
            <==> forall i :: 0 <= i < |messages| ==> |messages[i]| < MAX_FRAME_BYTES
  {
    hide Outcomes, Serialized;
    NoOutcomes();
    if messages != [] {
      var rest := Written(messages[1..]);
      SentLine(messages[0], rest);
      WrittenThenRead(messages[1..]);
      assert Verdicts(messages) == [Verdict(messages[0])] + Verdicts(messages[1..]);
    }
    VerdictsAreFrames(messages);
  }

  lemma VerdictsAreFrames(messages: seq<seq<byte>>)
    ensures Verdicts(messages) == Frames(messages)
            <==> forall i :: 0 <= i < |messages| ==> |messages[i]| < MAX_FRAME_BYTES
  {
    if Verdicts(messages) == Frames(messages) {
      forall i | 0 <= i < |messages| ensures |messages[i]| < MAX_FRAME_BYTES {
        assert Verdicts(messages)[i] == Frames(messages)[i];
      }
    }
  }

  /** The host's writer sends a message unless it exceeds the limit. */
  function HostSends(m: seq<byte>): bool {
    |m| <= MAX_FRAME_BYTES
  }

  /** The provider's writer sends a short notice instead of a message over the limit. */
  function Bounded(m: seq<byte>, notice: seq<byte> -> seq<byte>): seq<byte> {
    if |m| <= MAX_FRAME_BYTES then m else notice(m)
  }

  /** `write_messages`: the messages with their newlines, those over the limit replaced. */
  method WriteMessages(messages: seq<seq<byte>>, notice: seq<byte> -> seq<byte>)
    returns (output: seq<byte>, sent: seq<seq<byte>>)
    ensures |sent| == |messages| && output == Written(sent)
    ensures forall i :: 0 <= i < |messages| ==> sent[i] == Bounded(messages[i], notice)
  {
    output, sent := [], [];
    for i := 0 to |messages|
      invariant |sent| == i && output == Written(sent)
      invariant forall j :: 0 <= j < i ==> sent[j] == Bounded(messages[j], notice)
    {
      var bytes := if |messages[i]| <= MAX_FRAME_BYTES then messages[i] else notice(messages[i]);
      WrittenSnoc(sent, bytes);
      output := output + bytes + [LF];
      sent := sent + [bytes];
    }
  }

  lemma {:induction false} WrittenSnoc(messages: seq<seq<byte>>, m: seq<byte>)
    ensures Written(messages + [m]) == Written(messages) + m + [LF]
  {
    if messages == [] {
      assert messages + [m] == [m] && [m][1..] == [];
    } else {
      WrittenSnoc(messages[1..], m);
      assert (messages + [m])[1..] == messages[1..] + [m];
    }
  }

  /** What the host's writer admits is read back by the provider exactly when it is not of the
      maximal length. */
  lemma HostMessageRead(m: seq<byte>, rest: seq<byte>)
    requires Serialized(m) && HostSends(m)
    ensures Outcomes(m + [LF] + rest) == [Frame(m)] + Outcomes(rest) <==> |m| != MAX_FRAME_BYTES
    ensures |m| == MAX_FRAME_BYTES ==> Outcomes(m + [LF] + rest) == [Oversize] + Outcomes(rest)
  {
    SentLine(m, rest);
    assert ([Verdict(m)] + Outcomes(rest))[0] == Verdict(m);
    assert ([Frame(m)] + Outcomes(rest))[0] == Frame(m);
  }

  /** What the provider's writer sends is read back whole exactly when no message has the maximal
      length and no notice reaches it. */
  lemma ProviderMessagesRead(messages: seq<seq<byte>>, sent: seq<seq<byte>>, notice: seq<byte> -> seq<byte>)
    requires |sent| == |messages| && forall i :: 0 <= i < |messages| ==> sent[i] == Bounded(messages[i], notice)
    requires forall i :: 0 <= i < |sent| ==> Serialized(sent[i])
    ensures Outcomes(Written(sent)) == Frames(sent) <==>
            forall i :: 0 <= i < |messages| ==> ReadBack(messages[i], notice)
  {
    hide Serialized;
    WrittenThenRead(sent);
    assert forall i :: 0 <= i < |messages| ==> (ReadBack(messages[i], notice) <==> |sent[i]| < MAX_FRAME_BYTES);
  }

  predicate ReadBack(m: seq<byte>, notice: seq<byte> -> seq<byte>) {
    |m| < MAX_FRAME_BYTES || (|m| > MAX_FRAME_BYTES && |notice(m)| < MAX_FRAME_BYTES)
  }

  /** A message of the maximal length: both writers send it, and both readers refuse it. */
  lemma MaximalMessageRefused() returns (m: seq<byte>)
    ensures Serialized(m) && HostSends(m)
    ensures forall notice: seq<byte> -> seq<byte> :: Bounded(m, notice) == m
    ensures Outcomes(Written([m])) == [Oversize] && UpToFirstError(Outcomes(Written([m]))) == [Oversize]
  {
    m := seq(MAX_FRAME_BYTES, i => 97);
    WrittenThenRead([m]);
    assert Verdicts([m]) == [Oversize];
    hide Outcomes, Written;
    assert UpToFirstError([Oversize]) == [Oversize];
  }

  // The buffered input and the readers.

  function Concat(chunks: seq<seq<byte>>): seq<byte> {
    if chunks == [] then [] else chunks[0] + Concat(chunks[1..])
  }

  /** The part of the outcomes up to and including the first error. */
  function UpToFirstError(outcomes: seq<Outcome>): seq<Outcome> {
    if outcomes == [] then []
    else if IsError(outcomes[0]) then [outcomes[0]]
    else [outcomes[0]] + UpToFirstError(outcomes[1..])
  }

  lemma NoOutcomes()
    ensures Outcomes([]) == [] && UpToFirstError(Outcomes([])) == []
  {
  }

  lemma FirstOf(s: seq<byte>)
    requires s != []
    ensures Outcomes(s) == [Next(s)] + Outcomes(AfterLine(s)) && |AfterLine(s)| < |s|
    ensures UpToFirstError(Outcomes(s)) ==
            if IsError(Next(s)) then [Next(s)] else [Next(s)] + UpToFirstError(Outcomes(AfterLine(s)))
  {
  }

  /** Reading on from a prefix without newline: the first line of the whole. */
  lemma LineGrows(frame: seq<byte>, rest: seq<byte>)
    requires LineFree(frame) && rest != []
    ensures LinePrefixLen(frame + rest) == |frame| + LinePrefixLen(rest)
    ensures (frame + rest)[..LinePrefixLen(frame + rest)] == frame + rest[..LinePrefixLen(rest)]
  {
    var n := LinePrefixLen(rest);
    var line := frame + rest[..n];
    assert line[..|line| - 1] == frame + rest[..n][..n - 1];
    assert rest[n..] != [] ==> Terminated(line);
    LinePrefixUnique(line, rest[n..]);
    assert line + rest[n..] == frame + rest;
  }

  /** The first line of a chunk that holds a newline is the first line of the input. */
  lemma LineWithin(chunk: seq<byte>, rest: seq<byte>)
    requires chunk != [] && (Terminated(chunk[..LinePrefixLen(chunk)]) || rest == [])
    ensures LinePrefixLen(chunk + rest) == LinePrefixLen(chunk)
  {
    var n := LinePrefixLen(chunk);
    LinePrefixUnique(chunk[..n], chunk[n..] + rest);
    assert chunk[..n] + (chunk[n..] + rest) == chunk + rest;
  }

  /** A chunk without newline is all inside the line. */
  lemma ChunkWithoutNewline(chunk: seq<byte>)
    requires chunk != [] && !Terminated(chunk[..LinePrefixLen(chunk)])
    ensures LinePrefixLen(chunk) == |chunk| && LineFree(chunk)
  {
    hide LinePrefixLen;
    assert chunk[..|chunk|] == chunk;
    forall i | 0 <= i < |chunk| ensures chunk[i] != LF {
      assert i < |chunk| - 1 ==> chunk[i] == chunk[..|chunk| - 1][i];
    }
  }

  lemma EmptyFree()
    ensures LineFree([])
  {
  }

  /** The end of the input inside a line. */
  lemma EndOfLine(s: seq<byte>)
    requires LineFree(s)
    ensures AfterLine(s) == []
    ensures |s| <= MAX_FRAME_BYTES ==> Next(s) == if s == [] then EndOfInput else Unterminated
  {
    if s != [] {
      LinePrefixUnique(s, []);
      assert s + [] == s && s[..|s|] == s;
    }
  }

  /** After a prefix of the line without its newline, the rest of the line is the line of the rest. */
  lemma RestOfLine(s: seq<byte>, t: seq<byte>)
    requires LineFree(s)
    ensures AfterLine(s + t) == AfterLine(t)
  {
    if t == [] {
      EndOfLine(s);
      assert s + t == s;
    } else {
      LineGrows(s, t);
    }
  }

  lemma TooLong(s: seq<byte>)
    ensures LinePrefixLen(s) > MAX_FRAME_BYTES ==> Next(s) == Oversize
  {
    hide LinePrefixLen;
  }

  /** A chunk that completes the line. */
  lemma Completes(frame: seq<byte>, chunk: seq<byte>, rest: seq<byte>)
    requires LineFree(frame) && chunk != [] && Terminated(chunk[..LinePrefixLen(chunk)])
    ensures var (input, n) := (frame + (chunk + rest), LinePrefixLen(chunk));
            && LinePrefixLen(input) == |frame| + n
            && AfterLine(input) == (chunk + rest)[n..]
            && Terminated(frame + chunk[..n]) && Next(input) == Judge(frame + chunk[..n])
  {
    hide LinePrefixLen, Judge;
    var s, n := chunk + rest, LinePrefixLen(chunk);
    LineGrows(frame, s);
    LineWithin(chunk, rest);
    assert s[..n] == chunk[..n];
    assert (frame + chunk[..n])[|frame| + n - 1] == chunk[..n][n - 1];
    assert (frame + s)[|frame| + n..] == s[n..];
  }

  /** A chunk that is all inside the line. */
  lemma Continues(frame: seq<byte>, chunk: seq<byte>, rest: seq<byte>)
    requires LineFree(frame) && chunk != [] && !Terminated(chunk[..LinePrefixLen(chunk)])
    ensures var (input, n) := (frame + (chunk + rest), LinePrefixLen(chunk));
            && LinePrefixLen(input) >= |frame| + n
            && LineFree(frame + chunk[..n]) && AfterLine(input) == AfterLine((chunk + rest)[n..])
  {
    hide LinePrefixLen, Judge, AfterLine;
    var n := LinePrefixLen(chunk);
    ChunkWithoutNewline(chunk);
    assert (chunk + rest)[n..] == rest && chunk[..n] == chunk;
    RestOfLine(frame + chunk, rest);
    assert frame + chunk + rest == frame + (chunk + rest);
    LongLine(frame + chunk, rest);
  }

  lemma LongLine(chunk: seq<byte>, rest: seq<byte>)
    requires LineFree(chunk)
    ensures LinePrefixLen(chunk + rest) >= |chunk|
  {
    if rest != [] {
      LineGrows(chunk, rest);
    } else {
      assert chunk + rest == chunk;
      if chunk != [] {
        LinePrefixUnique(chunk, []);
      }
    }
  }

  /** Input that arrives in chunks, cut anywhere. */
  class Reader {
    var chunks: seq<seq<byte>>
    var frame: seq<byte>

    ghost predicate Valid()
      reads this`chunks
    {
      forall i :: 0 <= i < |chunks| ==> chunks[i] != []
    }

    ghost function Rest(): seq<byte>
      reads this`chunks
    {
      Concat(chunks)
    }

    constructor (input: seq<seq<byte>>)
      requires forall i :: 0 <= i < |input| ==> input[i] != []
      ensures Valid() && Rest() == Concat(input) && frame == []
    {
      chunks, frame := input, [];
    }

    /** The next available bytes; none only at the end of the input. */
    method FillBuf() returns (available: seq<byte>)
      requires Valid()
      ensures available == [] <==> Rest() == []
      ensures available != [] ==> chunks != [] && available == chunks[0]
    {
      available := if chunks == [] then [] else chunks[0];
    }

    method Consume(count: nat)
      requires Valid() && chunks != [] && count <= |chunks[0]|
      modifies this`chunks
      ensures Valid() && Rest() == old(Rest())[count..]
    {
      var left := chunks[0][count..];
      ghost var tail := Concat(chunks[1..]);
      if left == [] {
        chunks := chunks[1..];
      } else {
        chunks := [left] + chunks[1..];
        assert chunks[1..] == old(chunks[1..]);
      }
      assert Rest() == left + tail;
    }

    /** Skips the rest of the current line, or to the end of the input. */
    method DiscardToNewline()
      requires Valid()
      modifies this`chunks
      ensures Valid() && Rest() == AfterLine(old(Rest()))
    {
      hide Valid, Rest, LinePrefixLen, AfterLine, LineFree, Terminated;
      ghost var gone: seq<byte> := [];
      EmptyFree();
      while true
        invariant Valid() && LineFree(gone) && gone + Rest() == old(Rest())
        decreases |Rest()|
      {
        var available := FillBuf();
        if available == [] {
          assert gone == old(Rest());
          EndOfLine(gone);
          return;
        }
        var count := LinePrefixLen(available);
        var ended := Terminated(available[..count]);
        Advance(gone);
        Consume(count);
        if ended {
          return;
        }
        gone := gone + available[..count];
      }
    }

    /** What the first chunk says about the line that starts with `frame`. */
    lemma Advance(frame: seq<byte>)
      requires Valid() && chunks != [] && LineFree(frame)
      ensures var (chunk, input, n) := (chunks[0], frame + Rest(), LinePrefixLen(chunks[0]));
              && 0 < n <= |Rest()| && Rest()[..n] == chunk[..n]
              && frame + chunk[..n] + Rest()[n..] == input
              && (|frame| + n > MAX_FRAME_BYTES ==> Next(input) == Oversize)
              && (if Terminated(chunk[..n])
                  then AfterLine(input) == Rest()[n..]
                       && Terminated(frame + chunk[..n]) && Next(input) == Judge(frame + chunk[..n])
                  else LineFree(frame + chunk[..n]) && AfterLine(input) == AfterLine(Rest()[n..]))
    {
      hide LinePrefixLen, Judge, AfterLine, Next, Terminated, LineFree;
      var chunk, rest := chunks[0], Concat(chunks[1..]);
      var n := LinePrefixLen(chunk);
      assert Rest()[..n] == chunk[..n];
      TooLong(frame + (chunk + rest));
      if Terminated(chunk[..n]) {
        Completes(frame, chunk, rest);
      } else {
        Continues(frame, chunk, rest);
      }
    }

    /** Drops the newline and one carriage return. */
    method FinishFrame() returns (o: Outcome)
      requires Terminated(frame) && |frame| <= MAX_FRAME_BYTES
      modifies this`frame
      ensures o == Judge(old(frame))
      ensures frame == if o.Frame? then o.body else []
    {
      frame := frame[..|frame| - 1];
      if frame != [] && frame[|frame| - 1] == CR {
        frame := frame[..|frame| - 1];
      }
      o := if frame == [] then Empty else Frame(frame);
    }

    /** The input ended inside a line, or between lines. */
    method AtEnd() returns (o: Outcome)
      modifies this`frame
      ensures o == (if old(frame) == [] then EndOfInput else Unterminated) && frame == []
    {
      o := if frame == [] then EndOfInput else Unterminated;
      frame := [];
    }

    /** Drops an oversize line. */
    method Reject(take: nat, complete: bool)
      requires Valid() && chunks != [] && take <= |chunks[0]|
      modifies this
      ensures Valid() && frame == []
      ensures take <= |old(Rest())| && Rest() == if complete then old(Rest())[take..] else AfterLine(old(Rest())[take..])
    {
      hide AfterLine;
      Consume(take);
      if !complete {
        DiscardToNewline();
      }
      frame := [];
    }

    /** The provider's reader: whatever the chunks, it yields the outcome of the first line and
        leaves the input at the next one. */
    method ReadFrame() returns (o: Outcome)
      requires Valid()
      modifies this
      ensures Valid() && o == Next(old(Rest()))
      ensures Rest() == AfterLine(old(Rest()))
      ensures frame == if o.Frame? then o.body else []
    {
      hide Valid, Rest, LinePrefixLen, Next, AfterLine, LineFree, Terminated, Judge;
      ghost var input := Rest();
      frame := [];
      EmptyFree();
      while true
        invariant Valid() && LineFree(frame) && frame + Rest() == input && |frame| <= MAX_FRAME_BYTES
        decreases |Rest()|
      {
        var available := FillBuf();
        if available == [] {
          assert frame == input;
          EndOfLine(frame);
          o := AtEnd();
          return;
        }
        var take := LinePrefixLen(available);
        var complete := Terminated(available[..take]);
        Advance(frame);
        if |frame| + take > MAX_FRAME_BYTES {
          Reject(take, complete);
          return Oversize;
        }
        frame := frame + available[..take];
        Consume(take);
        if complete {
          o := FinishFrame();
          return;
        }
      }
    }

    /** The host's reader: the same outcome, but an oversize line is left unread. */
    method HostReadFrame() returns (o: Outcome)
      requires Valid()
      modifies this
      ensures Valid() && o == Next(old(Rest()))
      ensures o != Oversize ==> Rest() == AfterLine(old(Rest()))
    {
      hide Valid, Rest, LinePrefixLen, Next, AfterLine, LineFree, Terminated, Judge;
      ghost var input := Rest();
      frame := [];
      EmptyFree();
      while true
        invariant Valid() && LineFree(frame) && frame + Rest() == input && |frame| <= MAX_FRAME_BYTES
        decreases |Rest()|
      {
        var available := FillBuf();
        if available == [] {
          assert frame == input;
          EndOfLine(frame);
          return if frame == [] then EndOfInput else Unterminated;
        }
        var take := LinePrefixLen(available);
        Advance(frame);
        if |frame| + take > MAX_FRAME_BYTES {
          return Oversize;
        }
        var complete := Terminated(available[..take]);
        frame := frame + available[..take];
        Consume(take);
        if complete {
          o := FinishFrame();
          return;
        }
      }
    }

    /** The provider's read loop: exactly the outcomes of the lines of the input. */
    method ReadAll() returns (outcomes: seq<Outcome>)
      requires Valid()
      modifies this
      ensures Valid() && outcomes == Outcomes(old(Rest()))
    {
      hide Valid, Rest, Next, AfterLine, Outcomes;
      NoOutcomes();
      outcomes := [];
      while true
        invariant Valid() && outcomes + Outcomes(Rest()) == Outcomes(old(Rest()))
        decreases |Rest()|
      {
        ghost var rest := Rest();
        var o := ReadFrame();
        if o == EndOfInput {
          return;
        }
        FirstOf(rest);
        outcomes := outcomes + [o];
      }
    }

    /** The host's read loop: the same outcomes up to and including the first error. */
    method HostReadAll() returns (outcomes: seq<Outcome>)
      requires Valid()
      modifies this
      ensures outcomes == UpToFirstError(Outcomes(old(Rest())))
    {
      hide Valid, Rest, Next, AfterLine, Outcomes, UpToFirstError;
      NoOutcomes();
      outcomes := [];
      while true
        invariant Valid() && outcomes + UpToFirstError(Outcomes(Rest())) == UpToFirstError(Outcomes(old(Rest())))
        decreases |Rest()|
      {
        ghost var rest := Rest();
        var o := HostReadFrame();
        if o == EndOfInput {
          return;
        }
        FirstOf(rest);
        outcomes := outcomes + [o];
        if IsError(o) {
          return;
        }
      }
    }
  }
}
