/** Line starts of a source text with CR, LF and CRLF terminators: four constructions of one index,
    positions and their inverse, and the line scan of the hygiene rules. */
module LineIndex {
  import opened Collections
  import opened Bytes
  import opened Words

  const LF: byte := 10
  const CR: byte := 13
  const MAX_SOURCE_BYTES: nat := 4 * 1024 * 1024
  const MAX_LINE_BYTES: nat := 1024 * 1024

  /** A line terminator ends just before `i`. */
  predicate EndsLine(s: seq<byte>, i: nat)
    requires 0 < i <= |s|
  {
    s[i - 1] == LF || (s[i - 1] == CR && !(i < |s| && s[i] == LF))
  }

  /** The line starts up to `n`: zero, and every position just after a terminator. */
  function StartsTo(s: seq<byte>, n: nat): (r: seq<nat>)
    requires n <= |s|
    ensures |r| > 0 && r[0] == 0
    ensures forall i :: 0 <= i < |r| ==> r[i] <= n
  {
    if n == 0 then [0]
    else if EndsLine(s, n) then StartsTo(s, n - 1) + [n]
    else StartsTo(s, n - 1)
  }

  function Starts(s: seq<byte>): seq<nat> {
    StartsTo(s, |s|)
  }

  lemma {:induction false} StartsIncrease(s: seq<byte>, n: nat)
    requires n <= |s|
    ensures Increasing(StartsTo(s, n))
    ensures |StartsTo(s, n)| <= n + 1
  {
    if n > 0 {
      StartsIncrease(s, n - 1);
    }
  }

  /** The starts are exactly zero and the positions after terminators. */
  lemma {:induction false} StartsExact(s: seq<byte>, n: nat, i: nat)
    requires n <= |s|
    ensures i in StartsTo(s, n) <==> i == 0 || (i <= n && EndsLine(s, i))
  {
    if n > 0 {
      StartsExact(s, n - 1, i);
    }
  }

  // The four constructions.

  /** One step of the shared index: a terminator is skipped whole. */
  method Advance(s: seq<byte>, index: nat, starts: seq<nat>) returns (next: nat, grown: seq<nat>)
    requires index < |s| && starts == StartsTo(s, index)
    ensures index < next <= |s| && grown == StartsTo(s, next)
  {
    var width;
    if s[index] == CR && index + 1 < |s| && s[index + 1] == LF {
      width := 2;
      assert !EndsLine(s, index + 1);
    } else if s[index] == CR || s[index] == LF {
      width := 1;
    } else {
      return index + 1, starts;
    }
    next := index + width;
    grown := starts + [next];
  }

  method SharedStarts(s: seq<byte>) returns (starts: seq<nat>)
    ensures starts == Starts(s)
  {
    starts := [0];
    var index := 0;
    while index < |s|
      invariant index <= |s| && starts == StartsTo(s, index)
    {
      index, starts := Advance(s, index, starts);
    }
  }

  method PythonStarts(s: seq<byte>) returns (starts: seq<nat>)
    ensures starts == Starts(s)
  {
    starts := [0];
    var index := 0;
    while index < |s|
      invariant index <= |s| && starts == StartsTo(s, index)
    {
      if s[index] == CR {
        index := index + 1;
        if index < |s| && s[index] == LF {
          assert !EndsLine(s, index);
          index := index + 1;
        }
        starts := starts + [index];
      } else if s[index] == LF {
        index := index + 1;
        starts := starts + [index];
      } else {
        index := index + 1;
      }
    }
  }

  method EvidenceStarts(s: seq<byte>) returns (starts: seq<nat>)
    ensures starts == Starts(s)
  {
    starts := [0];
    for index := 0 to |s|
      invariant starts == StartsTo(s, index)
    {
      if s[index] == LF || (s[index] == CR && !(index + 1 < |s| && s[index + 1] == LF)) {
        starts := starts + [index + 1];
      }
    }
  }

  /** The HCL chain: keep terminators except an LF after CR, and step over the LF of a CRLF. */
  predicate HclKeeps(s: seq<byte>, i: nat)
    requires i < |s|
  {
    (s[i] == CR || s[i] == LF) && (s[i] != LF || i == 0 || s[i - 1] != CR)
  }

  function HclStart(s: seq<byte>, i: nat): nat
    requires i < |s|
  {
    i + 1 + (if s[i] == CR && i + 1 < |s| && s[i + 1] == LF then 1 else 0)
  }

  function HclStartsTo(s: seq<byte>, n: nat): seq<nat>
    requires n <= |s|
  {
    if n == 0 then [0]
    else if HclKeeps(s, n - 1) then HclStartsTo(s, n - 1) + [HclStart(s, n - 1)]
    else HclStartsTo(s, n - 1)
  }

  predicate InsideCrLf(s: seq<byte>, n: nat)
    requires n <= |s|
  {
    0 < n < |s| && s[n - 1] == CR && s[n] == LF
  }

  /** The chain is ahead of the scan only between the two bytes of a CRLF. */
  lemma {:induction false} HclAhead(s: seq<byte>, n: nat)
    requires n <= |s|
    ensures HclStartsTo(s, n) == if InsideCrLf(s, n) then StartsTo(s, n) + [n + 1] else StartsTo(s, n)
  {
    if n > 0 {
      HclAhead(s, n - 1);
    }
  }

  lemma HclAgrees(s: seq<byte>)
    ensures HclStartsTo(s, |s|) == Starts(s)
  {
    HclAhead(s, |s|);
  }

  // Positions.

  datatype Position = Position(line: nat, column: nat, byte: nat)

  /** `partition_point` on the starts: how many are at most `offset`. */
  function PartitionPoint(starts: seq<nat>, offset: nat): (k: nat)
    ensures k <= |starts|
  {
    if starts == [] then 0
    else if starts[|starts| - 1] <= offset then |starts|
    else PartitionPoint(starts[..|starts| - 1], offset)
  }

  lemma {:induction false} PartitionPointSplits(starts: seq<nat>, offset: nat, k: nat)
    requires Increasing(starts) && k <= |starts|
    requires k > 0 ==> starts[k - 1] <= offset
    requires k < |starts| ==> offset < starts[k]
    ensures PartitionPoint(starts, offset) == k
  {
    if k < |starts| {
      assert starts[k] <= starts[|starts| - 1];
      PartitionPointSplits(starts[..|starts| - 1], offset, k);
    }
  }

  lemma {:induction false} PartitionPointBounds(starts: seq<nat>, offset: nat)
    requires Increasing(starts)
    ensures var k := PartitionPoint(starts, offset);
            (k > 0 ==> starts[k - 1] <= offset) && (k < |starts| ==> offset < starts[k])
  {
    if starts != [] && starts[|starts| - 1] > offset {
      PartitionPointBounds(starts[..|starts| - 1], offset);
    }
  }

  /** The zero-based line of an offset. */
  function LineOf(starts: seq<nat>, offset: nat): nat
    requires |starts| > 0 && starts[0] == 0
  {
    var k := PartitionPoint(starts, offset);
    if k == 0 then 0 else k - 1
  }

  /** The shared index, which does not clamp. */
  function SharedPosition(starts: seq<nat>, base: nat, offset: nat): Position
    requires |starts| > 0 && starts[0] == 0
  {
    var line := LineOf(starts, offset);
    var column := if offset >= starts[line] then offset - starts[line] else 0;
    Position(SaturateU32(line + 1), SaturateU32(column + 1), SaturateU32(offset + base))
  }

  /** The HCL and Python indexes clamp to the source length. */
  function ClampedPosition(starts: seq<nat>, length: nat, base: nat, offset: nat): Position
    requires |starts| > 0 && starts[0] == 0
  {
    SharedPosition(starts, base, if offset <= length then offset else length)
  }

  function HclOffset(starts: seq<nat>, length: nat, line: nat, column: nat): (r: nat)
    ensures r <= length
  {
    var index := if line == 0 then 0 else line - 1;
    var start := if index < |starts| then starts[index] else length;
    var offset := start + (if column == 0 then 0 else column - 1);
    if offset <= length then offset else length
  }

  /** Line and column count from one, and zero stands for one; columns end at the end of the source, and lines beyond
      the last lie there. */
  lemma OffsetTold(starts: seq<nat>, length: nat, line: nat, column: nat)
    ensures HclOffset(starts, length, 0, column) == HclOffset(starts, length, 1, column)
    ensures HclOffset(starts, length, line, 0) == HclOffset(starts, length, line, 1)
    ensures line > |starts| ==> HclOffset(starts, length, line, column) == length
    ensures 1 <= line <= |starts| && 1 <= column ==>
              var end := starts[line - 1] + column;
              HclOffset(starts, length, line, column) == if end > length then length else end - 1
  {
  }

  /** The line number and the column of this offset both fit 32 bits. */
  predicate Fits(s: seq<byte>, offset: nat) {
    var line := LineOf(Starts(s), offset);
    line + 1 <= U32_MAX && offset - Starts(s)[line] + 1 <= U32_MAX
  }

  lemma LineHolds(s: seq<byte>, offset: nat)
    ensures var line := LineOf(Starts(s), offset);
            Starts(s)[line] <= offset && (line + 1 < |Starts(s)| ==> offset < Starts(s)[line + 1])
  {
    StartsIncrease(s, |s|);
    PartitionPointBounds(Starts(s), offset);
  }

  /** A position names the line that holds the offset, the column on it from one on, and the byte after the base;
      beyond the source it is that of its end. */
  lemma {:induction false} PositionTold(s: seq<byte>, base: nat, offset: nat)
    requires Fits(s, offset) && offset + base <= U32_MAX
    ensures var p := SharedPosition(Starts(s), base, offset);
            && 1 <= p.line <= |Starts(s)| && Starts(s)[p.line - 1] <= offset
            && (p.line < |Starts(s)| ==> offset < Starts(s)[p.line])
            && p.column == offset - Starts(s)[p.line - 1] + 1 && p.byte == offset + base
    ensures offset <= |s| ==> ClampedPosition(Starts(s), |s|, base, offset) == SharedPosition(Starts(s), base, offset)
    ensures offset >= |s| ==> ClampedPosition(Starts(s), |s|, base, offset) == SharedPosition(Starts(s), base, |s|)
  {
    LineHolds(s, offset);
    StartsIncrease(s, |s|);
    PartitionPointBounds(Starts(s), offset);
  }

  /** Line and column turn back into the offset exactly when both fit 32 bits. */
  lemma OffsetInvertsPosition(s: seq<byte>, base: nat, offset: nat)
    requires offset <= |s|
    ensures var p := ClampedPosition(Starts(s), |s|, base, offset);
            HclOffset(Starts(s), |s|, p.line, p.column) == offset <==> Fits(s, offset)
  {
    var starts := Starts(s);
    var line := LineOf(starts, offset);
    LineHolds(s, offset);
    StartsIncrease(s, |s|);
    if line + 1 > U32_MAX {
      assert starts[U32_MAX - 1] < starts[line];
    }
  }

  /** In particular below the 32-bit bound. */
  lemma OffsetInvertsBelowBound(s: seq<byte>, base: nat, offset: nat)
    requires offset <= |s| && offset < U32_MAX
    ensures var p := ClampedPosition(Starts(s), |s|, base, offset);
            HclOffset(Starts(s), |s|, p.line, p.column) == offset
  {
    LineHolds(s, offset);
    StartsIncrease(s, |s|);
    SpreadAtLeast(Starts(s), LineOf(Starts(s), offset));
    OffsetInvertsPosition(s, base, offset);
  }

  /** So it always holds in a source that the hygiene scan does not refuse for its size. */
  lemma OffsetInvertsInSource(s: seq<byte>, base: nat, offset: nat)
    requires offset <= |s| <= MAX_SOURCE_BYTES
    ensures var p := ClampedPosition(Starts(s), |s|, base, offset);
            HclOffset(Starts(s), |s|, p.line, p.column) == offset
  {
    OffsetInvertsBelowBound(s, base, offset);
  }

  lemma {:induction false} SpreadAtLeast(starts: seq<nat>, k: nat)
    requires Increasing(starts) && k < |starts|
    ensures k <= starts[k]
  {
    if k > 0 {
      SpreadAtLeast(starts, k - 1);
    }
  }

  /** A line and a column on it turn into an offset with that line and column. */
  lemma PositionInvertsOffset(s: seq<byte>, base: nat, line: nat, column: nat)
    requires 1 <= line <= |Starts(s)| && line <= U32_MAX && 1 <= column <= U32_MAX
    requires var last := Starts(s)[line - 1] + column - 1;
             if line < |Starts(s)| then last < Starts(s)[line] else last <= |s|
    ensures var offset := HclOffset(Starts(s), |s|, line, column);
            var p := ClampedPosition(Starts(s), |s|, base, offset);
            offset == Starts(s)[line - 1] + column - 1 && p.line == line && p.column == column
  {
    var offset := Starts(s)[line - 1] + column - 1;
    StartsIncrease(s, |s|);
    PartitionPointSplits(Starts(s), offset, line);
  }

  // The hygiene scan.

  predicate IsBreak(b: byte) {
    b == CR || b == LF
  }

  /** Where the content of the line that starts here ends: at the next terminator byte. */
  function ContentEnd(s: seq<byte>, start: nat): (e: nat)
    requires start <= |s|
    ensures start <= e <= |s|
    decreases |s| - start
  {
    if start == |s| || IsBreak(s[start]) then start else ContentEnd(s, start + 1)
  }

  lemma {:induction false} ContentEndIs(s: seq<byte>, start: nat, e: nat)
    requires start <= e <= |s|
    requires forall i :: start <= i < e ==> !IsBreak(s[i])
    requires e == |s| || IsBreak(s[e])
    ensures ContentEnd(s, start) == e
    decreases e - start
  {
    if start < e {
      ContentEndIs(s, start + 1, e);
    }
  }

  const BOM: seq<byte> := [0xef, 0xbb, 0xbf]

  /** The checked content of a numbered line: a byte order mark does not count on the first. */
  function ContentStart(s: seq<byte>, number: nat, start: nat, end: nat): nat
    requires start <= end <= |s|
  {
    if number == 1 && start + 3 <= end && s[start..start + 3] == BOM then start + 3 else start
  }

  datatype LongLine = LongLine(number: nat, start: nat, end: nat)

  datatype Hygiene =
    | TooLarge
    | LineTooLong(number: nat)
    | Lines(count: nat, long: seq<LongLine>, tooMany: bool)

  /** Content length of line `k` of the index. */
  function Content(s: seq<byte>, k: nat): (r: (nat, nat))
    requires k < |Starts(s)|
    ensures r.0 <= |s| && r.1 <= |s|
  {
    var start := Starts(s)[k];
    var end := ContentEnd(s, start);
    (ContentStart(s, k + 1, start, end), end)
  }

  predicate TooLong(s: seq<byte>, k: nat, limit: nat)
    requires k < |Starts(s)|
  {
    Content(s, k).1 - Content(s, k).0 > limit
  }

  /** The content of a line goes from its start, after a byte order mark on the first line, to the next CR or LF or
      the end of the file; it is too long exactly when it has more bytes than the limit. */
  lemma {:induction false} ContentTold(s: seq<byte>, k: nat, limit: nat)
    requires k < |Starts(s)|
    ensures var start, from, end := Starts(s)[k], Content(s, k).0, Content(s, k).1;
            && start <= end <= |s| && (end < |s| ==> s[end] == 13 || s[end] == 10)
            && (forall i :: start <= i < end ==> s[i] != 13 && s[i] != 10)
            && (from == start + 3
                <==> k == 0 && end - start >= 3 && s[start] == 0xef && s[start + 1] == 0xbb && s[start + 2] == 0xbf)
            && (from == start || from == start + 3)
            && (TooLong(s, k, limit) <==> from + limit < end)
  {
    var start := Starts(s)[k];
    ContentEndTold(s, start);
    if start + 3 <= |s| {
      assert s[start..start + 3] == [s[start], s[start + 1], s[start + 2]];
    }
  }

  lemma {:induction false} ContentEndTold(s: seq<byte>, start: nat)
    requires start <= |s|
    ensures var end := ContentEnd(s, start);
            && (end < |s| ==> s[end] == 13 || s[end] == 10)
            && (forall i :: start <= i < end ==> s[i] != 13 && s[i] != 10)
    decreases |s| - start
  {
    if start < |s| && !IsBreak(s[start]) {
      ContentEndTold(s, start + 1);
    }
  }

  /** The line is among the first `n`, is too long, and has this content. */
  ghost predicate IsLong(s: seq<byte>, limit: nat, n: nat, l: LongLine)
    requires n <= |Starts(s)|
  {
    1 <= l.number <= n && TooLong(s, l.number - 1, limit) && (l.start, l.end) == Content(s, l.number - 1)
  }

  ghost predicate Ascending(long: seq<LongLine>) {
    forall i, j :: 0 <= i < j < |long| ==> long[i].number < long[j].number
  }

  /** The long lines are listed once, in order, with their content. */
  lemma {:induction false} LongLinesTold(s: seq<byte>, limit: nat, n: nat)
    requires n <= |Starts(s)|
    ensures Ascending(LongLines(s, limit, n))
    ensures forall l :: l in LongLines(s, limit, n) <==> IsLong(s, limit, n, l)
  {
    hide TooLong, Content;
    if n > 0 {
      LongLinesTold(s, limit, n - 1);
      var was := LongLines(s, limit, n - 1);
      assert forall i :: 0 <= i < |was| ==> was[i] in was;
    }
  }

  /** The lines among the first `n` that exceed the configured limit, in order. */
  function LongLines(s: seq<byte>, limit: nat, n: nat): seq<LongLine>
    requires n <= |Starts(s)|
  {
    if n == 0 then []
    else if TooLong(s, n - 1, limit)
    then LongLines(s, limit, n - 1) + [LongLine(n, Content(s, n - 1).0, Content(s, n - 1).1)]
    else LongLines(s, limit, n - 1)
  }

  /** The number of lines: a final start at the end of the file opens no line. */
  function LineCount(s: seq<byte>): (n: nat)
    ensures n <= |Starts(s)|
  {
    var starts := Starts(s);
    if starts[|starts| - 1] == |s| then |starts| - 1 else |starts|
  }

  ghost predicate AllShort(s: seq<byte>, n: nat)
    requires n <= |Starts(s)|
  {
    forall k: nat :: k < n ==> !TooLong(s, k, MAX_LINE_BYTES)
  }

  lemma {:induction false} StartsPrefix(s: seq<byte>, m: nat, n: nat)
    requires m <= n <= |s|
    ensures StartsTo(s, m) <= StartsTo(s, n)
  {
    if m < n {
      StartsPrefix(s, m, n - 1);
    }
  }

  /** The prefix that holds no terminator adds no start. */
  lemma {:induction false} NoBreakNoStart(s: seq<byte>, m: nat, n: nat)
    requires m <= n <= |s| && forall i :: m <= i < n ==> !IsBreak(s[i])
    ensures StartsTo(s, n) == StartsTo(s, m)
  {
    if m < n {
      NoBreakNoStart(s, m, n - 1);
    }
  }

  /** Checks one line and notes it when it exceeds the configured limit. */
  method CheckLine(s: seq<byte>, limit: nat, number: nat, start: nat, end: nat, long: seq<LongLine>)
    returns (ok: bool, noted: seq<LongLine>)
    requires 1 <= number <= |Starts(s)| && start == Starts(s)[number - 1] && end == ContentEnd(s, start)
    requires long == LongLines(s, limit, number - 1)
    ensures ok == !TooLong(s, number - 1, MAX_LINE_BYTES)
    ensures ok ==> noted == LongLines(s, limit, number)
  {
    var contentStart := start;
    if number == 1 && start + 3 <= end && s[start..start + 3] == BOM {
      contentStart := start + 3;
    }
    if end - contentStart > MAX_LINE_BYTES {
      return false, long;
    }
    noted := long;
    if end - contentStart > limit {
      noted := noted + [LongLine(number, contentStart, end)];
    }
    ok := true;
  }

  /** The scan counts the lines of the index, lists those over the limit in order, and refuses the
      file at the first line over the hard limit. */
  method ScanLines(s: seq<byte>, limit: nat, maxLines: nat) returns (r: Hygiene)
    ensures r == TooLarge <==> |s| > MAX_SOURCE_BYTES
    ensures |s| <= MAX_SOURCE_BYTES ==> (r.Lines? <==> AllShort(s, LineCount(s)))
    ensures r.LineTooLong? ==> 1 <= r.number <= LineCount(s) && AllShort(s, r.number - 1)
                               && TooLong(s, r.number - 1, MAX_LINE_BYTES)
    ensures r.Lines? ==> r == Lines(LineCount(s), LongLines(s, limit, LineCount(s)), LineCount(s) > maxLines)
  {
    if |s| > MAX_SOURCE_BYTES {
      return TooLarge;
    }
    hide StartsTo, Starts, ContentEnd, LongLines, TooLong, EndsLine, Scanned, LineCount, AllShort;
    var long: seq<LongLine> := [];
    ScanBegins(s, limit);
    var count, start, cursor := 0, 0, 0;
    while cursor < |s|
      invariant start <= cursor <= |s|
      invariant forall i :: start <= i < cursor ==> !IsBreak(s[i])
      invariant Scanned(s, start, count) && count < |Starts(s)| && Starts(s)[count] == start
      invariant AllShort(s, count) && long == LongLines(s, limit, count)
    {
      if s[cursor] != LF && s[cursor] != CR {
        cursor := cursor + 1;
        continue;
      }
      ContentEndIs(s, start, cursor);
      NextStart(s, start, cursor, count);
      var ok;
      ok, long := CheckLine(s, limit, count + 1, start, cursor, long);
      OneMoreShort(s, count);
      if !ok {
        return LineTooLong(count + 1);
      }
      count := count + 1;
      if s[cursor] == CR && cursor + 1 < |s| && s[cursor + 1] == LF {
        cursor := cursor + 1;
      }
      cursor := cursor + 1;
      start := cursor;
    }
    ScanEnds(s, start, count);
    if start < |s| {
      ContentEndIs(s, start, |s|);
      var ok;
      ok, long := CheckLine(s, limit, count + 1, start, |s|, long);
      OneMoreShort(s, count);
      if !ok {
        return LineTooLong(count + 1);
      }
      count := count + 1;
    }
    r := Lines(count, long, count > maxLines);
  }

  /** The first `count + 1` starts are those up to the current line start, which is the last. */
  ghost predicate Scanned(s: seq<byte>, start: nat, count: nat)
    requires start <= |s|
  {
    StartsTo(s, start) <= Starts(s) && |StartsTo(s, start)| == count + 1 && StartsTo(s, start)[count] == start
  }

  lemma ScanBegins(s: seq<byte>, limit: nat)
    ensures Scanned(s, 0, 0) && LongLines(s, limit, 0) == [] && AllShort(s, 0) && Starts(s)[0] == 0
  {
    StartsPrefix(s, 0, |s|);
  }

  lemma OneMoreShort(s: seq<byte>, count: nat)
    requires count < |Starts(s)| && AllShort(s, count)
    ensures AllShort(s, count + 1) <==> !TooLong(s, count, MAX_LINE_BYTES)
    ensures TooLong(s, count, MAX_LINE_BYTES) && count < LineCount(s) ==> !AllShort(s, LineCount(s))
  {
  }

  lemma ScanEnds(s: seq<byte>, start: nat, count: nat)
    requires start <= |s| && Scanned(s, start, count)
    requires forall i :: start <= i < |s| ==> !IsBreak(s[i])
    ensures |Starts(s)| == count + 1 && Starts(s)[count] == start
    ensures LineCount(s) == if start < |s| then count + 1 else count
  {
    NoBreakNoStart(s, start, |s|);
  }

  lemma StepStarts(s: seq<byte>, cursor: nat)
    requires cursor < |s| && IsBreak(s[cursor])
    ensures var next := if s[cursor] == CR && cursor + 1 < |s| && s[cursor + 1] == LF then cursor + 2 else cursor + 1;
            StartsTo(s, next) == StartsTo(s, cursor) + [next]
  {
    if s[cursor] == CR && cursor + 1 < |s| && s[cursor + 1] == LF {
      assert !EndsLine(s, cursor + 1) && EndsLine(s, cursor + 2);
    }
  }

  /** After the terminator at the cursor the next line starts. */
  lemma NextStart(s: seq<byte>, start: nat, cursor: nat, count: nat)
    requires start <= cursor < |s| && IsBreak(s[cursor])
    requires forall i :: start <= i < cursor ==> !IsBreak(s[i])
    requires Scanned(s, start, count)
    ensures var next := if s[cursor] == CR && cursor + 1 < |s| && s[cursor + 1] == LF then cursor + 2 else cursor + 1;
            Scanned(s, next, count + 1) && count + 1 < |Starts(s)| && Starts(s)[count + 1] == next
    ensures count + 1 <= LineCount(s)
  {
    NoBreakNoStart(s, start, cursor);
    var next := if s[cursor] == CR && cursor + 1 < |s| && s[cursor + 1] == LF then cursor + 2 else cursor + 1;
    StepStarts(s, cursor);
    StartsPrefix(s, next, |s|);
    assert Starts(s)[..|StartsTo(s, next)|] == StartsTo(s, next);
    StartsIncrease(s, |s|);
    hide StartsTo;
    assert Starts(s)[count] == start && Starts(s)[count + 1] == next;
  }
}
