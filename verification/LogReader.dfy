/** Queries over a segmented log: sparse anchors, offsets, and the filtered scans. */
module LogReader {
  import opened OrderedMap
  import opened Records
  import opened Results
  import opened LogRows

  /** `parse_row`: the record a row holds, if it is well formed. */
  type Parser = Bytes -> Option<Record>

  /** JSON text may carry trailing blanks, so a row parses with or without its line feed. */
  ghost predicate IgnoresLineFeed(parse: Parser) {
    forall s: Bytes :: parse(s + [LF]) == parse(s)
  }

  datatype Anchor = Anchor(step: int, line: nat, offset: nat)

  datatype Hints = Hints(index: seq<Anchor>, merge: bool)

  datatype Reader = Reader(segments: seq<Bytes>, limit: nat, hints: Option<Hints>)

  function AllRows(r: Reader): seq<RawRow> { Rows(r.segments, r.limit, 0, true) }

  function Parsed(parse: Parser, rows: seq<RawRow>): seq<Record> {
    if rows == [] then []
    else (match parse(rows[0].bytes) case None => [] case Some(rec) => [rec]) + Parsed(parse, rows[1..])
  }

  lemma {:induction false} ParsedConcat(parse: Parser, a: seq<RawRow>, b: seq<RawRow>)
    ensures Parsed(parse, a + b) == Parsed(parse, a) + Parsed(parse, b)
  {
    if a == [] {
      assert a + b == b;
    } else {
      assert (a + b)[0] == a[0] && (a + b)[1..] == a[1..] + b;
      ParsedConcat(parse, a[1..], b);
      var head := match parse(a[0].bytes) case None => [] case Some(rec) => [rec];
      var rest, tail := Parsed(parse, a[1..]), Parsed(parse, b);
      assert head + (rest + tail) == (head + rest) + tail;
    }
  }

  // ---------------------------------------------------------------- anchors

  /** Every anchor names a real row: its line, its offset and its step. */
  ghost predicate SoundIndex(parse: Parser, rows: seq<RawRow>, index: seq<Anchor>) {
    forall a :: a in index ==> SoundAnchor(parse, rows, a)
  }

  ghost predicate SoundAnchor(parse: Parser, rows: seq<RawRow>, a: Anchor) {
    && a.line < |rows|
    && rows[a.line].offset == a.offset
    && parse(rows[a.line].bytes).Some?
    && parse(rows[a.line].bytes).value.key == a.step
  }

  datatype Scan = Scan(index: seq<Anchor>, line: nat, next: nat, previous: Option<int>, merge: bool)

  function ScanVisitor(parse: Parser, every: nat): Visitor<Scan> {
    (s: Scan, row: RawRow) =>
      match parse(row.bytes)
      case None => (s.(line := s.line + 1), true)
      case Some(rec) =>
        var merge := s.merge || (s.previous.Some? && rec.key <= s.previous.value);
        if s.line >= s.next then
          (Scan(s.index + [Anchor(rec.key, s.line, row.offset)], s.line + 1, s.line + every, Some(rec.key), merge), true)
        else
          (s.(line := s.line + 1, previous := Some(rec.key), merge := merge), true)
  }

  /** What the metadata scan knows after the first `n` rows. */
  ghost predicate Scanned(parse: Parser, rows: seq<RawRow>, n: nat, s: Scan)
    requires n <= |rows|
  {
    var seen := Parsed(parse, rows[..n]);
    && s.line == n
    && SoundIndex(parse, rows, s.index)
    && s.previous == (if seen == [] then None else Some(seen[|seen| - 1].key))
    && (!s.merge <==> Ascending(seen))
  }

  lemma ScannedNext(parse: Parser, every: nat, rows: seq<RawRow>, n: nat, s: Scan)
    requires n < |rows| && Scanned(parse, rows, n, s)
    ensures ScanVisitor(parse, every)(s, rows[n]).1
    ensures Scanned(parse, rows, n + 1, ScanVisitor(parse, every)(s, rows[n]).0)
  {
    hide Parsed, Ascending;
    var seen := Parsed(parse, rows[..n]);
    assert rows[..n + 1] == rows[..n] + [rows[n]];
    ParsedConcat(parse, rows[..n], [rows[n]]);
    ParsedOne(parse, rows[n]);
    match parse(rows[n].bytes)
    case None =>
      assert seen + [] == seen;
    case Some(rec) =>
      AscendingPush(seen, rec);
  }

  lemma ParsedOne(parse: Parser, row: RawRow)
    ensures Parsed(parse, [row]) == match parse(row.bytes) case None => [] case Some(rec) => [rec]
  {
    assert [row][1..] == [];
  }

  lemma AscendingPush(seen: seq<Record>, rec: Record)
    ensures Ascending(seen + [rec]) <==> Ascending(seen) && (seen == [] || seen[|seen| - 1].key < rec.key)
  {
    var all := seen + [rec];
    if Ascending(all) {
      assert forall i :: 0 <= i < |seen| ==> all[i] == seen[i];
      assert all[|seen|] == rec;
    }
  }

  /** Anchors stand at least `every` lines apart, and none further from the row before the next. */
  ghost predicate Sampled(parse: Parser, rows: seq<RawRow>, n: nat, index: seq<Anchor>, every: nat)
    requires n <= |rows|
  {
    && (forall i, j :: 0 <= i < j < |index| ==> index[i].line + every <= index[j].line)
    && (every > 0 ==> forall k: nat :: k < n && parse(rows[k].bytes).Some? ==> NearAnchor(index, k, every))
  }

  ghost predicate NearAnchor(index: seq<Anchor>, k: nat, every: nat) {
    exists i :: 0 <= i < |index| && index[i].line <= k < index[i].line + every
  }

  ghost predicate Sampling(parse: Parser, rows: seq<RawRow>, n: nat, s: Scan, every: nat)
    requires n <= |rows|
  {
    && s.line == n && Sampled(parse, rows, n, s.index, every)
    && s.next == (if s.index == [] then 0 else s.index[|s.index| - 1].line + every)
    && (forall i :: 0 <= i < |s.index| ==> s.index[i].line < n)
  }

  lemma SamplingNext(parse: Parser, every: nat, rows: seq<RawRow>, n: nat, s: Scan)
    requires n < |rows| && Sampling(parse, rows, n, s, every)
    ensures Sampling(parse, rows, n + 1, ScanVisitor(parse, every)(s, rows[n]).0, every)
  {
    hide NearAnchor;
    var t := ScanVisitor(parse, every)(s, rows[n]).0;
    if parse(rows[n].bytes).Some? {
      if n >= s.next {
        AnchorPush(s.index, parse(rows[n].bytes).value.key, n, rows[n].offset, every);
      } else if every > 0 {
        AnchoredByLast(s.index, n, every);
      }
    }
  }

  lemma AnchorPush(index: seq<Anchor>, step: int, n: nat, offset: nat, every: nat)
    requires forall i :: 0 <= i < |index| ==> index[i].line < n
    ensures var more := index + [Anchor(step, n, offset)];
      && (every > 0 ==> NearAnchor(more, n, every))
      && forall k: nat :: NearAnchor(index, k, every) ==> NearAnchor(more, k, every)
  {
    var more := index + [Anchor(step, n, offset)];
    assert more[|index|].line == n;
    forall k: nat | NearAnchor(index, k, every)
      ensures NearAnchor(more, k, every)
    {
      var i :| 0 <= i < |index| && index[i].line <= k < index[i].line + every;
      assert more[i].line <= k < more[i].line + every;
    }
  }

  lemma AnchoredByLast(index: seq<Anchor>, n: nat, every: nat)
    requires index != [] && index[|index| - 1].line < n < index[|index| - 1].line + every
    ensures NearAnchor(index, n, every)
  {
  }

  lemma {:induction false} SamplingFold(parse: Parser, every: nat, rows: seq<RawRow>, n: nat, s: Scan)
    requires n <= |rows| && Sampling(parse, rows, n, s, every)
    ensures Sampling(parse, rows, |rows|, FoldUntil(ScanVisitor(parse, every), s, rows[n..]), every)
    decreases |rows| - n
  {
    hide Sampling, ScanVisitor;
    if n < |rows| {
      SamplingNext(parse, every, rows, n, s);
      assert ScanVisitor(parse, every)(s, rows[n]).1 by { ScanGoesOn(parse, every, s, rows[n]); }
      SamplingFold(parse, every, rows, n + 1, ScanVisitor(parse, every)(s, rows[n]).0);
      assert rows[n..][1..] == rows[n + 1..];
    }
  }

  lemma ScanGoesOn(parse: Parser, every: nat, s: Scan, row: RawRow)
    ensures ScanVisitor(parse, every)(s, row).1
  {
  }

  lemma {:induction false} ScanFold(parse: Parser, every: nat, rows: seq<RawRow>, n: nat, s: Scan)
    requires n <= |rows| && Scanned(parse, rows, n, s)
    ensures Scanned(parse, rows, |rows|, FoldUntil(ScanVisitor(parse, every), s, rows[n..]))
    decreases |rows| - n
  {
    hide Scanned, ScanVisitor;
    if n < |rows| {
      ScannedNext(parse, every, rows, n, s);
      ScanFold(parse, every, rows, n + 1, ScanVisitor(parse, every)(s, rows[n]).0);
      assert rows[n..][1..] == rows[n + 1..];
    }
  }

  /** `metadata`: given hints, or a scan that samples anchors and detects disorder. */
  method Metadata(r: Reader, parse: Parser, every: nat) returns (h: Hints)
    ensures r.hints.Some? ==> h == r.hints.value
    ensures r.hints.None? ==>
      && SoundIndex(parse, AllRows(r), h.index)
      && (!h.merge <==> Ascending(Parsed(parse, AllRows(r))))
      && Sampled(parse, AllRows(r), |AllRows(r)|, h.index, every)
  {
    if r.hints.Some? { return r.hints.value; }
    var init := Scan([], 0, 0, None, false);
    var s := VisitUntil(r.segments, r.limit, 0, true, ScanVisitor(parse, every), init);
    ghost var rows := AllRows(r);
    assert rows[..0] == [] && rows[0..] == rows && rows[..|rows|] == rows;
    ScanFold(parse, every, rows, 0, init);
    SamplingFold(parse, every, rows, 0, init);
    h := Hints(s.index, s.merge);
  }

  /** The last anchor satisfying a test: `index.iter().rev().find(..)`. */
  function LastAnchor(index: seq<Anchor>, ok: Anchor -> bool): (a: Option<Anchor>)
    ensures a.Some? ==> a.value in index && ok(a.value)
  {
    if index == [] then None
    else if ok(index[|index| - 1]) then Some(index[|index| - 1])
    else LastAnchor(index[..|index| - 1], ok)
  }

  // ---------------------------------------------------------------- offset_line

  datatype Count = Count(line: nat, found: nat)

  function LineVisitor(target: nat): Visitor<Count> {
    (c: Count, row: RawRow) =>
      if c.line == target then (c.(found := row.offset), false) else (c.(line := c.line + 1), true)
  }

  lemma {:induction false} LineFold(target: nat, c: Count, rows: seq<RawRow>)
    requires c.line <= target
    ensures FoldUntil(LineVisitor(target), c, rows).found
         == if target - c.line < |rows| then rows[target - c.line].offset else c.found
    decreases |rows|
  {
    if rows != [] && c.line < target {
      LineFold(target, c.(line := c.line + 1), rows[1..]);
    }
  }

  /** Where the row with ordinal `line` starts, or the end of the log. */
  function LineOffset(rows: seq<RawRow>, limit: nat, line: nat): nat {
    if line == 0 then 0 else if line < |rows| then rows[line].offset else limit
  }

  method OffsetLine(r: Reader, parse: Parser, line: nat) returns (at: nat)
    requires r.hints.Some? ==> SoundIndex(parse, AllRows(r), r.hints.value.index)
    ensures at == LineOffset(AllRows(r), r.limit, line)
  {
    if line == 0 { return 0; }
    var h := Metadata(r, parse, 1000);
    var anchor := LastAnchor(h.index, (a: Anchor) => a.line <= line);
    var count, start := 0, 0;
    ghost var rows := AllRows(r);
    if anchor.Some? {
      count, start := anchor.value.line, anchor.value.offset;
      assert SoundAnchor(parse, rows, anchor.value);
      RestartAtRow(r.segments, r.limit, true, count);
    }
    assert rows[0..] == rows;
    var c := VisitUntil(r.segments, r.limit, start, true, LineVisitor(line), Count(count, r.limit));
    LineFold(line, Count(count, r.limit), rows[count..]);
    at := c.found;
  }

  // ---------------------------------------------------------------- offset_step

  function StepVisitor(parse: Parser, step: int): Visitor<nat> {
    (found: nat, row: RawRow) =>
      match parse(row.bytes)
      case None => (found, true)
      case Some(rec) => if rec.key >= step then (row.offset, false) else (found, true)
  }

  /** Offset of the first row whose step is at least `step`, or `limit`. */
  function FirstAtLeast(parse: Parser, rows: seq<RawRow>, step: int, limit: nat): nat {
    if rows == [] then limit
    else if parse(rows[0].bytes).Some? && parse(rows[0].bytes).value.key >= step then rows[0].offset
    else FirstAtLeast(parse, rows[1..], step, limit)
  }

  lemma {:induction false} StepFold(parse: Parser, step: int, found: nat, rows: seq<RawRow>)
    ensures FoldUntil(StepVisitor(parse, step), found, rows) == FirstAtLeast(parse, rows, step, found)
  {
    if rows != [] { StepFold(parse, step, found, rows[1..]); }
  }

  ghost predicate BelowUntil(parse: Parser, rows: seq<RawRow>, n: nat, step: int)
    requires n <= |rows|
  {
    forall i :: 0 <= i < n && parse(rows[i].bytes).Some? ==> parse(rows[i].bytes).value.key < step
  }

  lemma {:induction false} SkipBelow(parse: Parser, rows: seq<RawRow>, n: nat, step: int, limit: nat)
    requires n <= |rows| && BelowUntil(parse, rows, n, step)
    ensures FirstAtLeast(parse, rows, step, limit) == FirstAtLeast(parse, rows[n..], step, limit)
  {
    if n > 0 {
      assert BelowUntil(parse, rows[1..], n - 1, step) by {
        forall i | 0 <= i < n - 1 && parse(rows[1..][i].bytes).Some?
          ensures parse(rows[1..][i].bytes).value.key < step
        {
          assert rows[1..][i] == rows[i + 1];
        }
      }
      SkipBelow(parse, rows[1..], n - 1, step, limit);
      assert rows[1..][n - 1..] == rows[n..];
    }
  }

  /** On an ascending log every row before an anchor has a smaller step. */
  lemma BeforeAnchor(parse: Parser, rows: seq<RawRow>, line: nat, i: nat)
    requires i < line < |rows| && Ascending(Parsed(parse, rows))
    requires parse(rows[i].bytes).Some? && parse(rows[line].bytes).Some?
    ensures parse(rows[i].bytes).value.key < parse(rows[line].bytes).value.key
  {
    hide Parsed;
    var head, tail := Parsed(parse, rows[..line]), Parsed(parse, rows[line..]);
    assert rows == rows[..line] + rows[line..];
    ParsedConcat(parse, rows[..line], rows[line..]);
    ParsedHas(parse, rows[..line], i);
    ParsedHead(parse, rows[line..]);
    var p :| 0 <= p < |head| && head[p] == parse(rows[i].bytes).value;
    assert (head + tail)[p] == head[p] && (head + tail)[|head|] == tail[0];
  }

  lemma ParsedHead(parse: Parser, rows: seq<RawRow>)
    requires rows != [] && parse(rows[0].bytes).Some?
    ensures Parsed(parse, rows) != [] && Parsed(parse, rows)[0] == parse(rows[0].bytes).value
  {
  }

  lemma {:induction false} ParsedHas(parse: Parser, rows: seq<RawRow>, i: nat)
    requires i < |rows| && parse(rows[i].bytes).Some?
    ensures parse(rows[i].bytes).value in Parsed(parse, rows)
  {
    if i > 0 { ParsedHas(parse, rows[1..], i - 1); }
  }

  /** Hints may come from a longer snapshot: sound for all rows below `outer`, of which the
      reader sees a prefix. */
  ghost predicate Prefix(r: Reader, outer: nat) {
    && r.limit <= outer
    && AllRows(r) <= AllRows(r.(limit := outer))
  }

  /** `offset_step`, from the nearest anchor. */
  method OffsetStep(r: Reader, parse: Parser, step: int, ghost outer: nat) returns (at: nat)
    requires Prefix(r, outer)
    requires Ascending(Parsed(parse, AllRows(r.(limit := outer))))
    requires r.hints.Some? ==> SoundIndex(parse, AllRows(r.(limit := outer)), r.hints.value.index)
    ensures at == FirstAtLeast(parse, AllRows(r), step, r.limit)
  {
    var h := Metadata(r, parse, 1000);
    var anchor := LastAnchor(h.index, (a: Anchor) => a.step <= step);
    var start := if anchor.Some? then anchor.value.offset else 0;
    ghost var rows, all := AllRows(r), AllRows(r.(limit := outer));
    if anchor.Some? {
      AnchorStart(r, parse, step, outer, anchor.value);
    }
    at := VisitUntil(r.segments, r.limit, start, true, StepVisitor(parse, step), r.limit);
    StepFold(parse, step, r.limit, Rows(r.segments, r.limit, start, true));
  }

  lemma AnchorStart(r: Reader, parse: Parser, step: int, outer: nat, a: Anchor)
    requires Prefix(r, outer)
    requires Ascending(Parsed(parse, AllRows(r.(limit := outer))))
    requires SoundAnchor(parse, AllRows(r.(limit := outer)), a) || SoundAnchor(parse, AllRows(r), a)
    requires a.step <= step
    ensures FirstAtLeast(parse, Rows(r.segments, r.limit, a.offset, true), step, r.limit)
         == FirstAtLeast(parse, AllRows(r), step, r.limit)
  {
    hide Rows, FirstAtLeast, Parsed;
    var rows, all := AllRows(r), AllRows(r.(limit := outer));
    var n := if a.line < |rows| then a.line else |rows|;
    assert SoundAnchor(parse, all, a);
    forall i | 0 <= i < n && parse(rows[i].bytes).Some?
      ensures parse(rows[i].bytes).value.key < step
    {
      assert all[i] == rows[i];
      BeforeAnchor(parse, all, a.line, i);
    }
    SkipBelow(parse, rows, n, step, r.limit);
    if a.line < |rows| {
      assert all[a.line] == rows[a.line];
      RestartAtRow(r.segments, r.limit, true, a.line);
    } else {
      RowsBeyond(r, outer, a.line);
    }
  }

  /** A row outside the snapshot starts at or after its limit. */
  lemma RowsBeyond(r: Reader, outer: nat, i: nat)
    requires Prefix(r, outer) && |AllRows(r)| <= i < |AllRows(r.(limit := outer))|
    ensures Rows(r.segments, r.limit, AllRows(r.(limit := outer))[i].offset, true) == AllRows(r)[|AllRows(r)|..]
  {
    hide RowsFrom;
    var rows, all := AllRows(r), AllRows(r.(limit := outer));
    var at := all[i].offset;
    RowBoundary(r.segments, 0, 0, outer, true, i);
    RowOffsets(r.segments, 0, 0, outer, 0, true);
    var before := Restart(r.segments, 0, 0, r.limit, at, true);
    var from := Rows(r.segments, r.limit, at, true);
    assert rows == before + from;
    assert forall j :: 0 <= j < |rows| ==> all[j] == rows[j] && rows[j].offset < at;
    assert from == rows[|before|..];
    assert (from + [all[i]])[0].offset >= at;
  }
}
