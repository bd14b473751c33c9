/** Rows of the history: cached rows, the log of texts they mirror, and the records they hold. */
module HistoryRows {
  import opened OrderedMap
  import opened Records
  import opened Results
  import opened LogRows
  import opened LogReader
  import opened LogFiles
  import opened Tracker
  import opened LogWriter

  datatype Cached = Cached(row: int, step: int, line: Bytes)

  // ---------------------------------------------------------------- texts and records

  function Texts(rows: seq<RawRow>): (s: seq<Bytes>)
    ensures |s| == |rows| && forall i :: 0 <= i < |s| ==> s[i] == rows[i].bytes
  {
    seq(|rows|, i requires 0 <= i < |rows| => rows[i].bytes)
  }

  function CacheTexts(rows: seq<Cached>): (s: seq<Bytes>)
    ensures |s| == |rows| && forall i :: 0 <= i < |s| ==> s[i] == rows[i].line
  {
    seq(|rows|, i requires 0 <= i < |rows| => rows[i].line)
  }

  function ParsedTexts(parse: Parser, texts: seq<Bytes>): seq<Record> {
    if texts == [] then []
    else (match parse(texts[0]) case None => [] case Some(rec) => [rec]) + ParsedTexts(parse, texts[1..])
  }

  lemma {:induction false} ParsedTextsConcat(parse: Parser, a: seq<Bytes>, b: seq<Bytes>)
    ensures ParsedTexts(parse, a + b) == ParsedTexts(parse, a) + ParsedTexts(parse, b)
  {
    if a == [] {
      assert a + b == b;
    } else {
      assert (a + b)[0] == a[0] && (a + b)[1..] == a[1..] + b;
      ParsedTextsConcat(parse, a[1..], b);
      var head := match parse(a[0]) case None => [] case Some(rec) => [rec];
      var rest, tail := ParsedTexts(parse, a[1..]), ParsedTexts(parse, b);
      assert head + (rest + tail) == (head + rest) + tail;
    }
  }

  lemma {:induction false} ParsedIsTexts(parse: Parser, rows: seq<RawRow>)
    ensures Parsed(parse, rows) == ParsedTexts(parse, Texts(rows))
  {
    if rows != [] {
      ParsedIsTexts(parse, rows[1..]);
      assert Texts(rows)[1..] == Texts(rows[1..]);
    }
  }

  lemma ParsedTextsOne(parse: Parser, text: Bytes)
    requires parse(text).Some?
    ensures ParsedTexts(parse, [text]) == [parse(text).value]
  {
    assert [text][1..] == [];
  }

  function LastKey(recs: seq<Record>): Option<int> {
    if recs == [] then None else Some(recs[|recs| - 1].key)
  }

  // ---------------------------------------------------------------- the state

  /** A cached row is whole, and knows its own step. */
  ghost predicate Known(parse: Parser, c: Cached) {
    WholeLine(c.line) && parse(c.line).Some? && parse(c.line).value.key == c.step
  }

  /** The cache is the tail of the log of all rows, addressed by physical row ordinal. */
  ghost predicate Mirrors(parse: Parser, log: seq<Bytes>, cache: seq<Cached>, row: int) {
    && row == |log| && |cache| <= |log|
    && forall j :: 0 <= j < |cache| ==>
         cache[j].row == |log| - |cache| + j && cache[j].line == log[|log| - |cache| + j] && Known(parse, cache[j])
  }

  /** A merge is asked for exactly when steps do not strictly ascend; until then the last one is known. */
  ghost predicate Ordered(parse: Parser, log: seq<Bytes>, merge: bool, emitted: Option<int>) {
    && (!merge <==> Ascending(ParsedTexts(parse, log)))
    && (!merge ==> emitted == LastKey(ParsedTexts(parse, log)))
  }

  function Heft(cache: seq<Cached>): nat {
    if cache == [] then 0 else |cache[0].line| + Heft(cache[1..])
  }

  lemma {:induction false} HeftPush(cache: seq<Cached>, c: Cached)
    ensures Heft(cache + [c]) == Heft(cache) + |c.line|
  {
    if cache == [] {
      assert [c][1..] == [];
      assert [] + [c] == [c];
    } else {
      HeftPush(cache[1..], c);
      assert (cache + [c])[1..] == cache[1..] + [c];
    }
  }

  /** Admitting a row: out-of-order steps are noticed, the tail grows. */
  lemma Admitted(parse: Parser, log: seq<Bytes>, cache: seq<Cached>, row: int, merge: bool, emitted: Option<int>, c: Cached)
    requires Mirrors(parse, log, cache, row) && Ordered(parse, log, merge, emitted)
    requires Known(parse, c) && c.row == row
    ensures Mirrors(parse, log + [c.line], cache + [c], row + 1)
    ensures Ordered(parse, log + [c.line], merge || (emitted.Some? && c.step <= emitted.value), Some(c.step))
  {
    hide Known;
    var recs := ParsedTexts(parse, log);
    ParsedTextsConcat(parse, log, [c.line]);
    assert parse(c.line).Some? && parse(c.line).value.key == c.step by { KnownStep(parse, c); }
    ParsedTextsOne(parse, c.line);
    AscendingPush(recs, parse(c.line).value);
  }

  lemma KnownStep(parse: Parser, c: Cached)
    requires Known(parse, c)
    ensures parse(c.line).Some? && parse(c.line).value.key == c.step
  {
  }

  /** Ordinals are handed out in order, so the watermark is the last durable line. */
  lemma {:induction false} WatermarkIsLine(stored: seq<Queued>, first: nat)
    requires forall i :: 0 <= i < |stored| ==> stored[i].row == first + i
    ensures MaxRow(stored, first - 1) == first + |stored| - 1
  {
    if stored != [] { WatermarkIsLine(stored[..|stored| - 1], first); }
  }

  lemma MaxIsLast(recs: seq<Record>, max: Option<int>)
    requires MaxOf(recs, max) && Ascending(recs)
    ensures max == LastKey(recs)
  {
    if recs != [] {
      var i :| 0 <= i < |recs| && recs[i].key == max.value;
    }
  }

  lemma DurableTexts(parse: Parser, rows: seq<RawRow>, track: Track, first: seq<RawRow>, stored: seq<Queued>,
                     pending: seq<Queued>, flushed: int)
    requires Recorded(parse, rows, track, first, stored, flushed)
    requires forall i :: 0 <= i < |stored + pending| ==> (stored + pending)[i].row == |first| + i
    ensures flushed == |rows| - 1 && |rows| == |first| + |stored|
    ensures Texts(rows) == (Texts(first) + LinesOf(stored + pending))[..|rows|]
    ensures Describes(parse, rows, track)
  {
    hide Describes, MaxRow, Texts, LinesOf;
    var all, log := stored + pending, Texts(first) + LinesOf(stored + pending);
    assert forall i :: 0 <= i < |stored| ==> stored[i] == all[i];
    WatermarkIsLine(stored, |first|);
    forall i | 0 <= i < |rows|
      ensures Texts(rows)[i] == log[i]
    {
      if i < |first| {
        assert rows[..|first|][i] == rows[i];
      } else {
        assert rows[i].bytes == rows[|first| + (i - |first|)].bytes == stored[i - |first|].line;
      }
    }
  }

  lemma MirrorsRest(parse: Parser, log: seq<Bytes>, cache: seq<Cached>, row: int)
    requires Mirrors(parse, log, cache, row) && cache != []
    ensures Mirrors(parse, log, cache[1..], row)
    ensures cache[0].row == row - |cache| >= 0
  {
  }

  lemma TextsPrefix(rows: seq<RawRow>, n: nat)
    requires n <= |rows|
    ensures Texts(rows[..n]) == Texts(rows)[..n]
  {
  }

  /** The anchors of a snapshot: `with_hints` keeps those below its limit. */
  function Below(index: seq<Anchor>, limit: nat): (kept: seq<Anchor>)
    ensures forall a :: a in kept <==> a in index && a.offset < limit
  {
    if index == [] then []
    else (if index[0].offset < limit then [index[0]] else []) + Below(index[1..], limit)
  }
}
