/** The stages of `collect`: what is taken from the cache, what is read from the files, and
    how the parts are put together. */
module Collecting {
  import opened OrderedMap
  import opened Records
  import opened Results
  import opened LogRows
  import opened LogReader
  import opened LogQuery
  import opened LogFiles
  import opened HistoryRows
  import opened HistoryAnswers

  // ---------------------------------------------------------------- cached rows as records

  ghost predicate AllKnown(parse: Parser, rows: seq<Cached>) {
    forall i :: 0 <= i < |rows| ==> Known(parse, rows[i])
  }

  function Held(parse: Parser, rows: seq<Cached>): seq<Record> { ParsedTexts(parse, CacheTexts(rows)) }

  lemma {:induction false} HeldPush(parse: Parser, rows: seq<Cached>, c: Cached)
    ensures Held(parse, rows + [c])
         == Held(parse, rows) + match parse(c.line) case None => [] case Some(rec) => [rec]
  {
    hide ParsedTexts;
    assert CacheTexts(rows + [c]) == CacheTexts(rows) + [c.line];
    ParsedTextsConcat(parse, CacheTexts(rows), [c.line]);
    HeldOne(parse, c.line);
  }

  lemma HeldOne(parse: Parser, line: Bytes)
    ensures ParsedTexts(parse, [line]) == match parse(line) case None => [] case Some(rec) => [rec]
  {
    assert [line][1..] == [];
  }

  /** Known rows are all records, at their own steps. */
  lemma {:induction false} HeldWhole(parse: Parser, rows: seq<Cached>)
    requires AllKnown(parse, rows)
    ensures |Held(parse, rows)| == |rows|
    ensures forall i :: 0 <= i < |rows| ==> Held(parse, rows)[i].key == rows[i].step
  {
    hide ParsedTexts, WholeLine;
    if rows == [] {
      HeldNothing(parse);
    } else {
      var init, last := rows[..|rows| - 1], rows[|rows| - 1];
      assert rows == init + [last];
      HeldWhole(parse, init);
      HeldPush(parse, init, last);
    }
  }

  lemma HeldNothing(parse: Parser)
    ensures Held(parse, []) == []
  {
  }

  /** The cache holds the records of the last rows of the log it mirrors. */
  lemma MirroredHeld(parse: Parser, log: seq<Bytes>, cache: seq<Cached>, row: int)
    requires Mirrors(parse, log, cache, row)
    ensures AllKnown(parse, cache)
    ensures ParsedTexts(parse, log) == ParsedTexts(parse, log[..row - |cache|]) + Held(parse, cache)
  {
    hide ParsedTexts, Known;
    var n, tail := row - |cache|, CacheTexts(cache);
    assert log == log[..n] + tail;
    ParsedTextsConcat(parse, log[..n], tail);
  }

  lemma {:induction false} HeldFrom(parse: Parser, rows: seq<Cached>, k: nat)
    requires AllKnown(parse, rows) && k <= |rows|
    ensures |Held(parse, rows)| == |rows| && Held(parse, rows[k..]) == Held(parse, rows)[k..]
  {
    hide ParsedTexts, Known;
    HeldWhole(parse, rows);
    HeldWhole(parse, rows[..k]);
    assert CacheTexts(rows) == CacheTexts(rows[..k]) + CacheTexts(rows[k..]);
    ParsedTextsConcat(parse, CacheTexts(rows[..k]), CacheTexts(rows[k..]));
  }

  /** Parsing the picked cache rows, as `filter_map` does. */
  method Decode(parse: Parser, rows: seq<Cached>) returns (records: seq<Record>)
    ensures records == Held(parse, rows)
  {
    hide ParsedTexts;
    records := [];
    HeldNothing(parse);
    var i := 0;
    while i < |rows|
      invariant 0 <= i <= |rows| && records == Held(parse, rows[..i])
    {
      HeldPush(parse, rows[..i], rows[i]);
      assert rows[..i + 1] == rows[..i] + [rows[i]];
      match parse(rows[i].line) {
        case None =>
        case Some(rec) => records := records + [rec];
      }
      i := i + 1;
    }
    assert rows[..i] == rows;
  }

  // ---------------------------------------------------------------- picking from the cache

  ghost predicate StepsAscend(rows: seq<Cached>) {
    forall i, j :: 0 <= i < j < |rows| ==> rows[i].step < rows[j].step
  }

  /** The newest cached rows, up to `count` steps if nothing needs merging. */
  method PickRecent(cache: seq<Cached>, diskPrefix: bool, count: Option<nat>, merge: bool)
    returns (rows: seq<Cached>, complete: bool)
    requires count != Some(0)
    ensures !complete ==> rows == cache && diskPrefix
    ensures complete && !merge && StepsAscend(cache) ==>
      (rows == cache && !diskPrefix)
      || (count.Some? && count.value <= |cache| && rows == cache[|cache| - count.value..])
    ensures complete && merge ==> rows == cache && !diskPrefix
    ensures merge || StepsAscend(cache) ==>
      (complete <==> !diskPrefix || (!merge && count.Some? && count.value < |cache|))
  {
    complete := !diskPrefix;
    var i, seen := |cache|, {};
    while i > 0
      invariant 0 <= i <= |cache|
      invariant complete == !diskPrefix
      invariant StepsAscend(cache) ==> |seen| == |cache| - i && forall s :: s in seen ==> i < |cache| && s >= cache[i].step
      invariant StepsAscend(cache) && !merge && count.Some? ==> |cache| - i <= count.value
    {
      var step := cache[i - 1].step;
      if !merge && count.Some? && |seen| == count.value && step !in seen {
        rows, complete := cache[i..], true;
        return;
      }
      assert StepsAscend(cache) ==> step !in seen;
      seen := seen + {step};
      i := i - 1;
    }
    rows := cache[i..];
  }

  /** The cached rows in range; enough, if the range starts no earlier than an ordered cache. */
  method PickRanged(parse: Parser, cache: seq<Cached>, diskPrefix: bool, start: Option<int>, end: Option<int>, merge: bool)
    returns (rows: seq<Cached>, complete: bool)
    requires AllKnown(parse, cache)
    ensures Held(parse, rows) == Ranged(Held(parse, cache), start, end)
    ensures complete <==> !diskPrefix || (!merge && start.Some? && cache != [] && start.value >= cache[0].step)
  {
    hide ParsedTexts, Ranged, InRange, WholeLine;
    rows := [];
    var i := 0;
    HeldNothing(parse);
    NothingInRange(start, end);
    while i < |cache|
      invariant 0 <= i <= |cache|
      invariant Held(parse, rows) == Ranged(Held(parse, cache[..i]), start, end)
    {
      assert cache[..i + 1] == cache[..i] + [cache[i]];
      assert Known(parse, cache[i]);
      HeldPush(parse, cache[..i], cache[i]);
      HeldPush(parse, rows, cache[i]);
      RangedPush(Held(parse, cache[..i]), parse(cache[i].line).value, start, end);
      if InRange(cache[i].step, start, end) { rows := rows + [cache[i]]; }
      i := i + 1;
    }
    assert cache[..i] == cache;
    complete := !diskPrefix || (!merge && start.Some? && cache != [] && start.value >= cache[0].step);
  }

  lemma NothingInRange(start: Option<int>, end: Option<int>)
    ensures Ranged([], start, end) == []
  {
  }

  lemma RangedPush(rows: seq<Record>, rec: Record, start: Option<int>, end: Option<int>)
    ensures Ranged(rows + [rec], start, end) == Ranged(rows, start, end) + if InRange(rec.key, start, end) then [rec] else []
  {
    hide InRange;
    assert (rows + [rec])[..|rows|] == rows;
  }

  // ---------------------------------------------------------------- reading older rows

  /** The steps chosen from the open row and the cache, newest first. */
  method ChooseSteps(newer: seq<Record>, live: seq<Record>, count: nat) returns (chosen: set<int>)
    requires count > 0 && |live| <= 1
    ensures chosen == Recent(newer, count, Recent(live, count, {}))
  {
    chosen := if live != [] then {live[0].key} else {};
    RecentLive(live, count);
    var i := |newer|;
    assert newer[..i] == newer;
    while i > 0 && |chosen| < count
      invariant 0 <= i <= |newer|
      invariant Recent(newer[..i], count, chosen) == Recent(newer, count, Recent(live, count, {}))
    {
      assert newer[..i][..i - 1] == newer[..i - 1];
      chosen := chosen + {newer[i - 1].key};
      i := i - 1;
    }
  }

  lemma RecentLive(live: seq<Record>, count: nat)
    requires count > 0 && |live| <= 1
    ensures Recent(live, count, {}) == if live != [] then {live[0].key} else {}
  {
    if live != [] {
      assert live[..0] == [];
      assert {} + {live[0].key} == {live[0].key};
    }
  }

  /** A tail query that needs merging: extend the chosen steps from disk, then merge their rows. */
  method ReadMerged(r: Reader, parse: Parser, count: nat, newer: seq<Record>, live: seq<Record>)
    returns (result: seq<Record>)
    requires IgnoresLineFeed(parse) && count > 0 && |live| <= 1
    ensures result == OlderPart(Parsed(parse, AllRows(r)), newer, live, Some(count), None, None, false, true)
  {
    hide Rows, FoldUntil, Selected, Parsed, Keep, Ranged, Recent, MergeAll, AllBack;
    var chosen := ChooseSteps(newer, live, count);
    ghost var recs, before := Parsed(parse, AllRows(r)), chosen;
    RecentMeans(live, count, {});
    RecentMeans(newer, count, Recent(live, count, {}));
    RecentMeans(recs, count, before);
    if |chosen| < count {
      ReverseMirrorsVisit(r.segments, r.limit);
      chosen := Reverse(r.segments, r.limit, CHUNK, StepsVisitor(parse, count), chosen);
      StepsFold(parse, count, AllRows(r), before);
    } else {
      RecentFull(recs, count, chosen);
    }
    var q := Query(None, None, None, Some(true));
    var acc := FilteredScan(r, parse, q, true, Some(chosen), 0, AllRows(r));
    SelectedMeans(q, Some(chosen), recs);
    RangedAll(recs);
    result := acc.merged;
  }

  lemma RecentFull(rows: seq<Record>, count: nat, seen: set<int>)
    requires |seen| >= count
    ensures Recent(rows, count, seen) == seen
  {
  }

  /** What a query still needs from the rows before the cache. */
  method ReadOlder(r: Reader, parse: Parser, ghost outer: nat, count: Option<nat>, start: Option<int>, end: Option<int>,
                   ranged: bool, merge: bool, newer: seq<Record>, live: seq<Record>)
    returns (result: seq<Record>)
    requires IgnoresLineFeed(parse) && Prefix(r, outer) && |live| <= 1 && count != Some(0)
    requires r.hints.Some? ==> SoundIndex(parse, AllRows(r.(limit := outer)), r.hints.value.index)
    requires !merge ==> Ascending(Parsed(parse, AllRows(r.(limit := outer))))
    requires !ranged ==> start.None? && end.None?
    ensures result == OlderPart(Parsed(parse, AllRows(r)), newer, live, count, start, end, ranged, merge)
  {
    hide Rows, Parsed, Keep, Ranged, Recent, MergeAll, LastN;
    ghost var recs := Parsed(parse, AllRows(r));
    if ranged {
      result := RunQuery(r, parse, Query(None, start, end, Some(merge)), outer);
      RangedAnswer(recs, start, end, merge);
    } else if count.None? {
      result := RunQuery(r, parse, Query(None, None, None, Some(false)), outer);
      PlainAnswer(recs, None);
    } else if merge {
      result := ReadMerged(r, parse, count.value, newer, live);
    } else {
      var missing := Missing(count.value, |newer| + |live|);
      result := RunQuery(r, parse, Query(Some(missing), None, None, Some(false)), outer);
      PlainAnswer(recs, Some(missing));
    }
  }

  lemma RangedAnswer(rows: seq<Record>, start: Option<int>, end: Option<int>, merge: bool)
    ensures QueryAnswer(rows, Query(None, start, end, Some(merge)), merge)
         == if merge then MergeAll(Ranged(rows, start, end)) else Ranged(rows, start, end)
  {
    hide MergeAll, Ranged;
  }

  lemma PlainAnswer(rows: seq<Record>, limit: Option<nat>)
    ensures QueryAnswer(rows, Query(limit, None, None, Some(false)), false) == LastN(rows, limit)
    ensures limit.None? ==> LastN(rows, limit) == rows
  {
    RangedAll(rows);
  }

  // ---------------------------------------------------------------- putting the parts together

  /** The last stage: keep the newest steps, merge per step, trim a ranged answer. */
  method Combine(records: seq<Record>, count: Option<nat>, ranged: bool, merge: bool) returns (result: seq<Record>)
    requires count != Some(0)
    ensures result == Combined(records, count, ranged, merge)
  {
    hide MergeAll, Keep, Recent;
    result := records;
    if !ranged && count.Some? { result := Newest(records, count.value); }
    if merge { result := MergeRows(result); }
    if ranged && count.Some? && |result| > count.value { result := result[|result| - count.value..]; }
  }

  method Newest(records: seq<Record>, count: nat) returns (kept: seq<Record>)
    requires count > 0
    ensures kept == Keep(records, Recent(records, count, {}))
  {
    var i, selected := |records|, {};
    assert records[..i] == records;
    while i > 0
      invariant 0 <= i <= |records| && |selected| < count
      invariant Recent(records[..i], count, selected) == Recent(records, count, {})
    {
      assert records[..i][..i - 1] == records[..i - 1];
      selected := selected + {records[i - 1].key};
      i := i - 1;
      if |selected| == count { break; }
    }
    kept := [];
    var k := 0;
    while k < |records|
      invariant 0 <= k <= |records| && kept == Keep(records[..k], selected)
    {
      assert records[..k + 1][..k] == records[..k];
      if records[k].key in selected { kept := kept + [records[k]]; }
      k := k + 1;
    }
    assert records[..k] == records;
  }

  method MergeRows(records: seq<Record>) returns (merged: seq<Record>)
    ensures merged == MergeAll(records)
  {
    hide Upsert;
    merged := [];
    var i := 0;
    while i < |records|
      invariant 0 <= i <= |records| && merged == MergeAll(records[..i])
    {
      assert records[..i + 1] == records[..i] + [records[i]];
      MergePush(records[..i], records[i]);
      merged := Upsert(merged, records[i]);
      i := i + 1;
    }
    assert records[..i] == records;
  }

  // ---------------------------------------------------------------- the cut between disk and cache

  /** A snapshot stopped where the cache begins holds exactly the rows before the cache. */
  lemma StopRows(segments: seq<Bytes>, limit: nat, boundary: nat)
    requires boundary <= |Rows(segments, limit, 0, true)|
    ensures var rows := Rows(segments, limit, 0, true); var stop := LineOffset(rows, limit, boundary);
      stop <= limit && Rows(segments, stop, 0, true) == rows[..boundary]
  {
    hide RowsFrom;
    var rows := Rows(segments, limit, 0, true);
    if boundary == 0 {
      PastLimit(segments, 0, 0, 0, 0, true);
    } else if boundary < |rows| {
      SnapshotAtRow(segments, limit, boundary);
      RowOffsets(segments, 0, 0, limit, 0, true);
    }
  }

  function Trimmed(records: seq<Record>, count: Option<nat>): (r: seq<Record>)
    ensures r == LastN(records, count)
  {
    if count.Some? && |records| > count.value then records[|records| - count.value..] else records
  }

  lemma ShownOpen(live: seq<Record>, start: Option<int>, end: Option<int>)
    requires |live| <= 1
    ensures (if live != [] && InRange(live[0].key, start, end) then live else []) == Ranged(live, start, end)
    ensures start.None? && end.None? ==> Ranged(live, start, end) == live
  {
    if live != [] { assert live[..0] == [] && live == [live[0]]; }
  }
}
