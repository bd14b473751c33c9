/** `SegmentedReader::query`: range, tail and merged queries, and what they answer. */
module LogQuery {
  import opened OrderedMap
  import opened Records
  import opened QueryMeaning
  import opened Results
  import opened LogRows
  import opened LogReader

  const CHUNK: nat := 262144

  datatype Query = Query(limit: Option<nat>, start: Option<int>, end: Option<int>, merge: Option<bool>)

  // ---------------------------------------------------------------- backward visitors

  function Flip<T>(s: seq<T>): seq<T> { if s == [] then [] else Flip(s[1..]) + [s[0]] }

  lemma {:induction false} FlipConcat<T>(a: seq<T>, b: seq<T>)
    ensures Flip(a + b) == Flip(b) + Flip(a)
  {
    if a == [] {
      assert a + b == b;
    } else {
      FlipConcat(a[1..], b);
      assert (a + b)[1..] == a[1..] + b;
    }
  }

  lemma {:induction false} FlipFlip<T>(s: seq<T>)
    ensures Flip(Flip(s)) == s
  {
    if s != [] {
      FlipFlip(s[1..]);
      FlipConcat(Flip(s[1..]), [s[0]]);
      assert Flip([s[0]]) == [s[0]];
      assert s == [s[0]] + s[1..];
    }
  }

  function CollectVisitor(parse: Parser, count: nat): Visitor<seq<Record>> {
    (acc: seq<Record>, row: RawRow) =>
      match parse(row.bytes)
      case None => (acc, |acc| < count)
      case Some(rec) => (acc + [rec], |acc| + 1 < count)
  }

  function StepsVisitor(parse: Parser, count: nat): Visitor<set<int>> {
    (acc: set<int>, row: RawRow) =>
      match parse(row.bytes)
      case None => (acc, |acc| < count)
      case Some(rec) => (acc + {rec.key}, |acc + {rec.key}| < count)
  }

  lemma BareParses(parse: Parser, row: RawRow)
    requires IgnoresLineFeed(parse)
    ensures parse(Bare(row).bytes) == parse(row.bytes)
  {
    var b := row.bytes;
    if b != [] && b[|b| - 1] == LF {
      assert b == b[..|b| - 1] + [LF];
    }
  }

  /** The last row of a list is the first of its mirror. */
  lemma MirrorStep<S>(f: Visitor<S>, s: S, rows: seq<RawRow>)
    requires rows != []
    ensures var last, init := rows[|rows| - 1], rows[..|rows| - 1]; var (t, more) := f(s, Bare(last));
      FoldUntil(f, s, Mirrored(rows)) == if more then FoldUntil(f, t, Mirrored(init)) else t
  {
    var last, init := rows[|rows| - 1], rows[..|rows| - 1];
    assert rows == init + [last];
    MirroredConcat(init, [last]);
    assert Mirrored([last]) == [Bare(last)] by { assert [last][1..] == []; }
    assert ([Bare(last)] + Mirrored(init))[1..] == Mirrored(init);
  }

  lemma ParsedPush(parse: Parser, rows: seq<RawRow>)
    requires rows != []
    ensures var last, init := rows[|rows| - 1], rows[..|rows| - 1];
      Parsed(parse, rows)
      == match parse(last.bytes) case None => Parsed(parse, init) case Some(rec) => Parsed(parse, init) + [rec]
  {
    var last, init := rows[|rows| - 1], rows[..|rows| - 1];
    assert rows == init + [last];
    ParsedConcat(parse, init, [last]);
    ParsedOne(parse, last);
    assert Parsed(parse, init) + [] == Parsed(parse, init);
  }

  lemma {:induction false} CollectFold(parse: Parser, count: nat, rows: seq<RawRow>, acc: seq<Record>)
    requires IgnoresLineFeed(parse) && |acc| < count
    ensures FoldUntil(CollectVisitor(parse, count), acc, Mirrored(rows))
         == acc + Flip(LastN(Parsed(parse, rows), Some(count - |acc|)))
  {
    hide FoldUntil, Mirrored, Parsed, LastN, Flip;
    if rows == [] {
      FoldDone(CollectVisitor(parse, count), acc);
      MirroredNone();
      NothingToFlip(parse, Some(count - |acc|));
    } else {
      var last, init := rows[|rows| - 1], rows[..|rows| - 1];
      MirrorStep(CollectVisitor(parse, count), acc, rows);
      ParsedPush(parse, rows);
      BareParses(parse, last);
      match parse(last.bytes)
      case None =>
        CollectFold(parse, count, init, acc);
      case Some(rec) =>
        LastNSnoc(Parsed(parse, init), rec, count - |acc| - 1);
        FlipPush(LastN(Parsed(parse, init), Some(count - |acc| - 1)), rec);
        if |acc| + 1 < count {
          CollectFold(parse, count, init, acc + [rec]);
        } else {
          LastNNone(Parsed(parse, init), Some(0));
          assert Flip<Record>([]) == [] by { NothingToFlip(parse, None); }
        }
    }
  }

  lemma NothingToFlip(parse: Parser, count: Option<nat>)
    ensures Flip(LastN(Parsed(parse, []), count)) == []
    ensures Flip<Record>([]) == []
  {
  }

  lemma FlipPush<T>(s: seq<T>, x: T)
    ensures Flip(s + [x]) == [x] + Flip(s)
  {
    FlipConcat(s, [x]);
    assert Flip([x]) == [x];
  }

  lemma {:induction false} StepsFold(parse: Parser, count: nat, rows: seq<RawRow>, seen: set<int>)
    requires IgnoresLineFeed(parse) && |seen| < count
    ensures FoldUntil(StepsVisitor(parse, count), seen, Mirrored(rows)) == Recent(Parsed(parse, rows), count, seen)
  {
    hide FoldUntil, Mirrored, Parsed;
    if rows == [] {
      FoldDone(StepsVisitor(parse, count), seen);
      MirroredNone();
      assert Parsed(parse, []) == [] by { ParsedNone(parse); }
    } else {
      var last, init := rows[|rows| - 1], rows[..|rows| - 1];
      MirrorStep(StepsVisitor(parse, count), seen, rows);
      ParsedPush(parse, rows);
      BareParses(parse, last);
      match parse(last.bytes)
      case None =>
        StepsFold(parse, count, init, seen);
      case Some(rec) =>
        assert (Parsed(parse, init) + [rec])[..|Parsed(parse, init)|] == Parsed(parse, init);
        if |seen + {rec.key}| < count { StepsFold(parse, count, init, seen + {rec.key}); }
    }
  }

  lemma ParsedNone(parse: Parser)
    ensures Parsed(parse, []) == []
  {
  }

  // ---------------------------------------------------------------- forward visitor

  datatype Acc = Acc(merged: seq<Record>, records: seq<Record>)

  function Selects(q: Query, selected: Option<set<int>>, rec: Record): bool {
    InRange(rec.key, q.start, q.end) && (selected.Some? ==> rec.key in selected.value)
  }

  function Capped(records: seq<Record>, limit: Option<nat>): seq<Record> {
    if limit.Some? && |records| > limit.value then records[1..] else records
  }

  function QueryVisitor(parse: Parser, q: Query, merge: bool, selected: Option<set<int>>): Visitor<Acc> {
    (acc: Acc, row: RawRow) =>
      match parse(row.bytes)
      case None => (acc, true)
      case Some(rec) =>
        if !merge && q.end.Some? && rec.key >= q.end.value then (acc, false)
        else if !Selects(q, selected, rec) then (acc, true)
        else if merge then (acc.(merged := Upsert(acc.merged, rec)), true)
        else (acc.(records := Capped(acc.records + [rec], q.limit)), true)
  }

  function Selected(q: Query, selected: Option<set<int>>, rows: seq<Record>): seq<Record> {
    if rows == [] then []
    else (if Selects(q, selected, rows[0]) then [rows[0]] else []) + Selected(q, selected, rows[1..])
  }

  lemma {:induction false} SelectedMeans(q: Query, selected: Option<set<int>>, rows: seq<Record>)
    ensures Selected(q, selected, rows)
         == if selected.Some? then Keep(Ranged(rows, q.start, q.end), selected.value) else Ranged(rows, q.start, q.end)
  {
    hide Selected, Ranged, Keep, InRange;
    if rows == [] {
      SelectsNothing(q, selected);
    } else {
      var first, rest := rows[0], rows[1..];
      SelectedMeans(q, selected, rest);
      SelectStep(q, selected, first, rest);
      assert rows == [first] + rest;
    }
  }

  lemma SelectsNothing(q: Query, selected: Option<set<int>>)
    ensures Selected(q, selected, []) == [] && Ranged([], q.start, q.end) == []
    ensures selected.Some? ==> Keep([], selected.value) == []
  {
  }

  lemma SelectStep(q: Query, selected: Option<set<int>>, first: Record, rest: seq<Record>)
    ensures Selected(q, selected, [first] + rest)
         == (if Selects(q, selected, first) then [first] else []) + Selected(q, selected, rest)
    ensures Ranged([first] + rest, q.start, q.end)
         == (if InRange(first.key, q.start, q.end) then [first] else []) + Ranged(rest, q.start, q.end)
    ensures selected.Some? ==>
      Keep(Ranged([first] + rest, q.start, q.end), selected.value)
      == (if Selects(q, selected, first) then [first] else []) + Keep(Ranged(rest, q.start, q.end), selected.value)
  {
    hide Selected, Ranged, Keep, InRange;
    SelectedCons(q, selected, first, rest);
    RangedConcat([first], rest, q.start, q.end);
    RangedOne(first, q.start, q.end);
    if selected.Some? {
      KeepConcat(Ranged([first], q.start, q.end), Ranged(rest, q.start, q.end), selected.value);
      KeepOne(first, selected.value);
      SelectsNothing(q, selected);
    }
  }

  lemma SelectedCons(q: Query, selected: Option<set<int>>, first: Record, rest: seq<Record>)
    ensures Selected(q, selected, [first] + rest)
         == (if Selects(q, selected, first) then [first] else []) + Selected(q, selected, rest)
  {
    hide InRange;
    assert ([first] + rest)[1..] == rest;
  }

  lemma RangedOne(r: Record, start: Option<int>, end: Option<int>)
    ensures Ranged([r], start, end) == if InRange(r.key, start, end) then [r] else []
  {
    hide InRange;
    assert [r][..0] == [];
  }

  lemma KeepOne(r: Record, steps: set<int>)
    ensures Keep([r], steps) == if r.key in steps then [r] else []
  {
    assert [r][..0] == [];
  }

  lemma MergePush(rows: seq<Record>, rec: Record)
    ensures MergeAll(rows + [rec]) == Upsert(MergeAll(rows), rec)
  {
    assert (rows + [rec])[..|rows|] == rows;
  }

  lemma {:induction false} MergeFold(parse: Parser, q: Query, selected: Option<set<int>>, rows: seq<RawRow>,
                                     done: seq<Record>, acc: Acc)
    requires acc.merged == MergeAll(done)
    ensures FoldUntil(QueryVisitor(parse, q, true, selected), acc, rows).merged
         == MergeAll(done + Selected(q, selected, Parsed(parse, rows)))
    decreases |rows|
  {
    hide MergeAll, Upsert;
    if rows == [] {
      assert done + [] == done;
    } else {
      var rest := Parsed(parse, rows[1..]);
      match parse(rows[0].bytes)
      case None =>
        assert [] + rest == rest;
        MergeFold(parse, q, selected, rows[1..], done, acc);
      case Some(rec) =>
        assert ([rec] + rest)[1..] == rest;
        if Selects(q, selected, rec) {
          MergePush(done, rec);
          MergeFold(parse, q, selected, rows[1..], done + [rec], acc.(merged := Upsert(acc.merged, rec)));
          assert done + [rec] + Selected(q, selected, rest) == done + ([rec] + Selected(q, selected, rest));
        } else {
          assert [] + Selected(q, selected, rest) == Selected(q, selected, rest);
          MergeFold(parse, q, selected, rows[1..], done, acc);
        }
    }
  }

  lemma {:induction false} PlainFold(parse: Parser, q: Query, rows: seq<RawRow>, done: seq<Record>, acc: Acc)
    requires acc.records == LastN(done, q.limit)
    requires q.end.None? || Ascending(Parsed(parse, rows))
    ensures FoldUntil(QueryVisitor(parse, q, false, None), acc, rows).records
         == LastN(done + Selected(q, None, Parsed(parse, rows)), q.limit)
    decreases |rows|
  {
    hide LastN, Ascending, InRange, Capped;
    if rows == [] {
      assert done + [] == done;
    } else {
      var rest := Parsed(parse, rows[1..]);
      match parse(rows[0].bytes)
      case None =>
        assert [] + rest == rest;
        PlainFold(parse, q, rows[1..], done, acc);
      case Some(rec) =>
        assert ([rec] + rest)[1..] == rest;
        if q.end.Some? { AscendingRest(rec, rest); }
        if q.end.Some? && rec.key >= q.end.value {
          SelectedNone(q, [rec] + rest);
          assert done + [] == done;
        } else if Selects(q, None, rec) {
          CappedIsLast(done, rec, q.limit);
          PlainFold(parse, q, rows[1..], done + [rec], acc.(records := Capped(acc.records + [rec], q.limit)));
          assert done + [rec] + Selected(q, None, rest) == done + ([rec] + Selected(q, None, rest));
        } else {
          assert [] + Selected(q, None, rest) == Selected(q, None, rest);
          PlainFold(parse, q, rows[1..], done, acc);
        }
    }
  }

  lemma AscendingRest(rec: Record, rest: seq<Record>)
    requires Ascending([rec] + rest)
    ensures Ascending(rest)
  {
    assert forall i :: 0 <= i < |rest| ==> ([rec] + rest)[i + 1] == rest[i];
  }

  lemma {:induction false} SelectedNone(q: Query, rows: seq<Record>)
    requires q.end.Some? && Ascending(rows) && (rows != [] ==> rows[0].key >= q.end.value)
    ensures Selected(q, None, rows) == []
  {
    if rows != [] { SelectedNone(q, rows[1..]); }
  }

  lemma CappedIsLast(done: seq<Record>, rec: Record, limit: Option<nat>)
    ensures Capped(LastN(done, limit) + [rec], limit) == LastN(done + [rec], limit)
  {
  }

  // ---------------------------------------------------------------- query

  ghost predicate Merging(r: Reader, parse: Parser, q: Query) {
    if q.merge.Some? then q.merge.value
    else if r.hints.Some? then r.hints.value.merge
    else !Ascending(Parsed(parse, AllRows(r)))
  }

  /** The answer on the plain list of records. */
  function QueryAnswer(rows: seq<Record>, q: Query, merge: bool): seq<Record> {
    if q.limit == Some(0) then []
    else
      var tail := q.start.None? && q.end.None? && q.limit.Some?;
      if tail && merge then MergeAll(Keep(rows, Recent(rows, q.limit.value, {})))
      else
        var kept := Ranged(rows, q.start, q.end);
        LastN(if merge then MergeAll(kept) else kept, q.limit)
  }

  /** Whichever way rows are combined, the answer is what was asked for. */
  lemma QueryAnswers(rows: seq<Record>, q: Query, merge: bool)
    ensures merge ==> Answers(QueryAnswer(rows, q, merge), rows, q.limit, q.start, q.end, q.start.Some? || q.end.Some?)
    ensures !merge ==> Excerpt(QueryAnswer(rows, q, merge), rows, q.limit, q.start, q.end)
  {
    hide MergeAll, Ranged, Keep, Recent, LastN, Answers, Excerpt;
    if q.limit == Some(0) {
      NothingAnswers(rows, q.start, q.end);
      NoExcerpt(rows, q.start, q.end);
    } else if merge {
      AnswerAnswers(rows, q.limit, q.start, q.end, q.start.Some? || q.end.Some?);
      if q.start.None? && q.end.None? && q.limit.None? { WholeRange(rows); }
    } else {
      RangedAnswers(rows, q.limit, q.start, q.end);
    }
  }

  lemma WholeRange(rows: seq<Record>)
    ensures LastN(MergeAll(Ranged(rows, None, None)), None) == MergeAll(rows)
  {
    RangedAll(rows);
  }

  method FilteredScan(r: Reader, parse: Parser, q: Query, merge: bool, selected: Option<set<int>>, offset: nat,
                      ghost rows: seq<RawRow>)
    returns (acc: Acc)
    requires rows == Rows(r.segments, r.limit, offset, true)
    requires merge || (selected.None? && (q.end.None? || Ascending(Parsed(parse, rows))))
    ensures merge ==> acc.merged == MergeAll(Selected(q, selected, Parsed(parse, rows)))
    ensures !merge ==> acc.records == LastN(Selected(q, None, Parsed(parse, rows)), q.limit)
  {
    hide Rows, FoldUntil, Selected, Parsed;
    acc := VisitUntil(r.segments, r.limit, offset, true, QueryVisitor(parse, q, merge, selected), Acc([], []));
    ghost var picked := Selected(q, selected, Parsed(parse, rows));
    assert [] + picked == picked;
    if merge {
      MergeFold(parse, q, selected, rows, [], Acc([], []));
    } else {
      assert [] + Selected(q, None, Parsed(parse, rows)) == Selected(q, None, Parsed(parse, rows));
      PlainFold(parse, q, rows, [], Acc([], []));
    }
  }

  /** `SegmentedReader::query`. Its anchors may stem from a longer snapshot, `outer`. */
  method RunQuery(r: Reader, parse: Parser, q: Query, ghost outer: nat) returns (result: seq<Record>)
    requires IgnoresLineFeed(parse) && Prefix(r, outer)
    requires r.hints.Some? ==> SoundIndex(parse, AllRows(r.(limit := outer)), r.hints.value.index)
    requires !Merging(r, parse, q) && (q.start.Some? || q.end.Some?) ==>
      Ascending(Parsed(parse, AllRows(r.(limit := outer))))
    ensures Merging(r, parse, q) ==>
      Answers(result, Parsed(parse, AllRows(r)), q.limit, q.start, q.end, q.start.Some? || q.end.Some?)
    ensures !Merging(r, parse, q) ==> Excerpt(result, Parsed(parse, AllRows(r)), q.limit, q.start, q.end)
    ensures result == QueryAnswer(Parsed(parse, AllRows(r)), q, Merging(r, parse, q))
  {
    hide Answers, Excerpt;
    QueryAnswers(Parsed(parse, AllRows(r)), q, Merging(r, parse, q));
    hide Rows, FoldUntil, Selected, Parsed, Flip, Keep, Ranged, Recent, MergeAll, AllBack, FirstAtLeast;
    if q.limit == Some(0) { return []; }
    var h := Metadata(r, parse, 1000);
    var merge := if q.merge.Some? then q.merge.value else h.merge;
    var selected: Option<set<int>> := None;
    ghost var rows := AllRows(r);
    ghost var recs := Parsed(parse, rows);
    ReverseMirrorsVisit(r.segments, r.limit);
    RangedAll(recs);
    if q.start.None? && q.end.None? && q.limit.Some? {
      var count := q.limit.value;
      if !merge {
        result := Reverse(r.segments, r.limit, CHUNK, CollectVisitor(parse, count), []);
        CollectFold(parse, count, rows, []);
        FlipFlip(LastN(recs, Some(count)));
        assert [] + Flip(LastN(recs, Some(count))) == Flip(LastN(recs, Some(count)));
        return Flip(result);
      }
      var keys := Reverse(r.segments, r.limit, CHUNK, StepsVisitor(parse, count), {});
      StepsFold(parse, count, rows, {});
      selected := Some(keys);
    }
    var offset := 0;
    if !merge && q.start.Some? {
      offset := OffsetStep(r, parse, q.start.value, outer);
    }
    ghost var from := Rows(r.segments, r.limit, offset, true);
    if !merge { ScanFrom(r, parse, q, outer, offset); }
    var acc := FilteredScan(r, parse, q, merge, selected, offset, from);
    SelectedMeans(q, selected, recs);
    if merge {
      result := if q.limit.Some? && |acc.merged| > q.limit.value
                then acc.merged[|acc.merged| - q.limit.value..] else acc.merged;
      if selected.Some? { MergedBound(recs, q.limit.value, selected.value); }
    } else {
      result := acc.records;
    }
  }

  /** Merging the rows of at most `count` steps gives at most `count` entries. */
  lemma MergedBound(recs: seq<Record>, count: nat, keys: set<int>)
    requires keys == Recent(recs, count, {})
    ensures |MergeAll(Keep(recs, keys))| <= count
  {
    RecentMeans(recs, count, {});
    var m := MergeAll(Keep(recs, keys));
    MergeAllMeans(Keep(recs, keys), 0);
    forall i | 0 <= i < |m|
      ensures m[i].key in keys
    {
      GetAt(m, i);
      MergeAllMeans(Keep(recs, keys), m[i].key);
      KeepLogged(recs, keys, m[i].key);
    }
    DistinctKeys(m, keys);
  }

  lemma {:induction false} KeepLogged(recs: seq<Record>, keys: set<int>, k: int)
    ensures Logged(Keep(recs, keys), k) ==> k in keys
  {
    if recs != [] {
      var init, last := recs[..|recs| - 1], recs[|recs| - 1];
      KeepLogged(init, keys, k);
      PatchedPush(Keep(init, keys), last, k);
      assert Keep(init, keys) + [] == Keep(init, keys);
    }
  }

  lemma {:induction false} DistinctKeys(m: seq<Record>, keys: set<int>)
    requires Ascending(m) && forall i :: 0 <= i < |m| ==> m[i].key in keys
    ensures |m| <= |keys|
  {
    if m != [] {
      assert forall i :: 0 <= i < |m| - 1 ==> m[i].key < m[|m| - 1].key;
      DistinctKeys(m[..|m| - 1], keys - {m[|m| - 1].key});
    }
  }

  /** Below the offset that `offset_step` finds, nothing is in range. */
  lemma ScanFrom(r: Reader, parse: Parser, q: Query, outer: nat, offset: nat)
    requires Prefix(r, outer)
    requires q.start.Some? || q.end.Some? ==> Ascending(Parsed(parse, AllRows(r.(limit := outer))))
    requires offset == if q.start.Some? then FirstAtLeast(parse, AllRows(r), q.start.value, r.limit) else 0
    ensures var from := Rows(r.segments, r.limit, offset, true);
      && (q.end.Some? ==> Ascending(Parsed(parse, from)))
      && Selected(q, None, Parsed(parse, from)) == Ranged(Parsed(parse, AllRows(r)), q.start, q.end)
  {
    hide Rows, Selected, Parsed, Ranged;
    var rows, all := AllRows(r), AllRows(r.(limit := outer));
    var from := Rows(r.segments, r.limit, offset, true);
    SelectedMeans(q, None, Parsed(parse, from));
    if q.start.Some? || q.end.Some? {
      AscendingPrefix(parse, rows, all);
    }
    if q.start.Some? {
      var n := FirstIndex(parse, rows, q.start.value, r.limit);
      if n < |rows| {
        RestartAtRow(r.segments, r.limit, true, n);
      } else {
        NothingAtLimit(r.segments, r.limit);
      }
      assert from == rows[n..];
      assert rows == rows[..n] + rows[n..];
      ParsedConcat(parse, rows[..n], rows[n..]);
      RangedConcat(Parsed(parse, rows[..n]), Parsed(parse, rows[n..]), q.start, q.end);
      ParsedBelow(parse, rows[..n], q.start.value);
      RangedNone(Parsed(parse, rows[..n]), q.start, q.end);
      var a, b := Parsed(parse, rows[..n]), Parsed(parse, from);
      assert [] + Ranged(b, q.start, q.end) == Ranged(b, q.start, q.end);
      assert forall i :: 0 <= i < |b| ==> (a + b)[|a| + i] == b[i];
    }
  }

  lemma AscendingPrefix(parse: Parser, rows: seq<RawRow>, all: seq<RawRow>)
    requires rows <= all && Ascending(Parsed(parse, all))
    ensures Ascending(Parsed(parse, rows))
  {
    assert all == rows + all[|rows|..];
    ParsedConcat(parse, rows, all[|rows|..]);
    var a, b := Parsed(parse, rows), Parsed(parse, all);
    assert forall i :: 0 <= i < |a| ==> b[i] == a[i];
  }

  lemma NothingAtLimit(segments: seq<Bytes>, limit: nat)
    ensures Rows(segments, limit, limit, true) == []
  {
    NothingFrom(segments, 0, 0, limit);
  }

  lemma {:induction false} NothingFrom(segments: seq<Bytes>, k: nat, base: nat, limit: nat)
    requires k <= |segments|
    ensures RowsFrom(segments, k, base, limit, limit, true) == []
    decreases |segments| - k
  {
    if k < |segments| { NothingFrom(segments, k + 1, base + |segments[k]|, limit); }
  }

  lemma {:induction false} FirstIndex(parse: Parser, rows: seq<RawRow>, step: int, limit: nat) returns (n: nat)
    ensures n <= |rows| && BelowUntil(parse, rows, n, step)
    ensures FirstAtLeast(parse, rows, step, limit) == if n < |rows| then rows[n].offset else limit
  {
    n := 0;
    if rows != [] && !(parse(rows[0].bytes).Some? && parse(rows[0].bytes).value.key >= step) {
      var m := FirstIndex(parse, rows[1..], step, limit);
      n := m + 1;
      forall i | 0 <= i < n && parse(rows[i].bytes).Some?
        ensures parse(rows[i].bytes).value.key < step
      {
        if i > 0 { assert rows[i] == rows[1..][i - 1]; }
      }
    }
  }

  lemma {:induction false} ParsedBelow(parse: Parser, rows: seq<RawRow>, step: int)
    requires BelowUntil(parse, rows, |rows|, step)
    ensures forall i :: 0 <= i < |Parsed(parse, rows)| ==> Parsed(parse, rows)[i].key < step
  {
    if rows != [] {
      assert BelowUntil(parse, rows[1..], |rows| - 1, step) by {
        forall i | 0 <= i < |rows| - 1 && parse(rows[1..][i].bytes).Some?
          ensures parse(rows[1..][i].bytes).value.key < step
        {
          assert rows[1..][i] == rows[i + 1];
        }
      }
      ParsedBelow(parse, rows[1..], step);
    }
  }
}
