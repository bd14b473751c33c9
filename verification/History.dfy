/** The history: an evicting in-memory tail over the writer's log, and `collect`, which
    answers every query as if all rows ever admitted were still in one list. */
module History {
  import opened OrderedMap
  import opened Records
  import opened QueryMeaning
  import opened Results
  import opened LogRows
  import opened LogReader
  import opened LogFiles
  import opened Tracker
  import opened LogWriter
  import opened HistoryAnswers
  import opened HistoryRows
  import opened Collecting

  /** One step of another thread; `Flush` is the next step of a flush. */
  datatype Event = Enqueue(step: int, line: Bytes) | MakeSpace | Flush

  datatype Phase = Idle | Started | Wrote(ok: bool)

  class Store {
    const parse: Parser
    const writer: Writer
    const cacheBytes: nat
    const cacheRows: nat

    var open: Option<Record>
    var emitted: Option<int>
    var row: int
    var cache: seq<Cached>
    var bytes: nat
    var diskPrefix: bool
    var merge: bool
    var evicted: nat
    var queries: nat
    var diskQueries: nat

    /** The text of every row found on opening or admitted since, by ordinal. */
    ghost function Log(): seq<Bytes>
      reads writer`first, writer`accepted
    {
      Texts(writer.first) + LinesOf(writer.accepted)
    }

    ghost function All(): seq<Record>
      reads writer`first, writer`accepted
    {
      ParsedTexts(parse, Log())
    }

    ghost predicate Linked()
      reads this`row, this`cache, this`diskPrefix, writer`first, writer`accepted, writer`stored, writer`dropped
    {
      && (forall i :: 0 <= i < |writer.accepted| ==> writer.accepted[i].row == |writer.first| + i)
      && (diskPrefix <==> row > |cache|)
      && (writer.dropped == 0 ==> row - |cache| <= |writer.first| + |writer.stored|)
    }

    ghost predicate Valid()
      reads this, writer
    {
      && writer.Valid() && writer.parse == parse
      && Mirrors(parse, Log(), cache, row)
      && Ordered(parse, Log(), merge, emitted)
      && bytes == Heft(cache)
      && Linked()
    }

    /** A fresh state over a just opened writer, resumed from what the writer found. */
    constructor (writer: Writer, cacheBytes: nat, cacheRows: nat)
      requires writer.Valid() && writer.accepted == [] && writer.stored == []
      ensures Valid() && this.writer == writer && cache == [] && open == None
      ensures All() == Parsed(parse, writer.Durable())
    {
      hide Describes, Balanced, Fits, DiskRows, ParsedTexts;
      this.parse, this.writer := writer.parse, writer;
      this.cacheBytes, this.cacheRows := cacheBytes, AtLeast(cacheRows, 1);
      open, cache, bytes, evicted, queries, diskQueries := None, [], 0, 0, 0, 0;
      // resume
      row := writer.track.lines;
      diskPrefix := writer.track.lines > 0;
      merge := writer.track.duplicates || !writer.track.sorted;
      emitted := writer.track.max;
      new;
      assert writer.Durable() == writer.first;
      assert LinesOf([]) == [];
      assert Log() == Texts(writer.first);
      Resumed(parse, writer.first, writer.track);
    }

    lemma Resumed(parse: Parser, rows: seq<RawRow>, t: Track)
      requires Describes(parse, rows, t)
      ensures t.lines == |rows|
      ensures ParsedTexts(parse, Texts(rows)) == Parsed(parse, rows)
      ensures Ordered(parse, Texts(rows), t.duplicates || !t.sorted, t.max)
    {
      ParsedIsTexts(parse, rows);
      if t.sorted && !t.duplicates { MaxIsLast(Parsed(parse, rows), t.max); }
    }

    predicate Over()
      reads this`bytes, this`cache
    {
      bytes > cacheBytes || |cache| > cacheRows
    }

    /** `enqueue_record`: offer one closed row to the writer; cache it if it is accepted. */
    method EnqueueRecord(step: int, line: Bytes) returns (outcome: Outcome)
      requires Valid() && WholeLine(line) && parse(line).Some? && parse(line).value.key == step
      modifies this`merge, this`emitted, this`row, this`bytes, this`cache,
               writer`queue, writer`queuedBytes, writer`dropped, writer`droppedBytes,
               writer`offered, writer`accepted, writer`lost, writer`refused
      ensures Valid()
      ensures outcome == Accepted ==> All() == old(All()) + [parse(line).value] && row == old(row) + 1
      ensures outcome != Accepted ==> Log() == old(Log()) && cache == old(cache) && row == old(row)
    {
      hide ParsedTexts, Mirrors, Ordered, WholeLine, LinesOf, Texts, Writer.Valid, Heft;
      var q := Queued(step, row, line);
      ghost var log := Log();
      assert Known(parse, Cached(row, step, line));
      LogSize();
      ghost var gone := 0;
      outcome, gone := writer.Offer(q);
      if outcome == Accepted {
        GrownLog(old(writer.accepted), q);
        ParsedTextsConcat(parse, log, [line]);
        ParsedTextsOne(parse, line);
        Remember(Cached(row, step, line), log);
      }
    }

    /** The bookkeeping for a row the writer has just accepted. */
    method Remember(c: Cached, ghost log: seq<Bytes>)
      requires writer.Valid() && writer.parse == parse
      requires Mirrors(parse, log, cache, row) && Ordered(parse, log, merge, emitted) && bytes == Heft(cache)
      requires Known(parse, c) && c.row == row && Log() == log + [c.line]
      requires forall i :: 0 <= i < |writer.accepted| ==> writer.accepted[i].row == |writer.first| + i
      requires diskPrefix <==> row > |cache|
      requires writer.dropped == 0 ==> row - |cache| <= |writer.first| + |writer.stored|
      modifies this`merge, this`emitted, this`row, this`bytes, this`cache
      ensures Valid() && row == old(row) + 1
    {
      hide ParsedTexts, Mirrors, Ordered, Known, Writer.Valid, Heft, Log;
      Admitted(parse, log, cache, row, merge, emitted, c);
      HeftPush(cache, c);
      if emitted.Some? && c.step <= emitted.value { merge := true; }
      emitted := Some(c.step);
      row := row + 1;
      bytes := bytes + |c.line|;
      cache := cache + [c];
    }

    lemma LogSize()
      requires Valid()
      ensures row == |writer.first| + |writer.accepted|
    {
    }

    lemma GrownLog(before: seq<Queued>, q: Queued)
      ensures Texts(writer.first) + LinesOf(before + [q]) == (Texts(writer.first) + LinesOf(before)) + [q.line]
    {
    }

    /** `evict`: while over budget, let go of the oldest cached rows that are on disk. */
    method Evict() returns (met: bool)
      requires Valid()
      modifies this`cache, this`bytes, this`diskPrefix, this`evicted
      ensures Valid() && (met <==> bytes <= cacheBytes && |cache| <= cacheRows)
      ensures evicted >= old(evicted) && var k := evicted - old(evicted);
        k <= |old(cache)| && cache == old(cache)[k..] && NoneWasted(old(cache), k)
      ensures !met ==> cache == [] || cache[0].row > writer.flushed
    {
      hide ParsedTexts, Ordered, Writer.Valid, Log, Mirrors, Heft;
      ghost var k: nat := 0;
      assert cache == cache[0..];
      while Over() && cache != [] && cache[0].row <= writer.flushed
        invariant Valid()
        invariant k <= |old(cache)| && cache == old(cache)[k..] && evicted == old(evicted) + k
        invariant NoneWasted(old(cache), k)
        decreases |cache|
      {
        assert bytes == Heft(cache);
        EvictOne();
        assert old(cache)[k..][1..] == old(cache)[k + 1..];
        k := k + 1;
      }
      met := !Over();
    }

    /** Each of the first `k` rows was on disk, and over the budget with those after it. */
    ghost predicate NoneWasted(rows: seq<Cached>, k: nat)
      requires k <= |rows|
      reads writer`flushed
    {
      forall j :: 0 <= j < k ==>
        rows[j].row <= writer.flushed && (Heft(rows[j..]) > cacheBytes || |rows[j..]| > cacheRows)
    }

    method EvictOne()
      requires Valid() && cache != [] && cache[0].row <= writer.flushed
      modifies this`cache, this`bytes, this`diskPrefix, this`evicted
      ensures Valid() && cache == old(cache)[1..] && evicted == old(evicted) + 1
    {
      hide ParsedTexts, Ordered, WholeLine, Writer.Valid, Log, Mirrors, Known;
      var oldest := cache[0];
      if writer.dropped == 0 { DurableBelow(); }
      MirrorsRest(parse, Log(), cache, row);
      cache, bytes := cache[1..], bytes - |oldest.line|;
      diskPrefix, evicted := true, evicted + 1;
    }

    /** Without losses every row up to the watermark is durable, under its own ordinal. */
    lemma DurableBelow()
      requires Valid() && writer.dropped == 0
      ensures writer.flushed == |writer.first| + |writer.stored| - 1
      ensures |writer.Durable()| == |writer.first| + |writer.stored| <= |Log()|
      ensures Texts(writer.Durable()) == Log()[..|writer.Durable()|]
      ensures Describes(parse, writer.Durable(), writer.track)
    {
      hide Recorded, Fits, DiskRows, Texts, LinesOf, Grown, AllClosed;
      assert writer.accepted == writer.stored + (writer.taken + writer.queue);
      DurableTexts(parse, writer.Durable(), writer.track, writer.first, writer.stored,
                   writer.taken + writer.queue, writer.flushed);
    }

    /** A flush step by step; rows may be admitted and queries answered between any two. */
    method StartFlush() returns (go: bool)
      requires Valid() && writer.taken == []
      modifies writer`queue, writer`queuedBytes, writer`taken, writer`inflight, writer`inflightBytes
      ensures Valid() && Log() == old(Log()) && writer.Settled()
      ensures go <==> writer.taken != []
    {
      hide Mirrors, Ordered, ParsedTexts, Writer.Valid;
      go := writer.BeginFlush();
    }

    method WriteFlush() returns (ok: bool)
      requires Valid() && writer.taken != [] && writer.Settled()
      modifies writer`segments, writer`active, writer`activeSize
      ensures Valid() && Log() == old(Log()) && (ok ==> writer.Written(writer.taken))
    {
      hide Mirrors, Ordered, ParsedTexts, Writer.Valid;
      ok := writer.WriteTaken();
    }

    method CommitFlush()
      requires Valid() && writer.taken != [] && writer.Written(writer.taken)
      modifies writer`taken, writer`inflight, writer`inflightBytes, writer`retry, writer`size, writer`flushed,
               writer`track, writer`stable, writer`stored
      ensures Valid() && Log() == old(Log()) && writer.taken == []
      ensures Extends(old(writer.stable), old(writer.size), writer.stable, writer.size)
    {
      hide Mirrors, Ordered, ParsedTexts, Writer.Valid, Writer.Written, Writer.Settled, Writer.Durable, LineRows,
           Extends;
      writer.Commit();
    }

    method AbortFlush()
      requires Valid() && writer.taken != []
      modifies writer`segments, writer`active, writer`activeSize, writer`stable, writer`queue, writer`queuedBytes,
               writer`taken, writer`inflight, writer`inflightBytes, writer`retry
      ensures Valid() && Log() == old(Log()) && writer.taken == []
      ensures Extends(old(writer.stable), old(writer.size), writer.stable, writer.size)
    {
      hide Mirrors, Ordered, ParsedTexts, Writer.Valid, Writer.RolledBack, Writer.Settled, Writer.Durable, AllBounded,
           Solid, Extends;
      writer.Recover();
      writer.Requeue();
    }

    // -------------------------------------------------------------- queries

    /** The open row, if the query asks for it. */
    function Live(includeOpen: bool): seq<Record>
      reads this`open
    {
      if includeOpen && open.Some? then [open.value] else []
    }

    /** Files in which the durable prefix reads back, whatever a write in progress has added. */
    ghost predicate Readable(files: seq<Segment>)
      reads writer`stable, writer`size
    {
      Size(files) >= writer.size && DiskRows(files, writer.size) == writer.Durable()
    }

    lemma CurrentFilesReadable()
      requires Valid()
      ensures Readable(writer.segments)
    {
      hide Recorded, Fits, Balanced, DiskRows, Size;
      StableRows(writer.stable, writer.segments, writer.size);
    }

    /** A query reads the files after the lock is released. As long as the durable prefix has only
        been extended since, they still hold what was durable then. */
    lemma LaterFilesReadable(past: seq<Segment>, n: nat)
      requires Valid() && Extends(past, n, writer.stable, writer.size)
      ensures Size(writer.segments) >= n && DiskRows(writer.segments, n) == DiskRows(past, n)
    {
      hide Recorded, Fits, Balanced, DiskRows, Size;
      StableRows(writer.stable, writer.segments, n);
    }

    /** What other threads do meanwhile: admit rows, evict, and flush step by step. */
    method Meanwhile(events: seq<Event>, phase: Phase) returns (now: Phase)
      requires Valid() && InPhase(phase) && AllWellFormed(events)
      modifies this, writer
      ensures Valid() && InPhase(now)
      ensures Extends(old(writer.stable), old(writer.size), writer.stable, writer.size)
      ensures var files := writer.segments; old(Readable(files))
    {
      hide WellFormed, Valid, InPhase, DiskRows;
      now := phase;
      ghost var past, n := writer.stable, writer.size;
      var i := 0;
      while i < |events|
        invariant 0 <= i <= |events| && Valid() && InPhase(now)
        invariant Extends(past, n, writer.stable, writer.size)
      {
        ghost var middle, m := writer.stable, writer.size;
        assert WellFormed(events[i]);
        now := Happen(events[i], now);
        ExtendsOn(past, n, middle, m, writer.stable, writer.size);
        i := i + 1;
      }
      LaterFilesReadable(past, n);
    }

    ghost predicate WellFormed(e: Event) {
      e.Enqueue? ==> WholeLine(e.line) && parse(e.line).Some? && parse(e.line).value.key == e.step
    }

    ghost predicate AllWellFormed(events: seq<Event>) { forall i :: 0 <= i < |events| ==> WellFormed(events[i]) }

    /** How far a flush has come. */
    ghost predicate InPhase(phase: Phase)
      reads writer
    {
      match phase
      case Idle => writer.taken == []
      case Started => writer.taken != [] && writer.Settled()
      case Wrote(ok) => writer.taken != [] && (ok ==> writer.Written(writer.taken))
    }

    method Happen(e: Event, phase: Phase) returns (now: Phase)
      requires Valid() && InPhase(phase) && WellFormed(e)
      modifies this, writer
      ensures Valid() && InPhase(now)
      ensures Extends(old(writer.stable), old(writer.size), writer.stable, writer.size)
    {
      hide Mirrors, Ordered, ParsedTexts, Writer.Valid, WholeLine, Heft, DiskRows;
      now := phase;
      match e {
        case Enqueue(step, line) =>
          var outcome := EnqueueRecord(step, line);
        case MakeSpace =>
          var met := Evict();
        case Flush =>
          match phase {
            case Idle =>
              var go := StartFlush();
              if go { now := Phase.Started; }
            case Started =>
              var ok := WriteFlush();
              now := Phase.Wrote(ok);
            case Wrote(ok) =>
              if ok { CommitFlush(); } else { AbortFlush(); }
              now := Phase.Idle;
          }
      }
    }

    /** The records before the cache and those in it. */
    ghost function Cold(): seq<Record>
      requires row - |cache| >= 0 && row - |cache| <= |Log()|
      reads this`row, this`cache, writer`first, writer`accepted
    {
      ParsedTexts(parse, Log()[..row - |cache|])
    }

    lemma Parts()
      requires Valid()
      ensures 0 <= row - |cache| <= |Log()|
      ensures All() == Cold() + Held(parse, cache) && |Held(parse, cache)| == |cache|
      ensures AllKnown(parse, cache)
      ensures forall i :: 0 <= i < |cache| ==> Held(parse, cache)[i].key == cache[i].step && cache[i].row == row - |cache| + i
      ensures !merge ==> Ascending(Cold() + Held(parse, cache)) && StepsAscend(cache)
      ensures !diskPrefix ==> Cold() == []
      ensures diskPrefix ==> row > |cache|
    {
      hide ParsedTexts, Known, Writer.Valid, Log, Held;
      MirroredHeld(parse, Log(), cache, row);
      HeldWhole(parse, cache);
      if !merge { SameSteps(Cold(), Held(parse, cache)); }
      if !diskPrefix {
        assert Log()[..row - |cache|] == [];
        HeldNothing(parse);
        HeldIsParsed([]);
        assert CacheTexts([]) == [];
      }
    }

    lemma HeldIsParsed(rows: seq<Cached>)
      ensures Held(parse, rows) == ParsedTexts(parse, CacheTexts(rows))
    {
    }

    lemma SameSteps(cold: seq<Record>, warm: seq<Record>)
      requires Ascending(cold + warm) && |warm| == |cache|
      requires forall i :: 0 <= i < |cache| ==> warm[i].key == cache[i].step
      ensures StepsAscend(cache)
    {
      assert forall i :: 0 <= i < |warm| ==> (cold + warm)[|cold| + i] == warm[i];
    }

    /** `snapshot`, `with_hints` and the cut at the first cached row: a reader of the rows
        before the cache. */
    method OpenOlder(files: seq<Segment>) returns (r: Reader)
      requires Valid() && Readable(files)
      ensures Prefix(r, writer.size) && AllRows(r.(limit := writer.size)) == writer.Durable()
      ensures r.hints.Some? && SoundIndex(parse, AllRows(r.(limit := writer.size)), r.hints.value.index)
      ensures writer.dropped == 0 ==> Parsed(parse, AllRows(r)) == Cold()
      ensures writer.dropped == 0 && !merge ==> Ascending(Parsed(parse, writer.Durable()))
    {
      hide ParsedTexts, Parsed, Mirrors, Writer.Valid, Heft, Rows, LastAnchor, LineOffset, Log, Cold, All, DiskRows, Ordered,
           Writer.Durable, Texts;
      var total := Total(Datas(files), |files|);
      DurableIsSound();
      OpenedRows(files);
      var hints := Hints(Below(writer.track.index, Min(writer.size, total)), writer.track.duplicates || !writer.track.sorted);
      var whole := Reader(Datas(files), Min(writer.size, total), Some(hints));
      var stop := whole.limit;
      if writer.dropped == 0 {
        var boundary := if cache != [] then cache[0].row else row;
        stop := OffsetLine(whole, parse, if boundary >= 0 then boundary else 0);
        DurableCut();
        BoundaryIsCut();
        StopRows(whole.segments, whole.limit, boundary);
      }
      r := whole.(limit := Min(stop, whole.limit));
    }

    lemma OpenedRows(files: seq<Segment>)
      requires Readable(files)
      ensures Total(Datas(files), |files|) >= writer.size
      ensures Rows(Datas(files), writer.size, 0, true) == writer.Durable()
    {
      assert files[..|files|] == files;
      TotalIsSize(files, |files|);
    }

    lemma BoundaryIsCut()
      requires Valid()
      ensures (if cache != [] then cache[0].row else row) == row - |cache| >= 0
    {
    }

    lemma DurableIsSound()
      requires Valid()
      ensures SoundIndex(parse, writer.Durable(), writer.track.index)
    {
      hide Fits, Balanced, DiskRows;
    }

    /** Without losses, the durable rows before the cache are the records before the cache. */
    lemma DurableCut()
      requires Valid() && writer.dropped == 0
      ensures row - |cache| <= |writer.Durable()|
      ensures Parsed(parse, writer.Durable()[..row - |cache|]) == Cold()
      ensures !merge ==> Ascending(Parsed(parse, writer.Durable()))
    {
      hide ParsedTexts, Parsed, Known, Writer.Valid, Heft, Log, Texts, Writer.Durable;
      DurableBelow();
      var n, rows := row - |cache|, writer.Durable();
      TextsPrefix(rows, n);
      assert Log()[..|rows|][..n] == Log()[..n];
      ParsedIsTexts(parse, rows[..n]);
      if !merge {
        ParsedIsTexts(parse, rows);
        assert Log() == Log()[..|rows|] + Log()[|rows|..];
        ParsedTextsConcat(parse, Log()[..|rows|], Log()[|rows|..]);
        SuffixAscending(ParsedTexts(parse, Log()[..|rows|]), ParsedTexts(parse, Log()[|rows|..]));
      }
    }

    /** What was picked from the cache serves the query. */
    lemma PickedOk(count: Option<nat>, start: Option<int>, end: Option<int>, ranged: bool, m: bool,
                   rows: seq<Cached>, complete: bool)
      requires Valid() && (!m ==> !merge)
      requires ranged ==>
        && Held(parse, rows) == Ranged(Held(parse, cache), start, end)
        && (complete ==> !diskPrefix || (!m && start.Some? && cache != [] && start.value >= cache[0].step))
      requires !ranged ==>
        || (rows == cache && (complete ==> !diskPrefix))
        || (complete && !m && count.Some? && count.value <= |cache| && rows == cache[|cache| - count.value..])
      ensures Picked(Cold(), Held(parse, cache), Held(parse, rows), complete, count, start, end, ranged, m)
    {
      hide Mirrors, Ordered, ParsedTexts, Writer.Valid, Log, Heft, Ranged, Known, Held, Cold, All, InRange;
      Parts();
      if ranged {
        if complete {
          if !diskPrefix { RangedNone(Cold(), start, end); } else { ColdBelow(start, end); }
        }
      } else if rows != cache {
        HeldFrom(parse, cache, |cache| - count.value);
      }
    }

    lemma ColdBelow(start: Option<int>, end: Option<int>)
      requires Valid() && !merge && start.Some? && cache != [] && start.value >= cache[0].step
      ensures Ranged(Cold(), start, end) == []
    {
      hide Mirrors, Ordered, ParsedTexts, Writer.Valid, Log, Heft, Ranged, Known, Held, Cold, All;
      Parts();
      var cold, warm := Cold(), Held(parse, cache);
      assert (cold + warm)[|cold|] == warm[0];
      assert forall i :: 0 <= i < |cold| ==> (cold + warm)[i] == cold[i];
      RangedNone(cold, start, end);
    }

    /** An open row past the last admitted step keeps the order. */
    lemma LiveAscends(live: seq<Record>)
      requires Valid() && !merge && |live| <= 1
      requires live != [] && emitted.Some? ==> live[0].key > emitted.value
      ensures Ascending(All() + live)
    {
      hide Mirrors, ParsedTexts, Writer.Valid, Log, Heft, Known;
      if live != [] {
        AscendingPush(All(), live[0]);
        assert live == [live[0]];
      } else {
        assert All() + live == All();
      }
    }

    /** The cache has all that a query needs: nothing lies before it, or, in order, it goes back to
        the start of the range, or past the wanted number of steps. */
    ghost predicate CacheServes(count: Option<nat>, start: Option<int>, ranged: bool, m: bool)
      reads this`diskPrefix, this`cache
    {
      || !diskPrefix
      || (!m && ranged && start.Some? && cache != [] && start.value >= cache[0].step)
      || (!m && !ranged && count.Some? && count.value < |cache|)
    }

    /** The cached rows a query takes, and whether they are enough. */
    method Pick(count: Option<nat>, start: Option<int>, end: Option<int>, ranged: bool, m: bool)
      returns (rows: seq<Cached>, complete: bool)
      requires Valid() && count != Some(0) && (merge ==> m)
      ensures Picked(Cold(), Held(parse, cache), Held(parse, rows), complete, count, start, end, ranged, m)
      ensures complete <==> CacheServes(count, start, ranged, m)
    {
      hide Mirrors, Ordered, ParsedTexts, Writer.Valid, Log, Heft, Ranged, Known, Held, Cold, All, InRange, Picked;
      Parts();
      if ranged {
        rows, complete := PickRanged(parse, cache, diskPrefix, start, end, m);
      } else {
        rows, complete := PickRecent(cache, diskPrefix, count, m);
      }
      PickedOk(count, start, end, ranged, m, rows, complete);
    }

    /** The records older than the cache that a query needs. */
    method ReadPast(files: seq<Segment>, count: Option<nat>, start: Option<int>, end: Option<int>, ranged: bool, m: bool,
                    newer: seq<Record>, live: seq<Record>)
      returns (past: seq<Record>)
      requires Valid() && IgnoresLineFeed(parse) && Readable(files) && |live| <= 1 && count != Some(0)
      requires !ranged ==> start.None? && end.None?
      requires merge || writer.dropped > 0 ==> m
      ensures writer.dropped == 0 ==> past == OlderPart(Cold(), newer, live, count, start, end, ranged, m)
    {
      hide Mirrors, Ordered, ParsedTexts, Parsed, Writer.Valid, Log, Readable, Heft, OlderPart, Known, Ascending, All, Cold,
           AllRows, Prefix, Writer.Durable, SoundIndex;
      var r := OpenOlder(files);
      past := ReadOlder(r, parse, writer.size, count, start, end, ranged, m, newer, live);
    }

    /** `collect`: the answer to a history query, from the cache and the files together. */
    method Collect(files: seq<Segment>, count: Option<nat>, start: Option<int>, end: Option<int>,
                   includeOpen: bool, ranged: bool)
      returns (result: seq<Record>)
      requires Valid() && IgnoresLineFeed(parse) && Readable(files)
      requires !ranged ==> start.None? && end.None?
      modifies this`queries, this`diskQueries
      ensures Valid() && queries == old(queries) + 1
      ensures var served := count == Some(0) || CacheServes(count, start, ranged, merge || writer.dropped > 0 || Late(includeOpen));
        diskQueries == old(diskQueries) + if served then 0 else 1
      ensures writer.dropped == 0 ==>
        var rows := All() + if includeOpen && open.Some? then [open.value] else [];
        && Answers(result, rows, count, start, end, ranged)
        && result == Answer(rows, count, start, end, ranged)
    {
      hide Mirrors, Ordered, Writer.Valid, Heft, Answer, Log, Readable, All, Answers, CacheServes;
      queries := queries + 1;
      if count == Some(0) {
        NoAnswer(All() + Live(includeOpen), start, end, ranged);
        AnswerAnswers(All() + Live(includeOpen), count, start, end, ranged);
        return [];
      }
      var complete;
      result, complete := Gather(files, count, start, end, includeOpen, ranged);
      if !complete { diskQueries := diskQueries + 1; }
      AnswerAnswers(All() + Live(includeOpen), count, start, end, ranged);
    }

    /** What the cache and, if need be, the files give. */
    method Gather(files: seq<Segment>, count: Option<nat>, start: Option<int>, end: Option<int>,
                  includeOpen: bool, ranged: bool)
      returns (result: seq<Record>, complete: bool)
      requires Valid() && IgnoresLineFeed(parse) && Readable(files) && count != Some(0)
      requires !ranged ==> start.None? && end.None?
      ensures complete <==> CacheServes(count, start, ranged, merge || writer.dropped > 0 || Late(includeOpen))
      ensures writer.dropped == 0 ==> result == Answer(All() + Live(includeOpen), count, start, end, ranged)
    {
      hide Mirrors, Ordered, ParsedTexts, Writer.Valid, Answer, Combined, Log, Readable, Heft, OlderPart, Picked, Known,
           All, Cold, Held, Ranged, LastN, CacheServes, Valid, IgnoresLineFeed, InRange;
      var live := Live(includeOpen);
      var m := merge || writer.dropped > 0 || (live != [] && emitted.Some? && live[0].key <= emitted.value);
      var rows;
      rows, complete := Pick(count, start, end, ranged, m);
      var newer := Decode(parse, rows);
      var shown := if live != [] && InRange(live[0].key, start, end) then live else [];
      var past: seq<Record> := [];
      if complete && !m {
        result := Trimmed(newer + shown, count);
      } else {
        if !complete { past := ReadPast(files, count, start, end, ranged, m, newer, live); }
        result := Combine(past + newer + shown, count, ranged, m);
      }
      if writer.dropped == 0 {
        Answered(live, m, newer, complete, count, start, end, ranged);
      }
    }

    /** The open row does not come after the last admitted step. */
    ghost predicate Late(includeOpen: bool)
      reads this`open, this`emitted
    {
      includeOpen && open.Some? && emitted.Some? && open.value.key <= emitted.value
    }

    lemma Answered(live: seq<Record>, m: bool, newer: seq<Record>, complete: bool, count: Option<nat>,
                   start: Option<int>, end: Option<int>, ranged: bool)
      requires Valid() && writer.dropped == 0 && |live| <= 1 && count != Some(0)
      requires !ranged ==> start.None? && end.None?
      requires m <==> merge || (live != [] && emitted.Some? && live[0].key <= emitted.value)
      requires Picked(Cold(), Held(parse, cache), newer, complete, count, start, end, ranged, m)
      ensures var shown := if live != [] && InRange(live[0].key, start, end) then live else [];
        var past := if complete then [] else OlderPart(Cold(), newer, live, count, start, end, ranged, m);
        && Combined(past + newer + shown, count, ranged, m) == Answer(All() + live, count, start, end, ranged)
        && (complete && !m ==> LastN(newer + shown, count) == Answer(All() + live, count, start, end, ranged))
    {
      hide Mirrors, Ordered, ParsedTexts, Writer.Valid, Answer, Combined, Log, Heft, OlderPart, Picked, Known,
           All, Cold, Held, Ranged, LastN;
      Parts();
      if !m { LiveAscends(live); }
      ShownOpen(live, start, end);
      PartsAnswer(Cold(), Held(parse, cache), newer, live, complete, count, start, end, ranged, m);
    }
  }
}
