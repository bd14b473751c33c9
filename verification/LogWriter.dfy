/** The buffered writer: a bounded queue, and flushes that append to rotating files or
    leave no trace. */
module LogWriter {
  import opened Results
  import opened LogRows
  import opened LogReader
  import opened LogFiles
  import opened Tracker

  datatype Queued = Queued(step: int, row: int, line: Bytes)

  datatype FlushResult = Idle | Persisted | Undone

  datatype Outcome = Accepted | Dropped | Refused | Blocked

  /** Bytes written per system call are bounded by the number of rows. */
  const BATCH: nat := 128

  function LinesOf(rows: seq<Queued>): (s: seq<Bytes>)
    ensures |s| == |rows| && forall i :: 0 <= i < |s| ==> s[i] == rows[i].line
  {
    seq(|rows|, i requires 0 <= i < |rows| => rows[i].line)
  }

  function Weight(rows: seq<Queued>): nat {
    if rows == [] then 0 else Weight(rows[..|rows| - 1]) + |rows[|rows| - 1].line|
  }

  /** A row as the history hands it over: one line that parses to its step. */
  ghost predicate Loggable(parse: Parser, q: Queued) {
    WholeLine(q.line) && parse(q.line).Some? && parse(q.line).value.key == q.step
  }

  ghost predicate AllLoggable(parse: Parser, rows: seq<Queued>) {
    forall i :: 0 <= i < |rows| ==> Loggable(parse, rows[i])
  }

  function MaxRow(rows: seq<Queued>, least: int): int {
    if rows == [] then least
    else
      var m := MaxRow(rows[..|rows| - 1], least);
      if rows[|rows| - 1].row > m then rows[|rows| - 1].row else m
  }

  lemma {:induction false} WeightConcat(a: seq<Queued>, b: seq<Queued>)
    ensures Weight(a + b) == Weight(a) + Weight(b)
  {
    if b == [] {
      assert a + b == a;
    } else {
      WeightConcat(a, b[..|b| - 1]);
      assert (a + b)[..|a + b| - 1] == a + b[..|b| - 1];
    }
  }

  lemma WeightOne(q: Queued)
    ensures Weight([q]) == |q.line|
  {
    assert [q][..0] == [];
  }

  lemma {:induction false} WeightIsPayload(rows: seq<Queued>)
    ensures Weight(rows) == |Payload(LinesOf(rows))|
  {
    if rows != [] {
      WeightIsPayload(rows[..|rows| - 1]);
      assert LinesOf(rows)[..|rows| - 1] == LinesOf(rows[..|rows| - 1]);
    }
  }

  lemma {:induction false} PayloadConcat(a: seq<Bytes>, b: seq<Bytes>)
    ensures Payload(a + b) == Payload(a) + Payload(b)
  {
    if b == [] {
      assert a + b == a;
    } else {
      PayloadConcat(a, b[..|b| - 1]);
      assert (a + b)[..|a + b| - 1] == a + b[..|b| - 1];
    }
  }

  lemma {:induction false} LineRowsConcat(a: seq<Bytes>, b: seq<Bytes>, at: nat)
    ensures LineRows(a + b, at) == LineRows(a, at) + LineRows(b, at + |Payload(a)|)
  {
    if b == [] {
      assert a + b == a;
    } else {
      LineRowsConcat(a, b[..|b| - 1], at);
      PayloadConcat(a, b[..|b| - 1]);
      assert (a + b)[..|a + b| - 1] == a + b[..|b| - 1];
    }
  }

  /** A file holds whole rows up to the limit, or a single row of any size. */
  predicate Bounded(max: Option<nat>, data: Bytes) {
    max.None? || |data| <= max.value || Unbroken(data, 0, |data| - 1)
  }

  predicate AllBounded(max: Option<nat>, segs: seq<Segment>) {
    forall i :: 0 <= i < |segs| ==> Bounded(max, segs[i].data)
  }

  /** A prefix of a bounded write leaves every file bounded. */
  lemma BoundedAppend(max: Option<nat>, segs: seq<Segment>, number: nat, bytes: Bytes, n: nat)
    requires n <= |bytes| && AllBounded(max, segs)
    requires AllBounded(max, Appended(segs, number, bytes))
    ensures AllBounded(max, Appended(segs, number, bytes[..n]))
  {
    var full, part := Appended(segs, number, bytes), Appended(segs, number, bytes[..n]);
    forall i | 0 <= i < |part|
      ensures Bounded(max, part[i].data)
    {
      var f, p := full[i].data, part[i].data;
      assert Bounded(max, f);
      assert p <= f;
      assert forall j :: 0 <= j < |p| ==> p[j] == f[j];
    }
  }

  function TrackVisitor(parse: Parser): Visitor<Track> {
    (t: Track, row: RawRow) => (Tracked(t, StepOf(parse, row), row.offset), true)
  }

  lemma {:induction false} TrackFold(parse: Parser, rows: seq<RawRow>, n: nat, t: Track)
    requires n <= |rows| && Describes(parse, rows[..n], t)
    ensures Describes(parse, rows, FoldUntil(TrackVisitor(parse), t, rows[n..]))
    decreases |rows| - n
  {
    hide Describes, Tracked;
    if n < |rows| {
      TrackedDescribes(parse, rows[..n], t, rows[n]);
      assert rows[..n] + [rows[n]] == rows[..n + 1];
      assert rows[n..][1..] == rows[n + 1..] && rows[n..][0] == rows[n];
      TrackFold(parse, rows, n + 1, Tracked(t, StepOf(parse, rows[n]), rows[n].offset));
    } else {
      assert rows[..n] == rows && rows[n..] == [];
    }
  }

  lemma FreshDescribes(parse: Parser, every: nat)
    ensures Describes(parse, [], Fresh(every))
  {
  }

  /** The queue and the rows in flight stay within their limits, and are counted exactly. */
  ghost predicate Fits(parse: Parser, maxRecords: nat, maxBytes: Option<nat>, queue: seq<Queued>, queuedBytes: nat,
                       taken: seq<Queued>, inflight: nat, inflightBytes: nat)
  {
    && maxRecords > 0
    && queuedBytes == Weight(queue)
    && inflight == |taken| && inflightBytes == Weight(taken)
    && |queue| + inflight <= maxRecords
    && (maxBytes.Some? ==> queuedBytes + inflightBytes <= maxBytes.value)
    && AllLoggable(parse, queue) && AllLoggable(parse, taken)
  }

  /** Every offered row is durable, in flight, queued, lost or refused, exactly once; and as
      long as none is lost, the accepted rows are the first three in order. */
  ghost predicate Balanced(offered: seq<Queued>, accepted: seq<Queued>, stored: seq<Queued>, taken: seq<Queued>,
                           queue: seq<Queued>, lost: seq<Queued>, refused: seq<Queued>, dropped: nat, droppedBytes: nat)
  {
    && multiset(offered)
       == multiset(stored) + multiset(taken) + multiset(queue) + multiset(lost) + multiset(refused)
    && dropped == |lost| && droppedBytes == Weight(lost)
    && (dropped == 0 ==> accepted == stored + taken + queue)
  }

  /** The durable rows are those found on opening and then the stored ones, and the account
      and the watermark are about exactly these. */
  ghost predicate Recorded(parse: Parser, rows: seq<RawRow>, track: Track, first: seq<RawRow>, stored: seq<Queued>,
                           flushed: int)
  {
    && Describes(parse, rows, track)
    && |rows| == |first| + |stored|
    && rows[..|first|] == first
    && (forall i :: 0 <= i < |stored| ==> rows[|first| + i].bytes == stored[i].line)
    && flushed == MaxRow(stored, |first| - 1)
  }

  lemma RecordedMore(parse: Parser, rows: seq<RawRow>, track: Track, first: seq<RawRow>, stored: seq<Queued>,
                     flushed: int, taken: seq<Queued>, at: nat, t: Track, top: int)
    requires Recorded(parse, rows, track, first, stored, flushed)
    requires Describes(parse, rows + LineRows(LinesOf(taken), at), t)
    requires top == MaxRow(stored + taken, |first| - 1)
    ensures Recorded(parse, rows + LineRows(LinesOf(taken), at), t, first, stored + taken, top)
  {
    hide Describes, MaxRow;
    var more := LineRows(LinesOf(taken), at);
    LineRowsMean(LinesOf(taken), at);
    forall i | 0 <= i < |stored + taken|
      ensures (rows + more)[|first| + i].bytes == (stored + taken)[i].line
    {
      if i >= |stored| { assert (rows + more)[|first| + i] == more[i - |stored|]; }
    }
  }

  lemma RecordedMeans(parse: Parser, rows: seq<RawRow>, track: Track, first: seq<RawRow>, stored: seq<Queued>,
                      flushed: int)
    requires Recorded(parse, rows, track, first, stored, flushed)
    ensures Describes(parse, rows, track) && flushed == MaxRow(stored, |first| - 1)
  {
    hide Describes, MaxRow;
  }

  lemma MaxRowPush(rows: seq<Queued>, q: Queued, least: int)
    ensures MaxRow(rows + [q], least) == if q.row > MaxRow(rows, least) then q.row else MaxRow(rows, least)
  {
    assert (rows + [q])[..|rows|] == rows;
  }

  lemma FitsMeans(parse: Parser, maxRecords: nat, maxBytes: Option<nat>, queue: seq<Queued>, queuedBytes: nat,
                  taken: seq<Queued>, inflight: nat, inflightBytes: nat)
    requires Fits(parse, maxRecords, maxBytes, queue, queuedBytes, taken, inflight, inflightBytes)
    ensures queuedBytes == Weight(queue) && AllLoggable(parse, taken)
  {
  }

  lemma CommitStart(parse: Parser, before: seq<RawRow>, stored: seq<Queued>, rows: seq<Queued>, at: nat)
    ensures before + LineRows(LinesOf(rows[..0]), at) == before
    ensures Weight(rows[..0]) == 0 && stored + rows[..0] == stored
  {
    assert LinesOf(rows[..0]) == [];
    assert before + [] == before;
  }

  lemma BalanceEnd(offered: seq<Queued>, accepted: seq<Queued>, stored: seq<Queued>, taken: seq<Queued>,
                   queue: seq<Queued>, lost: seq<Queued>, refused: seq<Queued>, q: Queued, dropped: nat, bytes: nat)
    requires Balanced(offered, accepted, stored, taken, queue, lost, refused, dropped, bytes)
    ensures Balanced(offered + [q], accepted, stored, taken, queue, lost, refused + [q], dropped, bytes)
    ensures Balanced(offered + [q], accepted, stored, taken, queue, lost + [q], refused, dropped + 1, bytes + |q.line|)
    ensures Balanced(offered + [q], accepted + [q], stored, taken, queue + [q], lost, refused, dropped, bytes)
  {
    WeightConcat(lost, [q]);
    WeightOne(q);
    assert (stored + taken + queue) + [q] == stored + taken + (queue + [q]);
  }

  lemma BalanceOldest(offered: seq<Queued>, accepted: seq<Queued>, stored: seq<Queued>, taken: seq<Queued>,
                      queue: seq<Queued>, lost: seq<Queued>, refused: seq<Queued>, dropped: nat, bytes: nat)
    requires Balanced(offered, accepted, stored, taken, queue, lost, refused, dropped, bytes) && queue != []
    ensures Balanced(offered, accepted, stored, taken, queue[1..], lost + [queue[0]], refused,
                     dropped + 1, bytes + |queue[0].line|)
  {
    WeightConcat(lost, [queue[0]]);
    WeightOne(queue[0]);
    assert queue == [queue[0]] + queue[1..];
  }

  lemma BalanceTake(offered: seq<Queued>, accepted: seq<Queued>, stored: seq<Queued>, queue: seq<Queued>,
                    lost: seq<Queued>, refused: seq<Queued>, dropped: nat, bytes: nat)
    requires Balanced(offered, accepted, stored, [], queue, lost, refused, dropped, bytes)
    ensures Balanced(offered, accepted, stored, queue, [], lost, refused, dropped, bytes)
  {
    assert stored + [] + queue == stored + queue + [];
  }

  lemma BalanceLand(offered: seq<Queued>, accepted: seq<Queued>, stored: seq<Queued>, taken: seq<Queued>,
                    queue: seq<Queued>, lost: seq<Queued>, refused: seq<Queued>, dropped: nat, bytes: nat)
    requires Balanced(offered, accepted, stored, taken, queue, lost, refused, dropped, bytes)
    ensures Balanced(offered, accepted, stored + taken, [], queue, lost, refused, dropped, bytes)
    ensures Balanced(offered, accepted, stored, [], taken + queue, lost, refused, dropped, bytes)
  {
    assert stored + taken + [] + queue == stored + taken + queue;
    assert stored + [] + (taken + queue) == stored + taken + queue;
  }

  lemma FitsEnd(parse: Parser, maxRecords: nat, maxBytes: Option<nat>, queue: seq<Queued>, queuedBytes: nat,
                taken: seq<Queued>, inflight: nat, inflightBytes: nat, q: Queued)
    requires Fits(parse, maxRecords, maxBytes, queue, queuedBytes, taken, inflight, inflightBytes) && Loggable(parse, q)
    requires |queue| + inflight < maxRecords
    requires maxBytes.Some? ==> queuedBytes + inflightBytes + |q.line| <= maxBytes.value
    ensures Fits(parse, maxRecords, maxBytes, queue + [q], queuedBytes + |q.line|, taken, inflight, inflightBytes)
  {
    hide Loggable;
    WeightConcat(queue, [q]);
    WeightOne(q);
  }

  lemma FitsOldest(parse: Parser, maxRecords: nat, maxBytes: Option<nat>, queue: seq<Queued>, queuedBytes: nat,
                   taken: seq<Queued>, inflight: nat, inflightBytes: nat)
    requires Fits(parse, maxRecords, maxBytes, queue, queuedBytes, taken, inflight, inflightBytes) && queue != []
    ensures queuedBytes >= |queue[0].line|
    ensures Fits(parse, maxRecords, maxBytes, queue[1..], queuedBytes - |queue[0].line|, taken, inflight, inflightBytes)
  {
    hide Loggable;
    assert queue == [queue[0]] + queue[1..];
    WeightConcat([queue[0]], queue[1..]);
    WeightOne(queue[0]);
  }

  lemma FitsLand(parse: Parser, maxRecords: nat, maxBytes: Option<nat>, queue: seq<Queued>, queuedBytes: nat,
                 taken: seq<Queued>, inflight: nat, inflightBytes: nat)
    requires Fits(parse, maxRecords, maxBytes, queue, queuedBytes, taken, inflight, inflightBytes)
    ensures Fits(parse, maxRecords, maxBytes, queue, queuedBytes, [], 0, 0)
    ensures Fits(parse, maxRecords, maxBytes, taken + queue, queuedBytes + inflightBytes, [], 0, 0)
    ensures taken == [] ==> Fits(parse, maxRecords, maxBytes, [], 0, queue, |queue|, queuedBytes)
  {
    hide Loggable;
    WeightConcat(taken, queue);
  }

  /** A row that may not be queued at all. */
  ghost predicate TooLarge(maxRecord: Option<nat>, maxBytes: Option<nat>, q: Queued) {
    (maxRecord.Some? && |q.line| > maxRecord.value) || (maxBytes.Some? && |q.line| > maxBytes.value)
  }

  /** These waiting rows with those in flight are more than the writer may hold. */
  ghost predicate Overfull(maxRecords: nat, maxBytes: Option<nat>, rows: seq<Queued>, inflight: nat, inflightBytes: nat) {
    |rows| + inflight > maxRecords || (maxBytes.Some? && Weight(rows) + inflightBytes > maxBytes.value)
  }

  lemma OverfullMore(maxRecords: nat, maxBytes: Option<nat>, rows: seq<Queued>, q: Queued, inflight: nat, inflightBytes: nat)
    requires Overfull(maxRecords, maxBytes, [q], inflight, inflightBytes)
    ensures Overfull(maxRecords, maxBytes, rows + [q], inflight, inflightBytes)
  {
    WeightConcat(rows, [q]);
  }

  class Writer {
    const parse: Parser
    const maxRecords: nat
    const maxBytes: Option<nat>
    const maxRecord: Option<nat>
    const maxFile: Option<nat>

    // the files, and where the next append goes
    var segments: seq<Segment>
    var active: nat
    var activeSize: nat

    // rows waiting, and rows a flush in progress has taken
    var queue: seq<Queued>
    var queuedBytes: nat
    var taken: seq<Queued>
    var inflight: nat
    var inflightBytes: nat

    // the durable prefix
    var size: nat
    var flushed: int
    var track: Track

    var dropped: nat
    var droppedBytes: nat
    var retry: bool
    var closing: bool
    var closed: bool

    // what became of every row ever offered
    ghost var first: seq<RawRow>
    ghost var stable: seq<Segment>
    ghost var offered: seq<Queued>
    ghost var accepted: seq<Queued>
    ghost var stored: seq<Queued>
    ghost var lost: seq<Queued>
    ghost var refused: seq<Queued>

    /** The rows of the durable prefix. */
    ghost function Durable(): seq<RawRow>
      reads this`stable, this`size
    {
      DiskRows(stable, size)
    }

    ghost predicate QueueOk()
      reads this`queue, this`queuedBytes, this`taken, this`inflight, this`inflightBytes
    {
      Fits(parse, maxRecords, maxBytes, queue, queuedBytes, taken, inflight, inflightBytes)
    }

    ghost predicate Conserved()
      reads this`offered, this`stored, this`taken, this`queue, this`lost, this`refused, this`dropped, this`droppedBytes, this`accepted
    {
      Balanced(offered, accepted, stored, taken, queue, lost, refused, dropped, droppedBytes)
    }

    ghost predicate DurableOk()
      reads this`stable, this`segments, this`size, this`track, this`first, this`stored, this`flushed
    {
      && Grown(stable, segments) && AllClosed(stable) && size == Size(stable)
      && Recorded(parse, Durable(), track, first, stored, flushed)
    }

    /** Between flushes the files are the durable prefix, and the cursor is at their end. */
    ghost predicate Settled()
      reads this`segments, this`stable, this`active, this`activeSize
    {
      segments == stable && AtEnd()
    }

    ghost predicate AtEnd()
      reads this`segments, this`active, this`activeSize
    {
      segments != [] && active == segments[|segments| - 1].number && activeSize == |segments[|segments| - 1].data|
    }

    ghost predicate Valid()
      reads this
    {
      QueueOk() && Conserved() && DurableOk() && (taken == [] ==> Settled())
    }

    /** Opening a log: the torn last line of the active file is cut, the rest is scanned. */
    constructor (parse: Parser, files: seq<Segment>, bufferSize: nat, maxPending: nat, maxBytes: Option<nat>,
                 maxRecord: Option<nat>, maxFile: Option<nat>, indexEvery: nat)
      requires Numbered(files) && AllClosed(files[..|files| - 1])
      ensures Valid() && Settled() && this.parse == parse
      ensures this.maxRecords == AtLeast(AtLeast(maxPending, bufferSize), 1)
      ensures this.maxBytes == maxBytes && this.maxRecord == maxRecord && this.maxFile == maxFile
      ensures var last := files[|files| - 1];
        segments == files[..|files| - 1] + [last.(data := last.data[..LastBreak(last.data, 0, |last.data|)])]
      ensures first == DiskRows(segments, Size(segments)) && stored == [] && queue == [] && offered == []
      ensures flushed == |first| - 1 && dropped == 0 && !closing && !closed && !retry
    {
      hide Describes, DiskRows, Size, LastBreak, MaxRow, Weight, Recorded, Balanced, Grown, AllClosed;
      var n := |files| - 1;
      var last := files[n];
      var cut := LastBreak(last.data, 0, |last.data|);
      var segs := files[..n] + [last.(data := last.data[..cut])];
      LastBreakMeans(last.data, 0, |last.data|);
      CutWell(files, cut);
      var t := ScanLog(parse, segs, indexEvery);
      ghost var rows := DiskRows(segs, Size(segs));
      OpenedWell(parse, rows, t);
      this.parse := parse;
      this.maxRecords := AtLeast(AtLeast(maxPending, bufferSize), 1);
      this.maxBytes, this.maxRecord, this.maxFile := maxBytes, maxRecord, maxFile;
      segments, active, activeSize := segs, last.number, cut;
      queue, queuedBytes, taken, inflight, inflightBytes := [], 0, [], 0, 0;
      size, track := Size(segs), t;
      flushed := t.lines - 1;
      dropped, droppedBytes, retry, closing, closed := 0, 0, false, false, false;
      first, stable := rows, segs;
      offered, accepted, stored, lost, refused := [], [], [], [], [];
    }

    /** `capacity`, for a queue of the given length and weight. */
    predicate Room(waiting: nat, bytes: nat, n: nat)
      reads this`inflight, this`inflightBytes
    {
      && waiting + inflight < maxRecords
      && (maxBytes.Some? ==> bytes + inflightBytes + n <= maxBytes.value)
    }

    predicate Oversized(n: nat) {
      (maxRecord.Some? && n > maxRecord.value) || (maxBytes.Some? && n > maxBytes.value)
    }

    /** One attempt of `enqueue_shared`. A full queue blocks the producer, which tries again
        later, unless a failed flush is waiting to retry: then the oldest rows give way. */
    method Offer(q: Queued) returns (outcome: Outcome, ghost gone: nat)
      requires Valid() && Loggable(parse, q)
      modifies this`queue, this`queuedBytes, this`dropped, this`droppedBytes,
               this`offered, this`accepted, this`lost, this`refused
      ensures Valid()
      ensures gone <= |old(queue)|
      ensures outcome == Refused <==> closing
      ensures outcome == Blocked <==>
        !closing && !TooLarge(maxRecord, maxBytes, q) && !retry
        && Overfull(maxRecords, maxBytes, old(queue) + [q], inflight, inflightBytes)
      ensures outcome == Dropped <==>
        !closing && (TooLarge(maxRecord, maxBytes, q) || (retry && Overfull(maxRecords, maxBytes, [q], inflight, inflightBytes)))
      ensures outcome == Dropped && !TooLarge(maxRecord, maxBytes, q) ==> gone == |old(queue)|
      ensures outcome == Accepted ==> queue == old(queue)[gone..] + [q] && accepted == old(accepted) + [q]
      ensures outcome == Accepted ==> !Overfull(maxRecords, maxBytes, queue, inflight, inflightBytes)
      ensures outcome != Accepted ==> queue == old(queue)[gone..] && accepted == old(accepted)
      ensures gone > 0 ==> retry && !TooLarge(maxRecord, maxBytes, q) && outcome in {Accepted, Dropped}
      ensures forall k :: 0 <= k < gone ==> Overfull(maxRecords, maxBytes, old(queue)[k..] + [q], inflight, inflightBytes)
      ensures offered == old(offered) + (if outcome == Blocked then [] else [q])
      ensures lost == old(lost) + old(queue)[..gone] + (if outcome == Dropped then [q] else [])
      ensures refused == old(refused) + (if outcome == Refused then [q] else [])
      ensures dropped == old(dropped) + gone + (if outcome == Dropped then 1 else 0)
    {
      hide DurableOk, Settled, Weight, Loggable, Balanced, Fits, Overfull, Room;
      gone := 0;
      var n := |q.line|;
      assert queue[0..] == queue && queue[..0] == [] && [] + [q] == [q];
      if closing {
        BalanceEnd(offered, accepted, stored, taken, queue, lost, refused, q, dropped, droppedBytes);
        offered, refused := offered + [q], refused + [q];
        return Refused, 0;
      }
      if Oversized(n) {
        LoseOne(q);
        return Dropped, 0;
      }
      FitsMeans(parse, maxRecords, maxBytes, queue, queuedBytes, taken, inflight, inflightBytes);
      RoomExactly(queue, q);
      if Overfull(maxRecords, maxBytes, [q], inflight, inflightBytes) { OverfullMore(maxRecords, maxBytes, queue, q, inflight, inflightBytes); }
      if !retry && !Room(|queue|, queuedBytes, n) { return Blocked, 0; }
      outcome, gone := Displace(q);
    }

    /** The rest of an enqueue: old rows make way for the row, which is lost if that does not help. */
    method Displace(q: Queued) returns (outcome: Outcome, ghost gone: nat)
      requires Valid() && Loggable(parse, q) && (retry || !Overfull(maxRecords, maxBytes, queue + [q], inflight, inflightBytes))
      modifies this`queue, this`queuedBytes, this`dropped, this`droppedBytes, this`offered, this`accepted, this`lost
      ensures Valid() && gone <= |old(queue)|
      ensures outcome == if Overfull(maxRecords, maxBytes, [q], inflight, inflightBytes) then Dropped else Accepted
      ensures outcome == Dropped ==> gone == |old(queue)| && queue == old(queue)[gone..] && accepted == old(accepted)
      ensures outcome == Accepted ==> queue == old(queue)[gone..] + [q] && accepted == old(accepted) + [q]
      ensures outcome == Accepted ==> !Overfull(maxRecords, maxBytes, queue, inflight, inflightBytes)
      ensures gone > 0 ==> retry
      ensures forall k :: 0 <= k < gone ==> Overfull(maxRecords, maxBytes, old(queue)[k..] + [q], inflight, inflightBytes)
      ensures offered == old(offered) + [q]
      ensures lost == old(lost) + old(queue)[..gone] + (if outcome == Dropped then [q] else [])
      ensures dropped == old(dropped) + gone + (if outcome == Dropped then 1 else 0)
    {
      hide DurableOk, Settled, Weight, Loggable, Balanced, Fits, Overfull, Room;
      ghost var before := queue;
      assert before[0..] == before && [] + [q] == [q];
      FitsMeans(parse, maxRecords, maxBytes, queue, queuedBytes, taken, inflight, inflightBytes);
      RoomExactly(queue, q);
      RoomExactly([], q);
      gone := MakeRoom(|q.line|);
      forall k | 0 <= k < gone
        ensures Overfull(maxRecords, maxBytes, before[k..] + [q], inflight, inflightBytes)
      {
        RoomExactly(before[k..], q);
      }
      FitsMeans(parse, maxRecords, maxBytes, queue, queuedBytes, taken, inflight, inflightBytes);
      RoomExactly(queue, q);
      if Overfull(maxRecords, maxBytes, [q], inflight, inflightBytes) { OverfullMore(maxRecords, maxBytes, queue, q, inflight, inflightBytes); }
      outcome := Admit(q);
    }

    /** There is room for a row exactly if the queue with it is not too full. */
    lemma RoomExactly(rows: seq<Queued>, q: Queued)
      ensures Room(|rows|, Weight(rows), |q.line|) <==> !Overfull(maxRecords, maxBytes, rows + [q], inflight, inflightBytes)
    {
      assert (rows + [q])[..|rows|] == rows;
    }

    /** The last step of an enqueue: the row is queued if it fits now, else lost. */
    method Admit(q: Queued) returns (outcome: Outcome)
      requires Valid() && Loggable(parse, q)
      modifies this`queue, this`queuedBytes, this`dropped, this`droppedBytes, this`offered, this`accepted, this`lost
      ensures Valid() && offered == old(offered) + [q]
      ensures outcome == if old(Room(|queue|, queuedBytes, |q.line|)) then Accepted else Dropped
      ensures outcome == Accepted ==> queue == old(queue) + [q] && accepted == old(accepted) + [q] && lost == old(lost)
      ensures outcome == Dropped ==> queue == old(queue) && accepted == old(accepted) && lost == old(lost) + [q]
      ensures dropped == old(dropped) + (if outcome == Dropped then 1 else 0)
    {
      hide DurableOk, Settled, Weight, Loggable, Balanced, Fits;
      if !Room(|queue|, queuedBytes, |q.line|) {
        LoseOne(q);
        return Dropped;
      }
      BalanceEnd(offered, accepted, stored, taken, queue, lost, refused, q, dropped, droppedBytes);
      FitsEnd(parse, maxRecords, maxBytes, queue, queuedBytes, taken, inflight, inflightBytes, q);
      queue, queuedBytes := queue + [q], queuedBytes + |q.line|;
      offered, accepted := offered + [q], accepted + [q];
      outcome := Accepted;
    }

    /** Drop the oldest waiting rows until one of `n` bytes fits, or none is left. */
    method MakeRoom(n: nat) returns (ghost gone: nat)
      requires Valid()
      modifies this`queue, this`queuedBytes, this`dropped, this`droppedBytes, this`lost
      ensures Valid() && gone <= |old(queue)| && queue == old(queue)[gone..]
      ensures lost == old(lost) + old(queue)[..gone] && dropped == old(dropped) + gone
      ensures queue == [] || Room(|queue|, queuedBytes, n)
      ensures forall k :: 0 <= k < gone ==> !Room(|old(queue)| - k, Weight(old(queue)[k..]), n)
    {
      hide DurableOk, Settled, Weight, Balanced, Fits;
      gone := 0;
      ghost var before := queue;
      while queue != [] && !Room(|queue|, queuedBytes, n)
        invariant Valid() && gone <= |before| && queue == before[gone..]
        invariant forall k :: 0 <= k < gone ==> !Room(|before| - k, Weight(before[k..]), n)
        invariant lost == old(lost) + before[..gone] && dropped == old(dropped) + gone
        decreases |queue|
      {
        FitsMeans(parse, maxRecords, maxBytes, queue, queuedBytes, taken, inflight, inflightBytes);
        DropOldest();
        assert before[gone..][1..] == before[gone + 1..];
        assert before[..gone + 1] == before[..gone] + [before[gone]];
        gone := gone + 1;
      }
    }

    method DropOldest()
      requires Valid() && queue != []
      modifies this`queue, this`queuedBytes, this`dropped, this`droppedBytes, this`lost
      ensures Valid() && queue == old(queue)[1..] && lost == old(lost) + [old(queue)[0]]
      ensures dropped == old(dropped) + 1
    {
      hide DurableOk, Settled, Balanced, Fits;
      var n := |queue[0].line|;
      BalanceOldest(offered, accepted, stored, taken, queue, lost, refused, dropped, droppedBytes);
      FitsOldest(parse, maxRecords, maxBytes, queue, queuedBytes, taken, inflight, inflightBytes);
      lost := lost + [queue[0]];
      queue, queuedBytes := queue[1..], queuedBytes - n;
      dropped, droppedBytes := dropped + 1, droppedBytes + n;
    }

    method LoseOne(q: Queued)
      requires Valid()
      modifies this`dropped, this`droppedBytes, this`lost, this`offered
      ensures Valid() && lost == old(lost) + [q] && offered == old(offered) + [q] && dropped == old(dropped) + 1
    {
      hide DurableOk, Settled, QueueOk, Balanced;
      BalanceEnd(offered, accepted, stored, taken, queue, lost, refused, q, dropped, droppedBytes);
      dropped, droppedBytes := dropped + 1, droppedBytes + |q.line|;
      lost, offered := lost + [q], offered + [q];
    }

    /** The start of `flush`: the whole queue goes in flight. */
    method BeginFlush() returns (go: bool)
      requires Valid() && taken == []
      modifies this`queue, this`queuedBytes, this`taken, this`inflight, this`inflightBytes
      ensures Valid() && Settled()
      ensures go <==> !closed && old(queue) != []
      ensures if go then queue == [] && taken == old(queue) else queue == old(queue) && taken == []
    {
      hide DurableOk, Settled, Balanced, Fits;
      if closed || queue == [] { return false; }
      BalanceTake(offered, accepted, stored, queue, lost, refused, dropped, droppedBytes);
      FitsLand(parse, maxRecords, maxBytes, queue, queuedBytes, taken, inflight, inflightBytes);
      taken, inflight, inflightBytes := queue, |queue|, queuedBytes;
      queue, queuedBytes := [], 0;
      go := true;
    }

    /** The end of a flush whose write succeeded: the rows in flight become durable. */
    method Commit()
      requires Valid() && taken != []
      requires Written(taken)
      modifies this`taken, this`inflight, this`inflightBytes, this`retry, this`size, this`flushed, this`track,
               this`stable, this`stored
      ensures Valid() && Settled() && taken == [] && !retry
      ensures stored == old(stored) + old(taken)
      ensures Durable() == old(Durable()) + LineRows(LinesOf(old(taken)), old(size))
      ensures Extends(old(stable), old(size), stable, size)
    {
      hide DiskRows, Loggable, AllLoggable, Weight, MaxRow, LineRows, Size, Fits, Balanced, Grown, AllClosed, Recorded,
           Numbered, Describes, LinesOf, Valid, Settled, AtEnd;
      Parts();
      FitsMeans(parse, maxRecords, maxBytes, queue, queuedBytes, taken, inflight, inflightBytes);
      ghost var rows := Durable() + LineRows(LinesOf(taken), size);
      var t, at, top := TrackRows(parse, Durable(), track, first, stored, flushed, taken, size);
      BalanceLand(offered, accepted, stored, taken, queue, lost, refused, dropped, droppedBytes);
      FitsLand(parse, maxRecords, maxBytes, queue, queuedBytes, taken, inflight, inflightBytes);
      GrownNothing(segments);
      ExtendsGrown(Size(segments));
      Land(t, at, top);
      Whole();
    }

    /** The rows in flight, tracked, belong to the durable prefix. */
    method Land(t: Track, at: nat, top: int)
      modifies this`taken, this`inflight, this`inflightBytes, this`retry, this`size, this`flushed, this`track,
               this`stable, this`stored
      ensures track == t && size == at && flushed == top
      ensures stable == segments && stored == old(stored) + old(taken)
      ensures taken == [] && inflight == 0 && inflightBytes == 0 && !retry
    {
      track, size, flushed := t, at, top;
      stable, stored := segments, stored + taken;
      taken, inflight, inflightBytes, retry := [], 0, 0, false;
    }

    /** Where the files have grown by whole rows they extend the durable prefix. */
    lemma ExtendsGrown(m: nat)
      requires Grown(stable, segments) && AllClosed(stable) && size == Size(stable) && size <= m
      ensures Extends(stable, size, segments, m)
    {
      hide Grown, AllClosed, Size, DiskRows;
      NumberedOf(stable, segments);
      forall n: nat | n <= size
        ensures DiskRows(segments, n) == DiskRows(stable, n)
      {
        StableRows(stable, segments, n);
      }
    }

    /** What validity consists of. */
    lemma Parts()
      requires Valid()
      ensures Fits(parse, maxRecords, maxBytes, queue, queuedBytes, taken, inflight, inflightBytes)
      ensures Balanced(offered, accepted, stored, taken, queue, lost, refused, dropped, droppedBytes)
      ensures Grown(stable, segments) && AllClosed(stable) && size == Size(stable)
      ensures Recorded(parse, Durable(), track, first, stored, flushed)
      ensures taken == [] ==> Settled()
    {
      hide Fits, Balanced, Grown, AllClosed, Recorded, Settled, DiskRows, Size;
    }

    lemma Whole()
      requires Fits(parse, maxRecords, maxBytes, queue, queuedBytes, taken, inflight, inflightBytes)
      requires Balanced(offered, accepted, stored, taken, queue, lost, refused, dropped, droppedBytes)
      requires Grown(stable, segments) && AllClosed(stable) && size == Size(stable)
      requires Recorded(parse, DiskRows(stable, size), track, first, stored, flushed)
      requires segments == stable && AtEnd()
      ensures Valid() && Settled()
    {
      hide Fits, Balanced, Grown, AllClosed, Recorded, DiskRows, Size;
    }

    /** One append to the active file. It may fail before the file is opened, or after any
        number of bytes. */
    method Append(bytes: Bytes) returns (ok: bool, ghost n: int)
      modifies this`segments
      ensures -1 <= n <= |bytes| && (ok ==> n == |bytes|)
      ensures segments == if n < 0 then old(segments) else Appended(old(segments), active, bytes[..n])
    {
      if * { return false, -1; }
      var k: nat :| k <= |bytes|;
      segments := Appended(segments, active, bytes[..k]);
      return k == |bytes|, k;
    }

    /** The rows of one run, handed to the file in batches. */
    method WriteRun(records: seq<Queued>, start: nat, end: nat) returns (ok: bool, ghost n: int)
      requires start < end <= |records|
      modifies this`segments
      ensures var bytes := Payload(LinesOf(records[start..end]));
        && -1 <= n <= |bytes| && (ok ==> n == |bytes|)
        && segments == if n < 0 then old(segments) else Appended(old(segments), active, bytes[..n])
    {
      hide LinesOf, Payload, Appended;
      ghost var bytes := Payload(LinesOf(records[start..end]));
      var offset := start;
      n := -1;
      while offset < end
        invariant start <= offset <= end
        invariant n == if offset == start then -1 else |Payload(LinesOf(records[start..offset]))|
        invariant n <= |bytes|
        invariant segments == if n < 0 then old(segments) else Appended(old(segments), active, bytes[..n])
      {
        var next := if offset + BATCH < end then offset + BATCH else end;
        RunBatch(records, start, offset, next, end);
        ghost var m := |Payload(LinesOf(records[start..offset]))|;
        ghost var k: int;
        ghost var before := segments;
        var batch := Payload(LinesOf(records[offset..next]));
        ok, k := Append(batch);
        if k >= 0 {
          assert bytes[..m] + batch[..k] == bytes[..m + k];
          if n < 0 {
            assert bytes[..0] + batch[..k] == batch[..k];
          } else {
            AppendedTwice(old(segments), active, bytes[..m], batch[..k]);
          }
          n := m + k;
        }
        if !ok { return; }
        offset := next;
      }
      ok := true;
    }

    /** How many rows from `start` still fit the active file; always at least one when it is
        empty. */
    method Fill(records: seq<Queued>, start: nat) returns (end: nat)
      requires start < |records| && AllLoggable(parse, records)
      ensures start <= end <= |records|
      ensures end == start ==> activeSize > 0
      ensures end < |records| ==> maxFile.Some? && activeSize + Weight(records[start..end + 1]) > maxFile.value
      ensures end > start ==>
        maxFile.None? || activeSize + Weight(records[start..end]) <= maxFile.value || (activeSize == 0 && end == start + 1)
    {
      var total := 0;
      end := start;
      assert records[start..start] == [];
      while end < |records|
        invariant start <= end <= |records| && total == Weight(records[start..end])
        invariant end > start ==>
          maxFile.None? || activeSize + total <= maxFile.value || (activeSize == 0 && end == start + 1)
        invariant end > start ==> total > 0
      {
        assert Loggable(parse, records[end]);
        var next := |records[end].line|;
        assert records[start..end + 1][..end - start] == records[start..end];
        if maxFile.Some? && activeSize + total + next > maxFile.value && (activeSize > 0 || total > 0) { break; }
        total, end := total + next, end + 1;
      }
    }

    /** While rows are being written: the durable files grown by exactly the rows so far. */
    ghost predicate Writing(rows: seq<Queued>, done: nat)
      requires done <= |rows|
      reads this`segments, this`stable, this`size
    {
      && AllClosed(segments)
      && Size(segments) == size + Weight(rows[..done])
      && DiskRows(segments, Size(segments)) == Durable() + LineRows(LinesOf(rows[..done]), size)
    }

    /** The append cursor: at the end of the last file, or on a file not yet created. */
    ghost predicate Positioned()
      reads this`segments, this`active, this`activeSize
    {
      Cursor(segments, active, activeSize)
    }

    /** `write_records`: whole rows to the active file, rotating when it is full. */
    method WriteRecords(records: seq<Queued>) returns (ok: bool)
      requires Grown(stable, segments) && segments == stable && AllClosed(stable) && size == Size(stable)
      requires AtEnd() && AllLoggable(parse, records)
      modifies this`segments, this`active, this`activeSize
      ensures Grown(stable, segments)
      ensures ok ==> AtEnd() && Writing(records, |records|) && OnlyWhenFull(maxFile, old(segments), segments)
      ensures old(AllBounded(maxFile, segments)) ==> AllBounded(maxFile, segments)
    {
      hide Grown, DiskRows, LineRows, LinesOf, Weight, Size, AllLoggable, AllBounded, AllClosed, Appended, Payload,
           OnlyWhenFull, Turning;
      var start := 0;
      NoneNew(maxFile, segments, active, records);
      assert Writing(records, 0) by { WritingNothing(records); }
      while start < |records|
        invariant 0 <= start <= |records|
        invariant Grown(stable, segments) && Writing(records, start) && Positioned()
        invariant start == |records| ==> AtEnd()
        invariant OnlyWhenFull(maxFile, old(segments), segments) && Turning(maxFile, segments, active, records, start)
        invariant old(AllBounded(maxFile, segments)) ==> AllBounded(maxFile, segments)
        decreases |records| - start, activeSize
      {
        var end := Fill(records, start);
        if end == start {
          TurnsWhenFull(maxFile, segments, active, activeSize, records, start);
          active, activeSize := active + 1, 0;
          continue;
        }
        ghost var before, n := segments, 0;
        ok, n := WriteRun(records, start, end);
        RunGrown(stable, before, active, activeSize, LinesOf(records[start..end]), n);
        RunBounded(maxFile, before, active, activeSize, parse, records, start, end, n);
        if !ok { return; }
        RunWritten(parse, before, active, activeSize, Durable(), size, records, start, end);
        RunWhenFull(parse, maxFile, old(segments), before, active, activeSize, records, start, end);
        activeSize := activeSize + Weight(records[start..end]);
        start := end;
        assert Writing(records, start);
      }
      ok := true;
    }

    lemma WritingNothing(records: seq<Queued>)
      requires segments == stable && AllClosed(stable) && size == Size(stable)
      ensures Writing(records, 0)
    {
      assert records[..0] == [] && LinesOf([]) == [];
      assert Durable() + [] == Durable();
    }

    /** The files hold the durable prefix and then exactly these rows. */
    ghost predicate Written(rows: seq<Queued>)
      reads this`segments, this`active, this`activeSize, this`size, this`stable
    {
      && AtEnd() && Numbered(segments) && AllClosed(segments)
      && Size(segments) == size + Weight(rows)
      && DiskRows(segments, Size(segments)) == Durable() + LineRows(LinesOf(rows), size)
    }

    /** The end of a flush whose write failed and was rolled back: its rows wait again,
        ahead of those that arrived meanwhile. */
    method Requeue()
      requires Valid() && taken != []
      requires RolledBack()
      modifies this`queue, this`queuedBytes, this`taken, this`inflight, this`inflightBytes, this`retry, this`stable
      ensures Valid() && Settled() && taken == [] && retry
      ensures queue == old(taken) + old(queue)
      ensures Durable() == old(Durable()) && stable == segments
    {
      hide Recorded, DiskRows, Balanced, Fits, Grown, AllClosed, Size, Numbered, Valid, Settled, AtEnd;
      Parts();
      GrownNothing(segments);
      BalanceLand(offered, accepted, stored, taken, queue, lost, refused, dropped, droppedBytes);
      FitsLand(parse, maxRecords, maxBytes, queue, queuedBytes, taken, inflight, inflightBytes);
      queue, queuedBytes := taken + queue, queuedBytes + inflightBytes;
      taken, inflight, inflightBytes, retry := [], 0, 0, true;
      stable := segments;
      Whole();
    }

    /** The files hold the durable rows and nothing else. */
    ghost predicate RolledBack()
      reads this`segments, this`active, this`activeSize, this`size, this`stable
    {
      && AtEnd() && Numbered(segments) && AllClosed(segments)
      && Size(segments) == size && DiskRows(segments, size) == Durable()
    }

    /** `rollback_data`: cut the files back to `bytes`, part by part, and reposition. */
    method Rollback(bytes: nat)
      requires Numbered(segments)
      modifies this`segments, this`active, this`activeSize
      ensures segments == Truncated(old(segments), bytes) && AtEnd()
    {
      hide Numbered, Truncated;
      var parts, kept, i := segments, [], 0;
      var remaining: nat := bytes;
      assert parts[0..] == parts;
      while i < |parts|
        invariant 0 <= i <= |parts|
        invariant Truncated(parts, bytes) == kept + Truncated(parts[i..], remaining)
      {
        var part := parts[i];
        TruncateStep(parts[i..], remaining);
        assert parts[i..][0] == part && parts[i..][1..] == parts[i + 1..];
        if remaining >= |part.data| {
          kept, remaining := kept + [part], remaining - |part.data|;
        } else if remaining > 0 || part.number == 0 {
          kept, remaining := kept + [part.(data := part.data[..remaining])], 0;
        }
        i := i + 1;
      }
      TruncateStep(parts[i..], remaining);
      assert kept + [] == kept;
      assert Numbered(kept) by { TruncatedNumbers(parts, bytes); }
      NumberedSome(kept);
      segments := kept;
      active, activeSize := kept[|kept| - 1].number, |kept[|kept| - 1].data|;
    }

    /** `flush`, with producers offering rows while it writes. Either every taken row becomes
        durable, in order; or no trace of them is left on disk and they wait again, ahead of
        the rows that arrived meanwhile. */
    method Flush(arrivals: seq<Queued>) returns (result: FlushResult, ghost newer: seq<Queued>)
      requires Valid() && taken == [] && AllLoggable(parse, arrivals)
      modifies this
      ensures Valid() && Settled() && taken == [] && first == old(first)
      ensures result == Idle ==> old(closed || queue == []) && stored == old(stored) && segments == old(segments)
      ensures result == Persisted ==>
        && stored == old(stored) + old(queue)
        && Durable() == old(Durable()) + LineRows(LinesOf(old(queue)), old(size))
        && queue == newer
        && OnlyWhenFull(maxFile, old(segments), segments)
        && (maxFile.None? ==> |segments| == |old(segments)| && active == segments[|old(segments)| - 1].number)
      ensures result == Undone ==>
        && stored == old(stored) && Durable() == old(Durable()) && size == old(size)
        && Solid(segments) == old(Solid(segments))
        && queue == old(queue) + newer
      ensures result != Idle && dropped == old(dropped) ==> accepted == old(accepted) + newer
      ensures old(AllBounded(maxFile, segments)) ==> AllBounded(maxFile, segments)
    {
      hide Valid, AllBounded, LineRows, LinesOf, Durable, Solid, Written, RolledBack, AllLoggable, Settled, Extends, DiskRows,
           Fits, Balanced, Grown, Loggable, Weight, OnlyWhenFull, AtEnd;
      newer := [];
      var go := BeginFlush();
      if !go { return Idle, []; }
      SettledMeans();
      var ok := WriteTaken();
      Arrive(arrivals);
      newer := queue;
      Conclude(ok, old(segments));
      result := if ok then Persisted else Undone;
    }

    /** The end of a flush, with the lock held again. */
    method Conclude(ok: bool, ghost past: seq<Segment>)
      requires Valid() && taken != [] && past != []
      requires ok ==> Written(taken) && OnlyWhenFull(maxFile, past, segments)
      modifies this`segments, this`active, this`activeSize, this`queue, this`queuedBytes, this`taken, this`inflight,
               this`inflightBytes, this`retry, this`size, this`flushed, this`track, this`stable, this`stored
      ensures Valid() && Settled() && taken == []
      ensures ok ==>
        && stored == old(stored) + old(taken)
        && Durable() == old(Durable()) + LineRows(LinesOf(old(taken)), old(size))
        && queue == old(queue)
        && OnlyWhenFull(maxFile, past, segments)
        && (maxFile.None? ==> |segments| == |past| && active == segments[|past| - 1].number)
      ensures !ok ==>
        && stored == old(stored) && Durable() == old(Durable()) && size == old(size)
        && Solid(segments) == old(Solid(stable))
        && queue == old(taken) + old(queue)
      ensures old(AllBounded(maxFile, segments)) ==> AllBounded(maxFile, segments)
    {
      hide Valid, AllBounded, LineRows, LinesOf, Durable, Solid, Written, RolledBack, Settled, Extends, OnlyWhenFull, AtEnd;
      if ok {
        Commit();
        SameFile(past);
      } else {
        Undo();
      }
    }

    /** A flush that failed: the files as they were, the rows waiting again. */
    method Undo()
      requires Valid() && taken != []
      modifies this`segments, this`active, this`activeSize, this`stable, this`queue, this`queuedBytes, this`taken,
               this`inflight, this`inflightBytes, this`retry
      ensures Valid() && Settled() && taken == []
      ensures queue == old(taken) + old(queue)
      ensures Durable() == old(Durable()) && Solid(segments) == old(Solid(stable))
      ensures old(AllBounded(maxFile, segments)) ==> AllBounded(maxFile, segments)
    {
      hide Valid, AllBounded, Durable, Solid, RolledBack, Settled, Extends;
      Recover();
      Requeue();
    }

    lemma SettledMeans()
      requires Settled()
      ensures segments == stable && segments != []
    {
    }

    lemma SameFile(past: seq<Segment>)
      requires Settled() && past != [] && OnlyWhenFull(maxFile, past, segments)
      ensures maxFile.None? ==> |segments| == |past| && active == segments[|past| - 1].number
    {
      hide OnlyWhenFull;
      Unlimited(maxFile, past, segments);
    }

    method WriteTaken() returns (ok: bool)
      requires Valid() && taken != [] && Settled()
      modifies this`segments, this`active, this`activeSize
      ensures Valid() && (ok ==> Written(taken) && OnlyWhenFull(maxFile, old(segments), segments))
      ensures old(AllBounded(maxFile, segments)) ==> AllBounded(maxFile, segments)
    {
      hide Balanced, Fits, AllBounded, OnlyWhenFull, Recorded, AllClosed, DiskRows, LineRows, LinesOf, Weight, Size;
      FitsMeans(parse, maxRecords, maxBytes, queue, queuedBytes, taken, inflight, inflightBytes);
      ok := WriteRecords(taken);
      assert taken[..|taken|] == taken;
    }

    /** Rows offered while a flush is writing. */
    method Arrive(arrivals: seq<Queued>)
      requires Valid() && taken != [] && queue == [] && AllLoggable(parse, arrivals)
      modifies this`queue, this`queuedBytes, this`dropped, this`droppedBytes,
               this`offered, this`accepted, this`lost, this`refused
      ensures Valid() && dropped >= old(dropped)
      ensures dropped == old(dropped) ==> accepted == old(accepted) + queue
    {
      hide DurableOk, Settled, QueueOk, Conserved, Loggable, Room;
      var i := 0;
      assert accepted + queue == accepted;
      while i < |arrivals|
        invariant 0 <= i <= |arrivals| && Valid() && dropped >= old(dropped)
        invariant dropped == old(dropped) ==> accepted == old(accepted) + queue
      {
        var outcome, gone := Offer(arrivals[i]);
        assert gone == 0 ==> forall s: seq<Queued> :: s[0..] == s;
        i := i + 1;
      }
    }

    /** After a failed write: the rollback, which leaves only the durable rows. */
    method Recover()
      requires Valid() && taken != []
      modifies this`segments, this`active, this`activeSize, this`stable
      ensures Valid() && RolledBack() && Durable() == old(Durable())
      ensures Extends(old(stable), old(size), stable, size) && stable == segments
      ensures Solid(segments) == old(Solid(stable))
      ensures old(AllBounded(maxFile, segments)) ==> AllBounded(maxFile, segments)
    {
      hide Balanced, Fits, AllBounded, Recorded, AllClosed, DiskRows, Size, Solid, Numbered, Truncated;
      RolledBackRows(stable, segments);
      TruncatedBounded(maxFile, segments, size);
      Rollback(size);
      stable := segments;
      GrownNothing(segments);
    }

    method BeginClose() returns (mine: bool)
      requires Valid()
      modifies this`closing
      ensures Valid() && closing && (mine <==> !old(closing))
    {
      hide QueueOk, Conserved, DurableOk, Settled;
      mine := !closing;
      closing := true;
    }

    method EndClose()
      requires Valid() && taken == []
      modifies this`closed
      ensures Valid() && closed
    {
      hide QueueOk, Conserved, DurableOk, Settled;
      closed := true;
    }
  }

  // ---------------------------------------------------------------- when a new file is begun

  /** Not even the first row of this file would have fitted the one before it. */
  ghost predicate Overflows(max: Option<nat>, before: Bytes, data: Bytes) {
    data != [] && max.Some? && forall n: nat :: n < |data| && data[n] == LF ==> |before| + n + 1 > max.value
  }

  /** Every file begun since then was needed, and is numbered next. */
  ghost predicate OnlyWhenFull(max: Option<nat>, past: seq<Segment>, now: seq<Segment>) {
    && |past| <= |now|
    && forall i :: |past| <= i < |now| && i > 0 ==>
         Overflows(max, now[i - 1].data, now[i].data) && now[i].number == now[i - 1].number + 1
  }

  /** The next row goes to the last file, or to a new one because it does not fit. */
  ghost predicate Turning(max: Option<nat>, now: seq<Segment>, active: nat, records: seq<Queued>, start: nat) {
    now != [] && (now[|now| - 1].number == active ||
      (active == now[|now| - 1].number + 1 && start < |records| && max.Some?
       && |now[|now| - 1].data| + |records[start].line| > max.value))
  }

  lemma Unlimited(max: Option<nat>, past: seq<Segment>, now: seq<Segment>)
    requires OnlyWhenFull(max, past, now) && past != []
    ensures max.None? ==> |now| == |past|
  {
    if |now| > |past| { assert Overflows(max, now[|past| - 1].data, now[|past|].data); }
  }

  lemma NoneNew(max: Option<nat>, segs: seq<Segment>, active: nat, records: seq<Queued>)
    requires segs != [] && active == segs[|segs| - 1].number
    ensures OnlyWhenFull(max, segs, segs) && Turning(max, segs, active, records, 0)
  {
  }

  lemma TurnsWhenFull(max: Option<nat>, now: seq<Segment>, active: nat, activeSize: nat, records: seq<Queued>, start: nat)
    requires Cursor(now, active, activeSize) && activeSize > 0 && start < |records|
    requires max.Some? && activeSize + Weight(records[start..start + 1]) > max.value
    ensures Turning(max, now, active + 1, records, start)
  {
    assert records[start..start + 1][..0] == [];
  }

  lemma RunWhenFull(parse: Parser, max: Option<nat>, past: seq<Segment>, now: seq<Segment>, active: nat, activeSize: nat,
                    records: seq<Queued>, start: nat, end: nat)
    requires past != [] && start < end <= |records| && AllLoggable(parse, records) && Cursor(now, active, activeSize)
    requires OnlyWhenFull(max, past, now) && Turning(max, now, active, records, start) && AllClosed(now)
    ensures var bytes := Payload(LinesOf(records[start..end])); var r := Appended(now, active, bytes[..|bytes|]);
      OnlyWhenFull(max, past, r) && Turning(max, r, active, records, end)
  {
    hide Payload, LinesOf;
    var bytes := Payload(LinesOf(records[start..end]));
    assert bytes[..|bytes|] == bytes;
    FirstRowFirst(parse, records, start, end);
    var line, r := records[start].line, Appended(now, active, bytes);
    forall i | |past| <= i < |r|
      ensures Overflows(max, r[i - 1].data, r[i].data) && r[i].number == r[i - 1].number + 1
    {
      if i < |now| - 1 || (i == |now| - 1 && |r| > |now|) {
        assert r[i] == now[i] && r[i - 1] == now[i - 1];
      } else if i == |now| - 1 {
        GrownOverflows(max, now[i - 1].data, now[i].data, bytes);
      } else {
        assert r[i - 1] == now[i - 1] && r[i].data == bytes;
      }
    }
  }

  lemma FirstRowFirst(parse: Parser, records: seq<Queued>, start: nat, end: nat)
    requires start < end <= |records| && AllLoggable(parse, records)
    ensures var bytes := Payload(LinesOf(records[start..end]));
      bytes != [] && forall n: nat :: n < |bytes| && bytes[n] == LF ==> n + 1 >= |records[start].line|
    decreases end
  {
    hide Loggable;
    var run := records[start..end];
    var bytes, line := Payload(LinesOf(run)), records[start].line;
    assert WholeLine(line) by { LoggableLine(parse, records, start); }
    RunStarts(run);
    assert line <= bytes;
    assert forall n: nat :: n < |line| ==> bytes[n] == line[n];
  }

  lemma LoggableLine(parse: Parser, records: seq<Queued>, i: nat)
    requires i < |records| && AllLoggable(parse, records)
    ensures WholeLine(records[i].line)
  {
    assert Loggable(parse, records[i]);
  }

  lemma {:induction false} RunStarts(run: seq<Queued>)
    requires run != []
    ensures run[0].line <= Payload(LinesOf(run))
  {
    var n := |run| - 1;
    assert LinesOf(run)[..n] == LinesOf(run[..n]);
    if n == 0 {
      assert LinesOf(run)[..0] == [] && [] + run[0].line == run[0].line;
    } else {
      RunStarts(run[..n]);
    }
  }

  lemma GrownOverflows(max: Option<nat>, before: Bytes, data: Bytes, bytes: Bytes)
    requires Overflows(max, before, data) && Closed(data)
    ensures Overflows(max, before, data + bytes)
  {
    assert |before| + (|data| - 1) + 1 > max.value;
    assert forall n: nat :: n < |data| ==> (data + bytes)[n] == data[n];
  }

  ghost predicate Cursor(segs: seq<Segment>, active: nat, activeSize: nat) {
    && segs != [] && segs[|segs| - 1].number <= active
    && activeSize == (if segs[|segs| - 1].number == active then |segs[|segs| - 1].data| else 0)
  }

  lemma AppendedTwice(segs: seq<Segment>, number: nat, x: Bytes, y: Bytes)
    ensures Appended(Appended(segs, number, x), number, y) == Appended(segs, number, x + y)
  {
    var once := Appended(segs, number, x);
    if segs != [] && segs[|segs| - 1].number == number {
      var data := segs[|segs| - 1].data;
      assert once[..|once| - 1] == segs[..|segs| - 1];
      assert (data + x) + y == data + (x + y);
    } else {
      assert once[..|once| - 1] == segs;
    }
  }

  lemma TruncateStep(segs: seq<Segment>, n: nat)
    ensures segs == [] ==> Truncated(segs, n) == []
    ensures segs != [] ==>
      Truncated(segs, n)
      == if n >= |segs[0].data| then [segs[0]] + Truncated(segs[1..], n - |segs[0].data|)
         else if n > 0 || segs[0].number == 0 then
           [Segment(segs[0].number, segs[0].data[..n])] + Truncated(segs[1..], 0)
         else Truncated(segs[1..], 0)
  {
  }

  lemma NumberedSome(segs: seq<Segment>)
    requires Numbered(segs)
    ensures segs != []
  {
  }

  lemma {:induction false} TruncatedBounded(max: Option<nat>, segs: seq<Segment>, n: nat)
    ensures AllBounded(max, segs) ==> AllBounded(max, Truncated(segs, n))
  {
    if segs != [] && AllBounded(max, segs) {
      var part, rest := segs[0], segs[1..];
      var left := if n >= |part.data| then n - |part.data| else 0;
      assert forall i :: 0 <= i < |rest| ==> rest[i] == segs[i + 1];
      TruncatedBounded(max, rest, left);
      assert Bounded(max, part.data);
      if n < |part.data| { assert Bounded(max, part.data[..n]); }
    }
  }

  /** A batch of a run is the stretch of its payload where it belongs. */
  lemma RunBatch(records: seq<Queued>, start: nat, offset: nat, next: nat, end: nat)
    requires start <= offset <= next <= end <= |records|
    ensures var bytes := Payload(LinesOf(records[start..end]));
      var batch, m := Payload(LinesOf(records[offset..next])), |Payload(LinesOf(records[start..offset]))|;
      && m + |batch| == |Payload(LinesOf(records[start..next]))| <= |bytes|
      && bytes[m..m + |batch|] == batch
      && (offset == start ==> m == 0)
      && (next == end ==> m + |batch| == |bytes|)
  {
    hide Payload, LinesOf;
    var a, b, c := LinesOf(records[start..offset]), LinesOf(records[offset..next]), LinesOf(records[next..end]);
    LinesJoin(records, start, offset, next);
    LinesJoin(records, start, next, end);
    PayloadConcat(a, b);
    PayloadConcat(LinesOf(records[start..next]), c);
    Middle(Payload(a), Payload(b), Payload(c));
    if offset == start { NoPayload(records, start); }
    if next == end { NoPayload(records, end); }
  }

  lemma LinesJoin(records: seq<Queued>, a: nat, b: nat, c: nat)
    requires a <= b <= c <= |records|
    ensures LinesOf(records[a..b]) + LinesOf(records[b..c]) == LinesOf(records[a..c])
  {
    hide LinesOf;
  }

  lemma Middle(x: Bytes, y: Bytes, z: Bytes)
    ensures (x + y + z)[|x|..|x| + |y|] == y
  {
  }

  lemma NoPayload(records: seq<Queued>, at: nat)
    requires at <= |records|
    ensures Payload(LinesOf(records[at..at])) == []
  {
  }

  lemma RunGrown(stable: seq<Segment>, now: seq<Segment>, active: nat, activeSize: nat, lines: seq<Bytes>, n: int)
    requires Grown(stable, now) && Cursor(now, active, activeSize) && -1 <= n <= |Payload(lines)|
    ensures n >= 0 ==> Grown(stable, Appended(now, active, Payload(lines)[..n]))
  {
    if n >= 0 { GrownAppended(stable, now, active, Payload(lines)[..n]); }
  }

  /** A row alone in its file has no line feed but its last. */
  lemma SingleUnbroken(parse: Parser, run: seq<Queued>, data: Bytes)
    requires |run| == 1 && Loggable(parse, run[0]) && data == Payload(LinesOf(run))
    ensures data == run[0].line && Unbroken(data, 0, |data| - 1)
  {
    assert LinesOf(run)[..0] == [] && Payload(LinesOf(run)) == [] + run[0].line;
  }

  /** Neither a whole run nor any cut of it makes a file too large. */
  lemma RunBounded(max: Option<nat>, now: seq<Segment>, active: nat, activeSize: nat, parse: Parser,
                   records: seq<Queued>, start: nat, end: nat, n: int)
    requires start < end <= |records| && AllLoggable(parse, records) && Cursor(now, active, activeSize)
    requires max.None? || activeSize + Weight(records[start..end]) <= max.value || (activeSize == 0 && end == start + 1)
    requires -1 <= n <= |Payload(LinesOf(records[start..end]))|
    ensures n >= 0 && AllBounded(max, now) ==>
      AllBounded(max, Appended(now, active, Payload(LinesOf(records[start..end]))[..n]))
  {
    hide Payload, LinesOf, Weight, Unbroken, WholeLine;
    if n >= 0 && AllBounded(max, now) {
      var run := records[start..end];
      var bytes := Payload(LinesOf(run));
      WeightIsPayload(run);
      var full := Appended(now, active, bytes);
      var data := full[|full| - 1].data;
      assert |data| == activeSize + |bytes|;
      if end == start + 1 && activeSize == 0 {
        assert Loggable(parse, records[start]);
        SingleUnbroken(parse, run, data);
      }
      assert Bounded(max, data);
      assert forall i :: 0 <= i < |full| - 1 ==> full[i] == now[i];
      BoundedAppend(max, now, active, bytes, n);
    }
  }

  /** A whole run adds exactly its rows. */
  lemma RunWritten(parse: Parser, now: seq<Segment>, active: nat, activeSize: nat, durable: seq<RawRow>, size: nat,
                   records: seq<Queued>, start: nat, end: nat)
    requires start < end <= |records| && AllLoggable(parse, records) && Cursor(now, active, activeSize)
    requires AllClosed(now) && Size(now) == size + Weight(records[..start])
    requires DiskRows(now, Size(now)) == durable + LineRows(LinesOf(records[..start]), size)
    ensures var bytes := Payload(LinesOf(records[start..end])); var r := Appended(now, active, bytes[..|bytes|]);
      && AllClosed(r) && Size(r) == size + Weight(records[..end])
      && DiskRows(r, Size(r)) == durable + LineRows(LinesOf(records[..end]), size)
      && Cursor(r, active, activeSize + Weight(records[start..end]))
      && r[|r| - 1].number == active
  {
    hide DiskRows, LineRows, WholeLine, Payload, LinesOf, Weight, Size, Closed, AllLoggable, AllClosed, Appended, Content;
    var run := records[start..end];
    var bytes := Payload(LinesOf(run));
    assert bytes[..|bytes|] == bytes;
    RunLines(parse, records, start, end);
    ContentAppended(now, active, bytes);
    if now != [] { assert Closed(now[|now| - 1].data) by { LastClosed(now); } }
    AppendedRows(now, active, LinesOf(run));
    AppendedEnds(now, active, activeSize, bytes);
    LineRowsConcat(LinesOf(records[..start]), LinesOf(run), size);
    var x, y := LineRows(LinesOf(records[..start]), size), LineRows(LinesOf(run), Size(now));
    assert (durable + x) + y == durable + (x + y);
  }

  lemma AppendedEnds(now: seq<Segment>, active: nat, activeSize: nat, bytes: Bytes)
    requires Cursor(now, active, activeSize) && AllClosed(now)
    requires var r := Appended(now, active, bytes); Closed(r[|r| - 1].data)
    ensures var r := Appended(now, active, bytes);
      AllClosed(r) && Cursor(r, active, activeSize + |bytes|) && r[|r| - 1].number == active
  {
    hide Closed;
    var r := Appended(now, active, bytes);
    assert forall i :: 0 <= i < |r| - 1 ==> r[i] == now[i];
  }

  lemma RunLines(parse: Parser, records: seq<Queued>, start: nat, end: nat)
    requires start < end <= |records| && AllLoggable(parse, records)
    ensures var run := records[start..end];
      && (forall i :: 0 <= i < |LinesOf(run)| ==> WholeLine(LinesOf(run)[i]))
      && LinesOf(records[..start]) + LinesOf(run) == LinesOf(records[..end])
      && Weight(records[..start]) + Weight(run) == Weight(records[..end])
      && |Payload(LinesOf(run))| == Weight(run)
      && |Payload(LinesOf(records[..start]))| == Weight(records[..start])
  {
    hide WholeLine, Weight, Payload;
    var run := records[start..end];
    WeightIsPayload(run);
    WeightIsPayload(records[..start]);
    assert records[..start] + run == records[..end];
    WeightConcat(records[..start], run);
    forall i | 0 <= i < |LinesOf(run)|
      ensures WholeLine(LinesOf(run)[i])
    {
      assert Loggable(parse, records[start + i]);
    }
  }

  function AtLeast(a: nat, b: nat): nat { if a < b then b else a }

  /** The loop that accounts for each committed row at its place in the log. */
  method TrackRows(parse: Parser, ghost rows: seq<RawRow>, track: Track, ghost first: seq<RawRow>,
                   ghost stored: seq<Queued>, flushed: int, taken: seq<Queued>, size: nat)
    returns (t: Track, at: nat, top: int)
    requires Recorded(parse, rows, track, first, stored, flushed) && AllLoggable(parse, taken)
    ensures at == size + Weight(taken)
    ensures Recorded(parse, rows + LineRows(LinesOf(taken), size), t, first, stored + taken, top)
  {
    hide Describes, Loggable, AllLoggable, Weight, MaxRow, LineRows, Tracked, Recorded;
    t, at, top := track, size, flushed;
    var i := 0;
    CommitStart(parse, rows, stored, taken, size);
    RecordedMeans(parse, rows, track, first, stored, flushed);
    while i < |taken|
      invariant 0 <= i <= |taken|
      invariant at == size + Weight(taken[..i])
      invariant Describes(parse, rows + LineRows(LinesOf(taken[..i]), size), t)
      invariant top == MaxRow(stored + taken[..i], |first| - 1)
    {
      CommitStep(parse, rows, taken, i, size, t);
      MaxRowPush(stored + taken[..i], taken[i], |first| - 1);
      assert stored + taken[..i + 1] == (stored + taken[..i]) + [taken[i]];
      t := Tracked(t, Some(taken[i].step), at);
      if taken[i].row > top { top := taken[i].row; }
      at := at + |taken[i].line|;
      i := i + 1;
    }
    assert taken[..|taken|] == taken;
    RecordedMore(parse, rows, track, first, stored, flushed, taken, size, t, top);
  }

  /** The start-up scan of an existing log. */
  method ScanLog(parse: Parser, segs: seq<Segment>, every: nat) returns (t: Track)
    ensures Describes(parse, DiskRows(segs, Size(segs)), t)
  {
    hide Describes, Rows;
    t := VisitUntil(Datas(segs), Size(segs), 0, true, TrackVisitor(parse), Fresh(every));
    ghost var rows := DiskRows(segs, Size(segs));
    FreshDescribes(parse, every);
    assert rows[..0] == [] && rows[0..] == rows;
    TrackFold(parse, rows, 0, Fresh(every));
  }

  lemma OpenedWell(parse: Parser, rows: seq<RawRow>, t: Track)
    requires Describes(parse, rows, t)
    ensures Recorded(parse, rows, t, rows, [], t.lines - 1) && t.lines == |rows|
    ensures Balanced([], [], [], [], [], [], [], 0, 0)
    ensures Weight([]) == 0
  {
    assert rows[..|rows|] == rows;
  }

  /** Cutting the active file after a line feed leaves well-formed files. */
  lemma CutWell(files: seq<Segment>, cut: nat)
    requires Numbered(files) && AllClosed(files[..|files| - 1])
    requires cut <= |files[|files| - 1].data| && Closed(files[|files| - 1].data[..cut])
    ensures var last := files[|files| - 1]; var segs := files[..|files| - 1] + [last.(data := last.data[..cut])];
      Numbered(segs) && AllClosed(segs) && Grown(segs, segs)
  {
    var last := files[|files| - 1];
    var segs := files[..|files| - 1] + [last.(data := last.data[..cut])];
    forall i | 0 <= i < |segs|
      ensures segs[i].number == files[i].number && Closed(segs[i].data)
    {
      if i < |files| - 1 { assert segs[i] == files[..|files| - 1][i]; }
    }
  }

  lemma NumberedOf(stable: seq<Segment>, now: seq<Segment>)
    requires Grown(stable, now)
    ensures stable != []
  {
  }

  lemma GrownNothing(segs: seq<Segment>)
    requires Numbered(segs)
    ensures Grown(segs, segs)
  {
  }

  /** Tracking one committed row: its anchor, if any, is its real place in the log. */
  lemma CommitStep(parse: Parser, before: seq<RawRow>, rows: seq<Queued>, i: nat, at: nat, t: Track)
    requires i < |rows| && AllLoggable(parse, rows)
    requires Describes(parse, before + LineRows(LinesOf(rows[..i]), at), t)
    ensures Describes(parse, before + LineRows(LinesOf(rows[..i + 1]), at),
                      Tracked(t, Some(rows[i].step), at + Weight(rows[..i])))
    ensures Weight(rows[..i + 1]) == Weight(rows[..i]) + |rows[i].line|
  {
    hide Describes, Tracked, WholeLine;
    var lines := LinesOf(rows[..i + 1]);
    assert lines[..i] == LinesOf(rows[..i]) && lines[i] == rows[i].line;
    assert rows[..i + 1][..i] == rows[..i];
    WeightIsPayload(rows[..i]);
    var sofar := before + LineRows(LinesOf(rows[..i]), at);
    var row := RawRow(at + Weight(rows[..i]), rows[i].line);
    assert Loggable(parse, rows[i]);
    TrackedDescribes(parse, sofar, t, row);
    assert sofar + [row] == before + LineRows(lines, at);
  }

  lemma {:induction false} LineRowsMean(lines: seq<Bytes>, at: nat)
    ensures |LineRows(lines, at)| == |lines|
    ensures forall i :: 0 <= i < |lines| ==> LineRows(lines, at)[i].bytes == lines[i]
  {
    if lines != [] { LineRowsMean(lines[..|lines| - 1], at); }
  }
}
