/** The segment files of a log: appending rows, truncating a partial write, and which
    rows each leaves readable. */
module LogFiles {
  import opened LogRows

  /** Number 0 is the main file; the others are the numbered parts. */
  datatype Segment = Segment(number: nat, data: Bytes)

  function Datas(segs: seq<Segment>): (d: seq<Bytes>)
    ensures |d| == |segs| && forall i :: 0 <= i < |d| ==> d[i] == segs[i].data
  {
    if segs == [] then [] else Datas(segs[..|segs| - 1]) + [segs[|segs| - 1].data]
  }

  function Size(segs: seq<Segment>): nat {
    if segs == [] then 0 else Size(segs[..|segs| - 1]) + |segs[|segs| - 1].data|
  }

  /** All bytes of the log, in order. */
  function Content(segs: seq<Segment>): Bytes {
    if segs == [] then [] else Content(segs[..|segs| - 1]) + segs[|segs| - 1].data
  }

  function DiskRows(segs: seq<Segment>, limit: nat): seq<RawRow> { Rows(Datas(segs), limit, 0, true) }

  predicate Closed(data: Bytes) { data == [] || data[|data| - 1] == LF }

  /** A line as the writer receives it: one non-blank row and its line feed. */
  predicate WholeLine(line: Bytes) {
    && line != [] && line[|line| - 1] == LF
    && Unbroken(line, 0, |line| - 1)
    && !Blank(line)
  }

  function Payload(lines: seq<Bytes>): Bytes {
    if lines == [] then [] else Payload(lines[..|lines| - 1]) + lines[|lines| - 1]
  }

  /** The rows that lines become when they are appended at `at`. */
  function LineRows(lines: seq<Bytes>, at: nat): seq<RawRow> {
    if lines == [] then []
    else
      var init := lines[..|lines| - 1];
      LineRows(init, at) + [RawRow(at + |Payload(init)|, lines[|lines| - 1])]
  }

  // ---------------------------------------------------------------- appending

  /** `open(create, append)` on the file with this number, then a write. */
  function Appended(segs: seq<Segment>, number: nat, bytes: Bytes): seq<Segment> {
    if segs != [] && segs[|segs| - 1].number == number then
      segs[..|segs| - 1] + [Segment(number, segs[|segs| - 1].data + bytes)]
    else segs + [Segment(number, bytes)]
  }

  lemma ContentAppended(segs: seq<Segment>, number: nat, bytes: Bytes)
    ensures Content(Appended(segs, number, bytes)) == Content(segs) + bytes
    ensures Size(Appended(segs, number, bytes)) == Size(segs) + |bytes|
  {
    var r := Appended(segs, number, bytes);
    if segs != [] && segs[|segs| - 1].number == number {
      assert r[..|r| - 1] == segs[..|segs| - 1];
    } else {
      assert r[..|r| - 1] == segs;
    }
  }

  lemma {:induction false} LinesOfPayload(data: Bytes, from: nat, lines: seq<Bytes>, base: nat, tail: bool)
    requires from + |Payload(lines)| == |data| && data[from..] == Payload(lines)
    requires forall i :: 0 <= i < |lines| ==> WholeLine(lines[i])
    ensures Lines(data, from, |data|, base, tail) == LineRows(lines, base + from)
    decreases |lines|
  {
    hide Lines, Visible, LineEnd, WholeLine, Payload;
    PayloadLast(lines);
    if lines == [] {
      EmptyLines(data, from, base, tail);
    } else {
      var init, last := lines[..|lines| - 1], lines[|lines| - 1];
      var mid := from + |Payload(init)|;
      assert data[from..mid] == data[from..][..mid - from] == Payload(init);
      assert data[mid..] == data[from..][mid - from..] == last;
      PayloadClosed(init);
      if mid > from { assert data[mid - 1] == data[from..mid][mid - from - 1]; }
      LinesSplit(data, from, mid, |data|, base, tail);
      LinesWithin(data, from, mid, base);
      LinesOfPayload(data[..mid], from, init, base, false);
      LastWhole(data, mid, last, base, tail);
    }
  }

  lemma PayloadLast(lines: seq<Bytes>)
    ensures Payload(lines) == if lines == [] then [] else Payload(lines[..|lines| - 1]) + lines[|lines| - 1]
  {
  }

  lemma LastWhole(data: Bytes, mid: nat, line: Bytes, base: nat, tail: bool)
    requires mid <= |data| && data[mid..] == line && WholeLine(line)
    ensures Lines(data, mid, |data|, base, tail) == [RawRow(base + mid, line)]
  {
    assert forall i :: mid <= i < |data| ==> data[i] == line[i - mid];
    LineEndUnique(data, mid, |data|, |data| - 1);
    EmptyLines(data, |data|, base, tail);
    assert data[mid..|data|] == line;
  }

  /** Rows of a prefix do not depend on what follows it. */
  lemma {:induction false} LinesWithin(data: Bytes, from: nat, mid: nat, base: nat)
    requires from <= mid <= |data|
    ensures Lines(data, from, mid, base, false) == Lines(data[..mid], from, mid, base, false)
    decreases mid - from
  {
    hide Visible, LineEnd;
    var n := LineEnd(data, from, mid);
    LineEndMeans(data, from, mid);
    LineEndUnique(data[..mid], from, mid, n);
    if n < mid {
      assert data[..mid][from..n + 1] == data[from..n + 1];
      LinesWithin(data, n + 1, mid, base);
    }
  }

  lemma PayloadClosed(lines: seq<Bytes>)
    requires forall i :: 0 <= i < |lines| ==> WholeLine(lines[i])
    ensures Closed(Payload(lines))
  {
    hide WholeLine;
    if lines != [] {
      var init, last := Payload(lines[..|lines| - 1]), lines[|lines| - 1];
      WholeLineEnds(last);
      assert (init + last)[|init + last| - 1] == last[|last| - 1];
    }
  }

  lemma WholeLineEnds(line: Bytes)
    requires WholeLine(line)
    ensures line != [] && line[|line| - 1] == LF
  {
  }

  /** A window ending in a line feed has no unterminated remainder. */
  lemma TailIrrelevant(data: Bytes, hi: nat, base: nat)
    requires hi <= |data| && (hi > 0 ==> data[hi - 1] == LF)
    ensures Lines(data, 0, hi, base, true) == Lines(data, 0, hi, base, false)
  {
    hide Lines;
    LinesSplit(data, 0, hi, hi, base, true);
    LinesSplit(data, 0, hi, hi, base, false);
    EmptyLines(data, hi, base, true);
    EmptyLines(data, hi, base, false);
  }

  lemma TotalIsSize(segs: seq<Segment>, k: nat)
    requires k <= |segs|
    ensures Total(Datas(segs), k) == Size(segs[..k])
  {
    if k > 0 {
      TotalIsSize(segs, k - 1);
      assert segs[..k][..k - 1] == segs[..k - 1];
    }
  }

  lemma {:induction false} SizeMonotone(segs: seq<Segment>, k: nat)
    requires k <= |segs|
    ensures Size(segs[..k]) <= Size(segs)
    decreases |segs| - k
  {
    hide Size;
    if k < |segs| {
      SizeMonotone(segs, k + 1);
      SizePush(segs[..k], segs[k]);
      assert segs[..k + 1] == segs[..k] + [segs[k]];
    } else {
      assert segs[..k] == segs;
    }
  }

  /** Reading to the very end, the rows are those of all files but the last, then of the last. */
  lemma DiskRowsSplit(segs: seq<Segment>)
    requires segs != []
    ensures var init, data := segs[..|segs| - 1], segs[|segs| - 1].data;
      DiskRows(segs, Size(segs)) == DiskRows(init, Size(init)) + Lines(data, 0, |data|, Size(init), true)
  {
    hide Lines;
    var init, data := segs[..|segs| - 1], segs[|segs| - 1].data;
    var n := |segs| - 1;
    RowsPrefix(Datas(segs), n, Size(segs), true);
    RowsPrefix(Datas(init), n, Size(init), true);
    TotalIsSize(segs, n);
    TotalIsSize(init, n);
    assert init[..n] == init && Datas(segs)[..n] == Datas(init)[..n];
    SameRows(Datas(segs), Datas(init), n, Size(segs), Size(init), true);
    assert RowsUpTo(Datas(init), n, Size(init), true) + [] == RowsUpTo(Datas(init), n, Size(init), true);
    var last := SegmentRows(data, Size(init), Size(segs), 0, true);
    assert RowsFrom(Datas(segs), n, Size(init), Size(segs), 0, true) == last + [];
    if data == [] { EmptyLines(data, 0, Size(init), true); }
  }

  /** Files wholly below both limits contribute the same rows under either. */
  lemma {:induction false} SameRows(a: seq<Bytes>, b: seq<Bytes>, k: nat, la: nat, lb: nat, tail: bool)
    requires k <= |a| && k <= |b| && a[..k] == b[..k]
    requires la == lb || (Total(a, k) <= la && Total(b, k) <= lb)
    ensures Total(a, k) == Total(b, k)
    ensures RowsUpTo(a, k, la, tail) == RowsUpTo(b, k, lb, tail)
  {
    hide Lines;
    if k > 0 {
      assert a[..k][..k - 1] == a[..k - 1] && b[..k][..k - 1] == b[..k - 1];
      assert a[k - 1] == a[..k][k - 1] == b[k - 1];
      SameRows(a, b, k - 1, la, lb, tail);
    }
  }

  /** Growing one file by whole lines. */
  lemma GrownLines(data: Bytes, lines: seq<Bytes>, base: nat)
    requires forall i :: 0 <= i < |lines| ==> WholeLine(lines[i])
    requires Closed(data)
    ensures var grown := data + Payload(lines);
      && Lines(grown, 0, |grown|, base, true) == Lines(data, 0, |data|, base, true) + LineRows(lines, base + |data|)
      && Closed(grown)
  {
    hide Lines, LineRows;
    var bytes := Payload(lines);
    var grown := data + bytes;
    PayloadClosed(lines);
    LinesSplit(grown, 0, |data|, |grown|, base, true);
    LinesWithin(grown, 0, |data|, base);
    assert grown[..|data|] == data && grown[|data|..] == bytes;
    TailIrrelevant(data, |data|, base);
    LinesOfPayload(grown, |data|, lines, base, true);
  }

  /** Appending whole lines appends exactly their rows. */
  lemma AppendedRows(segs: seq<Segment>, number: nat, lines: seq<Bytes>)
    requires forall i :: 0 <= i < |lines| ==> WholeLine(lines[i])
    requires segs != [] ==> Closed(segs[|segs| - 1].data)
    ensures var r := Appended(segs, number, Payload(lines));
      && DiskRows(r, Size(r)) == DiskRows(segs, Size(segs)) + LineRows(lines, Size(segs))
      && Closed(r[|r| - 1].data)
  {
    hide Lines, LineRows, Payload, DiskRows, WholeLine, Size, Closed;
    var r := Appended(segs, number, Payload(lines));
    DiskRowsSplit(r);
    if segs != [] && segs[|segs| - 1].number == number {
      var init, data := segs[..|segs| - 1], segs[|segs| - 1].data;
      assert r[..|r| - 1] == init;
      DiskRowsSplit(segs);
      SizePush(init, segs[|segs| - 1]);
      assert init + [segs[|segs| - 1]] == segs;
      GrownLines(data, lines, Size(init));
      var x, y, z := DiskRows(init, Size(init)), Lines(data, 0, |data|, Size(init), true), LineRows(lines, Size(segs));
      assert x + (y + z) == (x + y) + z;
    } else {
      assert r[..|r| - 1] == segs;
      assert Closed([]) by { NothingClosed(); }
      GrownLines([], lines, Size(segs));
      assert [] + Payload(lines) == Payload(lines);
      EmptyLines([], 0, Size(segs), true);
      assert [] + LineRows(lines, Size(segs)) == LineRows(lines, Size(segs));
    }
  }

  lemma NothingClosed()
    ensures Closed([])
  {
  }

  // ---------------------------------------------------------------- a write in progress

  /** File numbers ascend from the main file, as a directory listing sorts them. */
  ghost predicate Numbered(segs: seq<Segment>) {
    && segs != [] && segs[0].number == 0
    && forall i, j :: 0 <= i < j < |segs| ==> segs[i].number < segs[j].number
  }

  predicate AllClosed(segs: seq<Segment>) { forall i :: 0 <= i < |segs| ==> Closed(segs[i].data) }

  /** What a write may do to the files at any moment: grow the last one, and add new ones. */
  ghost predicate Grown(stable: seq<Segment>, now: seq<Segment>) {
    && Numbered(stable) && Numbered(now) && |stable| <= |now|
    && stable[..|stable| - 1] == now[..|stable| - 1]
    && stable[|stable| - 1].number == now[|stable| - 1].number
    && stable[|stable| - 1].data <= now[|stable| - 1].data
  }

  lemma GrownAppended(stable: seq<Segment>, now: seq<Segment>, number: nat, bytes: Bytes)
    requires Grown(stable, now) && number >= now[|now| - 1].number
    ensures Grown(stable, Appended(now, number, bytes))
  {
    var r := Appended(now, number, bytes);
    var n := |stable|;
    assert r[..n - 1] == now[..n - 1];
    if number == now[|now| - 1].number && |now| == n {
      assert stable[n - 1].data <= now[n - 1].data + bytes;
    } else {
      assert r[n - 1] == now[n - 1];
    }
  }

  /** Whatever a write in progress has done, the rows below the old size, or below any earlier
      one, read the same. */
  lemma StableRows(stable: seq<Segment>, now: seq<Segment>, limit: nat)
    requires stable != [] && Grown(stable, now) && AllClosed(stable) && limit <= Size(stable)
    ensures DiskRows(now, limit) == DiskRows(stable, limit)
    ensures Size(stable) <= Size(now)
  {
    hide SegmentRows, RowsFrom, Rows, Numbered, AllClosed, Size;
    var k := |stable| - 1;
    var data, more := stable[k].data, now[k].data;
    SizePush(stable[..k], stable[k]);
    SizeMonotone(now, k + 1);
    SizePush(now[..k], now[k]);
    assert now[..k] + [now[k]] == now[..k + 1] && stable[..k] + [stable[k]] == stable;
    assert Closed(data) by { LastClosed(stable); }
    StableSegment(data, more, Size(stable[..k]), limit);
    RowsThrough(stable, k, limit);
    RowsThrough(now, k, limit);
    SamePrefix(stable, now, k, limit);
  }

  /** Below the size of an earlier durable prefix the same rows are read as then. */
  ghost predicate Extends(past: seq<Segment>, n: nat, now: seq<Segment>, m: nat) {
    n <= m && forall k: nat :: k <= n ==> DiskRows(now, k) == DiskRows(past, k)
  }

  lemma ExtendsOn(a: seq<Segment>, n: nat, b: seq<Segment>, m: nat, c: seq<Segment>, l: nat)
    requires Extends(a, n, b, m) && Extends(b, m, c, l)
    ensures Extends(a, n, c, l)
  {
    hide DiskRows;
  }

  /** Rows below a limit within the k-th file: those of earlier files and of that file. */
  lemma RowsThrough(segs: seq<Segment>, k: nat, limit: nat)
    requires k < |segs| && limit <= Size(segs[..k]) + |segs[k].data|
    ensures DiskRows(segs, limit)
         == RowsUpTo(Datas(segs), k, limit, true) + SegmentRows(segs[k].data, Size(segs[..k]), limit, 0, true)
  {
    hide SegmentRows, RowsFrom, Size;
    var base := Size(segs[..k]);
    TotalIsSize(segs, k);
    RowsPrefix(Datas(segs), k, limit, true);
    RowsStep(Datas(segs), k, base, limit, 0, true);
    PastLimit(Datas(segs), k + 1, base + |segs[k].data|, limit, 0, true);
    var own := SegmentRows(segs[k].data, base, limit, 0, true);
    assert own + [] == own;
  }

  lemma SamePrefix(stable: seq<Segment>, now: seq<Segment>, k: nat, limit: nat)
    requires k <= |stable| && k <= |now| && stable[..k] == now[..k]
    ensures RowsUpTo(Datas(stable), k, limit, true) == RowsUpTo(Datas(now), k, limit, true)
  {
    assert Datas(stable)[..k] == Datas(now)[..k] by {
      forall i | 0 <= i < k
        ensures Datas(stable)[i] == Datas(now)[i]
      {
        assert stable[i] == stable[..k][i] == now[..k][i];
      }
    }
    TotalIsSize(stable, k);
    TotalIsSize(now, k);
    SameRows(Datas(stable), Datas(now), k, limit, limit, true);
  }

  lemma LastClosed(segs: seq<Segment>)
    requires AllClosed(segs) && segs != []
    ensures Closed(segs[|segs| - 1].data)
  {
  }

  lemma SizePush(segs: seq<Segment>, s: Segment)
    ensures Size(segs + [s]) == Size(segs) + |s.data|
  {
    assert (segs + [s])[..|segs|] == segs;
  }

  lemma StableSegment(data: Bytes, more: Bytes, base: nat, limit: nat)
    requires data <= more && Closed(data) && limit <= base + |data|
    ensures SegmentRows(more, base, limit, 0, true) == SegmentRows(data, base, limit, 0, true)
  {
    hide Lines;
    if base < limit {
      var n := limit - base;
      assert more[..n] == data[..n];
      LinesWithin(more, 0, n, base);
      LinesWithin(data, 0, n, base);
      if n == |data| {
        TailIrrelevant(data, n, base);
        TailIrrelevant(more, n, base);
      }
    }
  }

  // ---------------------------------------------------------------- rollback

  /** `rollback_data`: cut the files down to the first `remaining` bytes. */
  function Truncated(segs: seq<Segment>, remaining: nat): seq<Segment> {
    if segs == [] then []
    else
      var part := segs[0];
      if remaining >= |part.data| then [part] + Truncated(segs[1..], remaining - |part.data|)
      else if remaining > 0 || part.number == 0 then
        [Segment(part.number, part.data[..remaining])] + Truncated(segs[1..], 0)
      else Truncated(segs[1..], 0)
  }

  function Solid(segs: seq<Segment>): seq<Segment> {
    if segs == [] then [] else (if segs[0].data == [] then [] else [segs[0]]) + Solid(segs[1..])
  }

  lemma {:induction false} TruncatedNothing(segs: seq<Segment>)
    requires forall i :: 0 <= i < |segs| ==> segs[i].number > 0
    ensures forall p :: p in Truncated(segs, 0) ==> p in segs && p.data == []
    ensures Solid(Truncated(segs, 0)) == []
  {
    if segs != [] {
      TruncatedNothing(segs[1..]);
      if segs[0].data == [] { assert Truncated(segs, 0)[1..] == Truncated(segs[1..], 0); }
    }
  }

  /** Rolling back any partial write restores the old files, up to empty ones. */
  lemma {:induction false} TruncateRestores(stable: seq<Segment>, now: seq<Segment>)
    requires stable != [] && |stable| <= |now|
    requires stable[..|stable| - 1] == now[..|stable| - 1]
    requires stable[|stable| - 1].number == now[|stable| - 1].number
    requires stable[|stable| - 1].data <= now[|stable| - 1].data
    requires forall i :: 0 < i < |now| ==> now[i].number > 0
    requires AllClosed(stable)
    ensures var r := Truncated(now, Size(stable)); Solid(r) == Solid(stable) && AllClosed(r)
    decreases |stable|
  {
    hide Truncated, Solid, Size;
    SizeCons(stable);
    var first, rest := now[0], now[1..];
    if |stable| > 1 {
      assert stable[0] == stable[..|stable| - 1][0] == now[..|stable| - 1][0] == first;
      var tail := stable[1..];
      assert tail[..|tail| - 1] == stable[..|stable| - 1][1..] == now[..|stable| - 1][1..] == rest[..|tail| - 1];
      TruncateRestores(tail, rest);
      TruncatedWhole(now, Size(stable));
      SolidCons(first, Truncated(rest, Size(tail)));
      SolidCons(first, tail);
      assert stable == [first] + tail;
    } else {
      TruncateLast(stable[0], now);
      assert stable == [stable[0]];
    }
  }

  lemma SolidCons(first: Segment, rest: seq<Segment>)
    ensures Solid([first] + rest) == (if first.data == [] then [] else [first]) + Solid(rest)
  {
    assert ([first] + rest)[1..] == rest;
  }

  lemma TruncatedWhole(segs: seq<Segment>, remaining: nat)
    requires segs != [] && remaining >= |segs[0].data|
    ensures Truncated(segs, remaining) == [segs[0]] + Truncated(segs[1..], remaining - |segs[0].data|)
  {
  }

  lemma TruncateLast(last: Segment, now: seq<Segment>)
    requires now != [] && last.number == now[0].number && last.data <= now[0].data && Closed(last.data)
    requires forall i :: 0 < i < |now| ==> now[i].number > 0
    ensures Size([last]) == |last.data|
    ensures var r := Truncated(now, |last.data|); Solid(r) == Solid([last]) && AllClosed(r)
  {
    hide Solid, Truncated, Size, Closed, AllClosed;
    var rest := now[1..];
    var r := Truncated(rest, 0);
    SizePush([], last);
    assert [] + [last] == [last];
    TruncateShape(last, now);
    TruncatedNothing(rest);
    SolidNothing();
    SolidCons(last, r);
    SolidCons(last, []);
    EmptyClosed(last, r);
    assert [last] + [] == [last];
  }

  lemma TruncateShape(last: Segment, now: seq<Segment>)
    requires now != [] && last.number == now[0].number && last.data <= now[0].data
    ensures var r, t := Truncated(now[1..], 0), Truncated(now, |last.data|);
      t == [last] + r || (last.data == [] && t == r)
  {
    hide Truncated;
    var n := |last.data|;
    TruncatedCons(now[0], now[1..], n);
    assert now == [now[0]] + now[1..];
    assert last.data == now[0].data[..n];
    assert n == |now[0].data| ==> last.data == now[0].data;
  }

  lemma TruncatedCons(part: Segment, rest: seq<Segment>, remaining: nat)
    requires remaining <= |part.data|
    ensures Truncated([part] + rest, remaining)
      == if remaining == |part.data| then [part] + Truncated(rest, 0)
         else if remaining > 0 || part.number == 0 then [Segment(part.number, part.data[..remaining])] + Truncated(rest, 0)
         else Truncated(rest, 0)
  {
    assert ([part] + rest)[1..] == rest;
  }

  lemma EmptyClosed(last: Segment, segs: seq<Segment>)
    requires Closed(last.data) && forall p :: p in segs ==> p.data == []
    ensures AllClosed(segs) && AllClosed([last] + segs)
  {
    assert forall i :: 0 <= i < |segs| ==> segs[i] in segs && ([last] + segs)[i + 1] == segs[i];
  }

  lemma SolidNothing()
    ensures Solid([]) == []
    ensures Size([]) == 0
  {
  }

  lemma {:induction false} SizeCons(segs: seq<Segment>)
    requires segs != []
    ensures Size(segs) == |segs[0].data| + Size(segs[1..])
  {
    var n := |segs| - 1;
    if n > 0 {
      SizeCons(segs[..n]);
      assert segs[..n][1..] == segs[1..][..n - 1];
    }
  }

  predicate Climbing(segs: seq<Segment>, lo: nat) {
    segs == [] || (segs[0].number >= lo && Climbing(segs[1..], segs[0].number + 1))
  }

  lemma {:induction false} ClimbingMeans(segs: seq<Segment>, lo: nat)
    ensures Climbing(segs, lo) <==>
      && (forall i :: 0 <= i < |segs| ==> segs[i].number >= lo)
      && (forall i, j :: 0 <= i < j < |segs| ==> segs[i].number < segs[j].number)
  {
    if segs != [] {
      ClimbingMeans(segs[1..], segs[0].number + 1);
      assert forall i :: 1 <= i < |segs| ==> segs[i] == segs[1..][i - 1];
    }
  }

  lemma {:induction false} TruncatedClimbs(segs: seq<Segment>, remaining: nat, lo: nat, below: nat)
    requires Climbing(segs, lo) && below <= lo
    ensures Climbing(Truncated(segs, remaining), below)
  {
    if segs != [] {
      var left := if remaining >= |segs[0].data| then remaining - |segs[0].data| else 0;
      var t := Truncated(segs[1..], left);
      TruncatedClimbs(segs[1..], left, segs[0].number + 1, segs[0].number + 1);
      TruncatedClimbs(segs[1..], left, segs[0].number + 1, below);
      assert forall x: Segment :: ([x] + t)[1..] == t;
    }
  }

  lemma TruncatedNumbers(segs: seq<Segment>, remaining: nat)
    requires Numbered(segs)
    ensures Numbered(Truncated(segs, remaining))
  {
    ClimbingMeans(segs, 0);
    TruncatedClimbs(segs, remaining, 0, 0);
    ClimbingMeans(Truncated(segs, remaining), 0);
  }

  lemma {:induction false} SolidRows(segs: seq<Segment>, base: nat, limit: nat)
    ensures RowsFrom(Datas(segs), 0, base, limit, 0, true) == RowsFrom(Datas(Solid(segs)), 0, base, limit, 0, true)
    ensures Size(segs) == Size(Solid(segs))
  {
    hide SegmentRows, RowsFrom, Datas, Solid, Size;
    SolidStep(segs);
    RowsStep(Datas(segs), 0, base, limit, 0, true);
    if segs != [] {
      var rest, next := segs[1..], base + |segs[0].data|;
      SizeCons(segs);
      SolidRows(rest, next, limit);
      DatasCons(segs);
      RowsShift(Datas(segs), 1, Datas(rest), 0, next, limit);
      if segs[0].data != [] {
        var s := Solid(segs);
        SizeCons(s);
        DatasCons(s);
        RowsStep(Datas(s), 0, base, limit, 0, true);
        RowsShift(Datas(s), 1, Datas(Solid(rest)), 0, next, limit);
      } else {
        EmptySegment(base, limit);
      }
    } else {
      RowsStep(Datas(Solid(segs)), 0, base, limit, 0, true);
    }
  }

  lemma DatasCons(segs: seq<Segment>)
    requires segs != []
    ensures Datas(segs)[1..] == Datas(segs[1..])[0..]
  {
  }

  lemma SolidStep(segs: seq<Segment>)
    ensures segs == [] ==> Solid(segs) == []
    ensures segs != [] && segs[0].data == [] ==> Solid(segs) == Solid(segs[1..])
    ensures segs != [] && segs[0].data != [] ==>
      Solid(segs) != [] && Solid(segs)[0] == segs[0] && Solid(segs)[1..] == Solid(segs[1..])
  {
  }

  lemma EmptySegment(base: nat, limit: nat)
    ensures SegmentRows([], base, limit, 0, true) == []
  {
  }

  lemma {:induction false} RowsShift(a: seq<Bytes>, i: nat, b: seq<Bytes>, j: nat, base: nat, limit: nat)
    requires i <= |a| && j <= |b| && a[i..] == b[j..]
    ensures RowsFrom(a, i, base, limit, 0, true) == RowsFrom(b, j, base, limit, 0, true)
    decreases |a| - i
  {
    hide SegmentRows;
    if i < |a| {
      assert a[i] == a[i..][0] == b[j..][0] == b[j];
      assert a[i + 1..] == a[i..][1..] == b[j..][1..] == b[j + 1..];
      RowsShift(a, i + 1, b, j + 1, base + |a[i]|, limit);
    }
  }

  /** After a rollback, exactly the durable rows are on disk. */

  lemma RolledBackRows(stable: seq<Segment>, now: seq<Segment>)
    requires Grown(stable, now) && AllClosed(stable)
    ensures var r := Truncated(now, Size(stable));
      && Numbered(r) && AllClosed(r) && Size(r) == Size(stable)
      && (forall limit: nat :: DiskRows(r, limit) == DiskRows(stable, limit))
      && Solid(r) == Solid(stable)
  {
    hide RowsFrom, Truncated, Solid;
    var r := Truncated(now, Size(stable));
    TruncateRestores(stable, now);
    TruncatedNumbers(now, Size(stable));
    SolidRows(r, 0, Size(stable));
    SolidRows(stable, 0, Size(stable));
    forall limit: nat
      ensures DiskRows(r, limit) == DiskRows(stable, limit)
    {
      SolidRows(r, 0, limit);
      SolidRows(stable, 0, limit);
    }
  }
}
