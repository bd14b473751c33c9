/** The physical rows of a segmented log: what a forward scan yields, and what the
    chunked backward scan yields. */
module LogRows {

  type Byte = b: int | 0 <= b < 256
  type Bytes = seq<Byte>

  const LF: Byte := 10

  predicate WhiteByte(b: Byte) { b == 32 || b == 9 || b == 10 || b == 12 || b == 13 }

  predicate Blank(s: Bytes) { forall i :: 0 <= i < |s| ==> WhiteByte(s[i]) }

  datatype RawRow = RawRow(offset: nat, bytes: Bytes)

  function Min(a: nat, b: nat): nat { if a < b then a else b }

  predicate Unbroken(data: Bytes, lo: nat, hi: nat)
    requires hi <= |data|
  {
    forall i :: lo <= i < hi ==> data[i] != LF
  }

  /** Position of the first line feed at or after `lo`, or `hi`. */
  function LineEnd(data: Bytes, lo: nat, hi: nat): (n: nat)
    requires lo <= hi <= |data|
    ensures lo <= n <= hi
    decreases hi - lo
  {
    if lo == hi || data[lo] == LF then lo else LineEnd(data, lo + 1, hi)
  }

  /** Where the last piece before `hi` starts: after the last line feed, or at `lo`. */
  function LastBreak(data: Bytes, lo: nat, hi: nat): (n: nat)
    requires lo <= hi <= |data|
    ensures lo <= n <= hi
    decreases hi - lo
  {
    if lo == hi || data[hi - 1] == LF then hi else LastBreak(data, lo, hi - 1)
  }

  function Visible(at: nat, s: Bytes): seq<RawRow> { if Blank(s) then [] else [RawRow(at, s)] }

  /** Non-blank rows of a window; the unterminated remainder only if `tail`. */
  function Lines(data: Bytes, lo: nat, hi: nat, base: nat, tail: bool): seq<RawRow>
    requires lo <= hi <= |data|
    decreases hi - lo
  {
    var n := LineEnd(data, lo, hi);
    if n == hi then if tail then Visible(base + lo, data[lo..hi]) else []
    else Visible(base + lo, data[lo..n + 1]) + Lines(data, n + 1, hi, base, tail)
  }

  /** The rows one segment contributes to a scan from `start` below `limit`. */
  function SegmentRows(data: Bytes, base: nat, limit: nat, start: nat, tail: bool): seq<RawRow> {
    if base >= limit then []
    else
      var hi := Min(|data|, limit - base);
      var lo := if start <= base then 0 else start - base;
      if lo < hi then Lines(data, lo, hi, base, tail && hi == |data|) else []
  }

  function RowsFrom(segments: seq<Bytes>, k: nat, base: nat, limit: nat, start: nat, tail: bool): seq<RawRow>
    requires k <= |segments|
    decreases |segments| - k
  {
    if k == |segments| then []
    else
      SegmentRows(segments[k], base, limit, start, tail)
      + RowsFrom(segments, k + 1, base + |segments[k]|, limit, start, tail)
  }

  function Rows(segments: seq<Bytes>, limit: nat, start: nat, tail: bool): seq<RawRow> {
    RowsFrom(segments, 0, 0, limit, start, tail)
  }

  // ---------------------------------------------------------------- visitors

  type Visitor<!S> = (S, RawRow) -> (S, bool)

  /** A visitor folded over rows until it declines to go on. */
  function FoldUntil<S>(f: Visitor<S>, s: S, rows: seq<RawRow>): S {
    if rows == [] then s
    else
      var (t, more) := f(s, rows[0]);
      if more then FoldUntil(f, t, rows[1..]) else t
  }

  lemma FoldDone<S>(f: Visitor<S>, s: S)
    ensures FoldUntil(f, s, []) == s
  {
  }

  /** Offering one row to the visitor unless it is blank. */
  method Offer<S>(f: Visitor<S>, s: S, at: nat, raw: Bytes, ghost rest: seq<RawRow>) returns (t: S, more: bool)
    ensures FoldUntil(f, s, Visible(at, raw) + rest) == if more then FoldUntil(f, t, rest) else t
  {
    t, more := s, true;
    if !Blank(raw) {
      assert ([RawRow(at, raw)] + rest)[1..] == rest;
      var (u, go) := f(s, RawRow(at, raw));
      t, more := u, go;
    } else {
      assert [] + rest == rest;
    }
  }

  method ReadUntil(data: Bytes, from: nat, end: nat) returns (next: nat)
    requires from < end <= |data|
    ensures next == Min(LineEnd(data, from, end) + 1, end)
    ensures data[next - 1] == LF <==> LineEnd(data, from, end) < end
  {
    next := from;
    while next < end && data[next] != LF
      invariant from <= next <= end
      invariant LineEnd(data, from, end) == LineEnd(data, next, end)
      invariant next > from ==> data[next - 1] != LF
    {
      next := next + 1;
    }
    if next < end { next := next + 1; }
  }

  lemma PastLimit(segments: seq<Bytes>, k: nat, base: nat, limit: nat, start: nat, tail: bool)
    requires base >= limit && k <= |segments|
    ensures RowsFrom(segments, k, base, limit, start, tail) == []
    decreases |segments| - k
  {
    if k < |segments| { PastLimit(segments, k + 1, base + |segments[k]|, limit, start, tail); }
  }

  /** `visit_until`: the forward scan, row by row, stopping when the visitor says so. */
  method VisitUntil<S>(segments: seq<Bytes>, limit: nat, start: nat, unterminated: bool, f: Visitor<S>, init: S)
    returns (s: S)
    ensures s == FoldUntil(f, init, Rows(segments, limit, start, unterminated))
  {
    hide FoldUntil, SegmentRows;
    s := init;
    var base: nat, k := 0, 0;
    ghost var todo := Rows(segments, limit, start, unterminated);
    ghost var goal := FoldUntil(f, init, todo);
    while k < |segments|
      invariant 0 <= k <= |segments|
      invariant todo == RowsFrom(segments, k, base, limit, start, unterminated)
      invariant goal == FoldUntil(f, s, todo)
    {
      if base >= limit {
        PastLimit(segments, k, base, limit, start, unterminated);
        FoldDone(f, s);
        return;
      }
      var data := segments[k];
      SegmentStep(data, base, limit, start, unterminated);
      var end := Min(|data|, limit - base);
      var from := if start <= base then 0 else start - base;
      todo := RowsFrom(segments, k + 1, base + |data|, limit, start, unterminated);
      if from < end {
        var more: bool;
        s, more := VisitSegment(data, base, from, end, unterminated && end == |data|, f, s, todo);
        if !more { return; }
      } else {
        assert [] + todo == todo;
      }
      base := base + |data|;
      k := k + 1;
    }
    FoldDone(f, s);
  }

  lemma SegmentStep(data: Bytes, base: nat, limit: nat, start: nat, tail: bool)
    requires base < limit
    ensures var hi, lo := Min(|data|, limit - base), if start <= base then 0 else start - base;
      SegmentRows(data, base, limit, start, tail)
      == if lo < hi then Lines(data, lo, hi, base, tail && hi == |data|) else []
  {
  }

  method VisitSegment<S>(data: Bytes, base: nat, from: nat, end: nat, tail: bool, f: Visitor<S>, init: S,
                         ghost later: seq<RawRow>)
    returns (s: S, more: bool)
    requires from < end <= |data|
    ensures FoldUntil(f, init, Lines(data, from, end, base, tail) + later)
         == if more then FoldUntil(f, s, later) else s
  {
    hide FoldUntil, Visible, LineEnd, Lines;
    s, more := init, true;
    var offset := from;
    ghost var todo := Lines(data, from, end, base, tail);
    ghost var goal := FoldUntil(f, init, todo + later);
    while offset < end
      invariant offset <= end
      invariant todo == Lines(data, offset, end, base, tail)
      invariant goal == FoldUntil(f, s, todo + later)
    {
      var next := ReadUntil(data, offset, end);
      var bytes := data[offset..next];
      var complete := bytes[|bytes| - 1] == LF;
      NextLine(data, offset, end, base, tail, next);
      if !complete && !tail {
        assert [] + later == later;
        return;
      }
      todo := Lines(data, next, end, base, tail);
      assert (Visible(base + offset, bytes) + todo) + later == Visible(base + offset, bytes) + (todo + later);
      s, more := Offer(f, s, base + offset, bytes, todo + later);
      if !more { return; }
      offset := next;
    }
    EmptyLines(data, end, base, tail);
    assert [] + later == later;
  }

  lemma EmptyLines(data: Bytes, at: nat, base: nat, tail: bool)
    requires at <= |data|
    ensures Lines(data, at, at, base, tail) == []
  {
    assert data[at..at] == [];
  }

  lemma NextLine(data: Bytes, offset: nat, end: nat, base: nat, tail: bool, next: nat)
    requires offset < end <= |data|
    requires next == Min(LineEnd(data, offset, end) + 1, end)
    ensures tail || LineEnd(data, offset, end) < end ==>
      Lines(data, offset, end, base, tail)
      == Visible(base + offset, data[offset..next]) + Lines(data, next, end, base, tail)
    ensures !tail && LineEnd(data, offset, end) == end ==> Lines(data, offset, end, base, tail) == []
  {
    if tail && LineEnd(data, offset, end) == end { EmptyLines(data, end, base, tail); }
  }

  // ---------------------------------------------------------------- backwards

  lemma {:induction false} LastBreakMeans(data: Bytes, lo: nat, hi: nat)
    requires lo <= hi <= |data|
    ensures Unbroken(data, LastBreak(data, lo, hi), hi)
    ensures LastBreak(data, lo, hi) > lo ==> data[LastBreak(data, lo, hi) - 1] == LF
    decreases hi - lo
  {
    if lo < hi && data[hi - 1] != LF { LastBreakMeans(data, lo, hi - 1); }
  }

  lemma {:induction false} LastBreakUnique(data: Bytes, lo: nat, hi: nat, n: nat)
    requires lo <= n <= hi <= |data| && Unbroken(data, n, hi) && (n > lo ==> data[n - 1] == LF)
    ensures LastBreak(data, lo, hi) == n
    decreases hi - lo
  {
    if n < hi { LastBreakUnique(data, lo, hi - 1, n); }
  }

  /** Pieces of a window from its last to its first, without line feeds. */
  function Back(data: Bytes, hi: nat, base: nat, skip: bool): seq<RawRow>
    requires hi <= |data|
    decreases hi
  {
    var m := LastBreak(data, 0, hi);
    (if skip then [] else Visible(base + m, data[m..hi]))
    + (if m == 0 then [] else Back(data, m - 1, base, false))
  }

  function SegmentBack(data: Bytes, base: nat, limit: nat): seq<RawRow> {
    if base >= limit then []
    else
      var end := Min(|data|, limit - base);
      if end == 0 then [] else Back(data, end, base, end < |data| && data[end - 1] != LF)
  }

  function Total(segments: seq<Bytes>, k: nat): nat
    requires k <= |segments|
  {
    if k == 0 then 0 else Total(segments, k - 1) + |segments[k - 1]|
  }

  function AllBack(segments: seq<Bytes>, k: nat, limit: nat): seq<RawRow>
    requires k <= |segments|
  {
    if k == 0 then []
    else SegmentBack(segments[k - 1], Total(segments, k - 1), limit) + AllBack(segments, k - 1, limit)
  }

  /** `slice::split` on line feeds of one chunk, peeled off the back. */
  function Split(data: Bytes, lo: nat, hi: nat): (parts: seq<Bytes>)
    requires lo <= hi <= |data|
    ensures parts != []
    decreases hi - lo
  {
    var m := LastBreak(data, lo, hi);
    if m == lo then [data[lo..hi]] else Split(data, lo, m - 1) + [data[m..hi]]
  }

  /** Fragments are collected newest chunk first. */
  function Joined(fragments: seq<Bytes>): Bytes {
    if fragments == [] then [] else fragments[|fragments| - 1] + Joined(fragments[..|fragments| - 1])
  }

  /** A line feed inside a chunk fixes the last break of the whole window. */
  lemma BreakInChunk(data: Bytes, lo: nat, mid: nat, hi: nat)
    requires lo <= mid <= hi <= |data| && Unbroken(data, mid, hi)
    requires LastBreak(data, lo, mid) > lo
    ensures LastBreak(data, 0, hi) == LastBreak(data, lo, mid)
  {
    LastBreakMeans(data, lo, mid);
    LastBreakUnique(data, 0, hi, LastBreak(data, lo, mid));
  }

  lemma BackStep(data: Bytes, hi: nat, base: nat, skip: bool, m: nat)
    requires hi <= |data| && m == LastBreak(data, 0, hi)
    ensures Back(data, hi, base, skip)
         == (if skip then [] else Visible(base + m, data[m..hi])) + (if m == 0 then [] else Back(data, m - 1, base, false))
  {
    hide LastBreak, Visible;
  }

  lemma SplitLast(data: Bytes, lo: nat, hi: nat)
    requires lo <= hi <= |data| && |Split(data, lo, hi)| > 1
    ensures var m, parts := LastBreak(data, lo, hi), Split(data, lo, hi);
      && m > lo && parts[|parts| - 1] == data[m..hi]
      && parts[..|parts| - 1] == Split(data, lo, m - 1)
  {
  }

  lemma SplitOne(data: Bytes, lo: nat, hi: nat)
    requires lo <= hi <= |data| && |Split(data, lo, hi)| == 1
    ensures Split(data, lo, hi) == [data[lo..hi]] && Unbroken(data, lo, hi)
  {
    LastBreakMeans(data, lo, hi);
  }

  /** The complete pieces of one chunk after its last piece was dealt with. */
  method OfferParts<S>(data: Bytes, base: nat, pos: nat, parts: seq<Bytes>, partEnd: nat,
                       f: Visitor<S>, init: S, ghost later: seq<RawRow>)
    returns (s: S, more: bool, ghost e: nat)
    requires pos <= partEnd <= |data| && parts == Split(data, pos, partEnd)
    ensures more ==> pos <= e <= partEnd && parts[0] == data[pos..e] && Unbroken(data, pos, e)
    ensures FoldUntil(f, init, Back(data, partEnd, base, false) + later)
         == if more then FoldUntil(f, s, Back(data, e, base, false) + later) else s
  {
    hide FoldUntil, Back, Split, LastBreak, Visible;
    s, more := init, true;
    var j: nat, end: nat := |parts| - 1, partEnd;
    assert parts[..j + 1] == parts;
    ghost var todo := Back(data, partEnd, base, false);
    ghost var goal := FoldUntil(f, init, todo + later);
    while j > 0
      invariant 0 <= j < |parts| && pos <= end <= partEnd
      invariant parts[..j + 1] == Split(data, pos, end)
      invariant todo == Back(data, end, base, false)
      invariant goal == FoldUntil(f, s, todo + later)
    {
      var raw := parts[j];
      SplitLast(data, pos, end);
      assert parts[..j + 1][..j] == parts[..j] && parts[..j + 1][j] == raw;
      BreakInChunk(data, pos, end, end);
      var start := end - |raw|;
      BackStep(data, end, base, false, start);
      todo := Back(data, start - 1, base, false);
      assert (Visible(base + start, raw) + todo) + later == Visible(base + start, raw) + (todo + later);
      s, more := Offer(f, s, base + start, raw, todo + later);
      if !more { return s, false, 0; }
      end := start - 1;
      j := j - 1;
    }
    assert parts[..1] == [parts[0]];
    SplitOne(data, pos, end);
    e := end;
  }

  /** `reverse`: rows from last to first, read in chunks from the end of each segment. */
  method Reverse<S>(segments: seq<Bytes>, limit: nat, chunk: nat, f: Visitor<S>, init: S) returns (s: S)
    requires chunk > 0
    ensures s == FoldUntil(f, init, AllBack(segments, |segments|, limit))
  {
    hide FoldUntil, SegmentBack;
    s := init;
    var k := |segments|;
    var base := Total(segments, k);
    ghost var todo := AllBack(segments, k, limit);
    ghost var goal := FoldUntil(f, init, todo);
    while k > 0
      invariant 0 <= k <= |segments| && base == Total(segments, k)
      invariant todo == AllBack(segments, k, limit)
      invariant goal == FoldUntil(f, s, todo)
    {
      k := k - 1;
      base := base - |segments[k]|;
      todo := AllBack(segments, k, limit);
      var more: bool;
      s, more := ReverseSegment(segments[k], base, limit, chunk, f, s, todo);
      if !more { return; }
    }
    FoldDone(f, s);
  }

  method ReverseSegment<S>(data: Bytes, base: nat, limit: nat, chunk: nat, f: Visitor<S>, init: S,
                           ghost later: seq<RawRow>)
    returns (s: S, more: bool)
    requires chunk > 0
    ensures FoldUntil(f, init, SegmentBack(data, base, limit) + later)
         == if more then FoldUntil(f, s, later) else s
  {
    hide FoldUntil, Back, Split, LastBreak, Visible, Joined, Unbroken;
    s, more := init, true;
    assert [] + later == later;
    if base >= limit { return; }
    var end := Min(|data|, limit - base);
    if end == 0 { return; }
    var skip := end < |data| && data[end - 1] != LF;
    var pos: nat := end;
    var fragments: seq<Bytes> := [];
    ghost var e: nat := end;
    assert data[end..end] == [];
    UnbrokenJoin(data, end, end, end);
    JoinedNone();
    ghost var goal := FoldUntil(f, init, Back(data, end, base, skip) + later);
    while pos > 0
      invariant pos <= e <= end
      invariant Joined(fragments) == data[pos..e] && Unbroken(data, pos, e)
      invariant goal == FoldUntil(f, s, Back(data, e, base, skip) + later)
    {
      var top := pos;
      pos := pos - Min(chunk, pos);
      s, more, skip, fragments, e := ReverseChunk(data, base, pos, top, fragments, e, skip, f, s, later);
      if !more { return; }
    }
    var raw := Joined(fragments);
    LastBreakUnique(data, 0, e, 0);
    BackStep(data, e, base, skip, 0);
    assert Visible(base, raw) + [] == Visible(base, raw);
    if !skip {
      s, more := Offer(f, s, base, raw, later);
    }
  }

  /** One chunk: its last piece completes the fragments read so far, its first piece becomes
      the new fragment, and those between are whole rows. */
  method ReverseChunk<S>(data: Bytes, base: nat, pos: nat, top: nat, fragments: seq<Bytes>, ghost e: nat, skip: bool,
                         f: Visitor<S>, init: S, ghost later: seq<RawRow>)
    returns (s: S, more: bool, skip': bool, fragments': seq<Bytes>, ghost e': nat)
    requires pos < top <= e <= |data|
    requires Joined(fragments) == data[top..e] && Unbroken(data, top, e)
    ensures more ==> pos <= e' <= e && Joined(fragments') == data[pos..e'] && Unbroken(data, pos, e')
    ensures FoldUntil(f, init, Back(data, e, base, skip) + later)
         == if more then FoldUntil(f, s, Back(data, e', base, skip') + later) else s
  {
    hide FoldUntil, Back, Split, LastBreak, Visible, Joined, Unbroken;
    s, more, skip', e' := init, true, skip, e;
    var parts := Split(data, pos, top);
    var last := parts[|parts| - 1];
    JoinedPush(fragments, last);
    fragments' := fragments + [last];
    if |parts| == 1 {
      SplitOne(data, pos, top);
      UnbrokenJoin(data, pos, top, e);
      return;
    }
    var raw := Joined(fragments');
    var at := top - |last|;
    SplitLast(data, pos, top);
    BreakInChunk(data, pos, top, e);
    BackStep(data, e, base, skip, at);
    assert raw == data[at..e];
    ghost var todo := Back(data, at - 1, base, false);
    if skip {
      skip' := false;
      assert [] + todo == todo;
    } else {
      assert (Visible(base + at, raw) + todo) + later == Visible(base + at, raw) + (todo + later);
      s, more := Offer(f, s, base + at, raw, todo + later);
      if !more { return; }
    }
    s, more, e' := OfferParts(data, base, pos, parts[..|parts| - 1], at - 1, f, s, later);
    if !more { return; }
    fragments' := [parts[0]];
    JoinedOne(parts[0]);
  }

  lemma UnbrokenJoin(data: Bytes, a: nat, b: nat, c: nat)
    requires a <= b <= c <= |data|
    ensures Unbroken(data, c, c)
    ensures Unbroken(data, a, b) && Unbroken(data, b, c) ==> Unbroken(data, a, c)
  {
  }

  lemma JoinedNone()
    ensures Joined([]) == []
  {
  }

  lemma JoinedPush(fragments: seq<Bytes>, last: Bytes)
    ensures Joined(fragments + [last]) == last + Joined(fragments)
  {
    assert (fragments + [last])[..|fragments|] == fragments;
  }

  lemma JoinedOne(s: Bytes)
    ensures Joined([s]) == s
  {
    assert s + [] == s;
  }

  // ---------------------------------------------------------------- backward mirrors forward

  /** A row as the backward reader hands it over: without its line feed. */
  function Bare(row: RawRow): RawRow {
    if row.bytes != [] && row.bytes[|row.bytes| - 1] == LF then row.(bytes := row.bytes[..|row.bytes| - 1]) else row
  }

  function Mirrored(rows: seq<RawRow>): seq<RawRow> {
    if rows == [] then [] else Mirrored(rows[1..]) + [Bare(rows[0])]
  }

  lemma {:induction false} MirroredConcat(a: seq<RawRow>, b: seq<RawRow>)
    ensures Mirrored(a + b) == Mirrored(b) + Mirrored(a)
  {
    if a == [] {
      assert a + b == b;
    } else {
      MirroredConcat(a[1..], b);
      assert (a + b)[1..] == a[1..] + b;
    }
  }

  lemma {:induction false} LineEndUnique(data: Bytes, lo: nat, hi: nat, n: nat)
    requires lo <= n <= hi <= |data| && Unbroken(data, lo, n) && (n < hi ==> data[n] == LF)
    ensures LineEnd(data, lo, hi) == n
    decreases hi - lo
  {
    if lo < n { LineEndUnique(data, lo + 1, hi, n); }
  }

  lemma {:induction false} LineEndMeans(data: Bytes, lo: nat, hi: nat)
    requires lo <= hi <= |data|
    ensures Unbroken(data, lo, LineEnd(data, lo, hi))
    ensures LineEnd(data, lo, hi) < hi ==> data[LineEnd(data, lo, hi)] == LF
    decreases hi - lo
  {
    if lo < hi && data[lo] != LF { LineEndMeans(data, lo + 1, hi); }
  }

  /** A scan splits at any row boundary. */
  lemma {:induction false} LinesSplit(data: Bytes, lo: nat, mid: nat, hi: nat, base: nat, tail: bool)
    requires lo <= mid <= hi <= |data|
    requires mid > lo ==> data[mid - 1] == LF
    ensures Lines(data, lo, hi, base, tail) == Lines(data, lo, mid, base, false) + Lines(data, mid, hi, base, tail)
    decreases hi - lo
  {
    hide Visible, LineEnd;
    if lo == mid {
      EmptyLines(data, lo, base, false);
    } else {
      var n := LineEnd(data, lo, hi);
      LineEndMeans(data, lo, hi);
      assert n < mid;
      LineEndUnique(data, lo, mid, n);
      LinesSplit(data, n + 1, mid, hi, base, tail);
    }
  }

  lemma LastLine(data: Bytes, p: nat, m: nat, base: nat)
    requires p < m <= |data| && Unbroken(data, p, m - 1) && data[m - 1] == LF
    ensures Lines(data, p, m, base, false) == Visible(base + p, data[p..m])
    ensures Mirrored(Visible(base + p, data[p..m])) == Visible(base + p, data[p..m - 1])
  {
    hide LineEnd, Visible, Lines, Mirrored;
    LineEndUnique(data, p, m, m - 1);
    EmptyLines(data, m, base, false);
    NextLine(data, p, m, base, false, m);
    assert data[p..m] == data[p..m - 1] + [LF];
    MirroredLine(base + p, data[p..m - 1]);
  }

  lemma MirroredLine(at: nat, s: Bytes)
    ensures Mirrored(Visible(at, s + [LF])) == Visible(at, s)
  {
    BlankPush(s);
    assert (s + [LF])[..|s|] == s;
    var row := RawRow(at, s + [LF]);
    assert [row][1..] == [];
  }

  lemma BlankPush(s: Bytes)
    ensures Blank(s + [LF]) <==> Blank(s)
  {
    var t := s + [LF];
    if Blank(t) { assert forall i :: 0 <= i < |s| ==> s[i] == t[i]; }
  }

  lemma {:induction false} BackMirrorsComplete(data: Bytes, m: nat, base: nat)
    requires m <= |data| && (m > 0 ==> data[m - 1] == LF)
    ensures Mirrored(Lines(data, 0, m, base, false)) == if m == 0 then [] else Back(data, m - 1, base, false)
    decreases m
  {
    hide Visible, LineEnd, LastBreak, Lines, Back, Mirrored;
    if m == 0 {
      EmptyLines(data, 0, base, false);
      assert Mirrored([]) == [] by { MirroredConcat([], []); MirroredNone(); }
    } else {
      var p := LastBreak(data, 0, m - 1);
      LastBreakMeans(data, 0, m - 1);
      LinesSplit(data, 0, p, m, base, false);
      LastLine(data, p, m, base);
      MirroredConcat(Lines(data, 0, p, base, false), Lines(data, p, m, base, false));
      BackStep(data, m - 1, base, false, p);
      BackMirrorsComplete(data, p, base);
    }
  }

  lemma MirroredNone()
    ensures Mirrored([]) == []
  {
  }

  lemma BackMirrors(data: Bytes, hi: nat, base: nat, tail: bool)
    requires 0 < hi <= |data|
    ensures Back(data, hi, base, !tail && data[hi - 1] != LF) == Mirrored(Lines(data, 0, hi, base, tail))
  {
    hide Visible, LineEnd, LastBreak, Lines, Back, Mirrored;
    var m := LastBreak(data, 0, hi);
    LastBreakMeans(data, 0, hi);
    LinesSplit(data, 0, m, hi, base, tail);
    MirroredConcat(Lines(data, 0, m, base, false), Lines(data, m, hi, base, tail));
    BackStep(data, hi, base, !tail && data[hi - 1] != LF, m);
    BackMirrorsComplete(data, m, base);
    Remainder(data, m, hi, base, tail);
    if m < hi { assert data[hi - 1] != LF; }
  }

  lemma Remainder(data: Bytes, m: nat, hi: nat, base: nat, tail: bool)
    requires m <= hi <= |data| && Unbroken(data, m, hi)
    ensures Mirrored(Lines(data, m, hi, base, tail)) == if tail then Visible(base + m, data[m..hi]) else []
    ensures m == hi ==> Visible(base + m, data[m..hi]) == []
  {
    LineEndUnique(data, m, hi, hi);
  }

  lemma {:induction false} RowsPrefix(segments: seq<Bytes>, k: nat, limit: nat, tail: bool)
    requires k <= |segments|
    ensures Rows(segments, limit, 0, tail)
         == RowsUpTo(segments, k, limit, tail) + RowsFrom(segments, k, Total(segments, k), limit, 0, tail)
  {
    hide SegmentRows;
    if k > 0 { RowsPrefix(segments, k - 1, limit, tail); }
  }

  function RowsUpTo(segments: seq<Bytes>, k: nat, limit: nat, tail: bool): seq<RawRow>
    requires k <= |segments|
  {
    if k == 0 then []
    else RowsUpTo(segments, k - 1, limit, tail) + SegmentRows(segments[k - 1], Total(segments, k - 1), limit, 0, tail)
  }

  lemma {:induction false} AllBackMirrors(segments: seq<Bytes>, k: nat, limit: nat)
    requires k <= |segments|
    ensures AllBack(segments, k, limit) == Mirrored(RowsUpTo(segments, k, limit, true))
  {
    hide Back, Lines, Mirrored;
    if k == 0 {
      MirroredNone();
    } else {
      var data, base := segments[k - 1], Total(segments, k - 1);
      AllBackMirrors(segments, k - 1, limit);
      MirroredConcat(RowsUpTo(segments, k - 1, limit, true), SegmentRows(data, base, limit, 0, true));
      MirroredNone();
      if base < limit && Min(|data|, limit - base) > 0 {
        BackMirrors(data, Min(|data|, limit - base), base, Min(|data|, limit - base) == |data|);
      }
    }
  }

  /** `reverse` visits exactly the rows and offsets of the forward scan, last first. */
  lemma ReverseMirrorsVisit(segments: seq<Bytes>, limit: nat)
    ensures AllBack(segments, |segments|, limit) == Mirrored(Rows(segments, limit, 0, true))
  {
    RowsPrefix(segments, |segments|, limit, true);
    assert RowsUpTo(segments, |segments|, limit, true) + [] == RowsUpTo(segments, |segments|, limit, true);
    AllBackMirrors(segments, |segments|, limit);
  }

  // ---------------------------------------------------------------- restarting at a row

  ghost predicate OffsetsAscend(rows: seq<RawRow>, lo: nat, hi: nat) {
    && (forall i :: 0 <= i < |rows| ==> lo <= rows[i].offset < hi)
    && (forall i, j :: 0 <= i < j < |rows| ==> rows[i].offset < rows[j].offset)
  }

  /** Where a scan may start without cutting a row in two. */
  predicate Boundary(segments: seq<Bytes>, k: nat, base: nat, at: nat)
    requires k <= |segments|
    decreases |segments| - k
  {
    k == |segments| || at <= base
    || (if at < base + |segments[k]| then segments[k][at - base - 1] == LF
        else Boundary(segments, k + 1, base + |segments[k]|, at))
  }

  lemma AscendConcat(a: seq<RawRow>, b: seq<RawRow>, lo: nat, mid: nat, hi: nat)
    requires OffsetsAscend(a, lo, mid) && OffsetsAscend(b, mid, hi) && lo <= mid <= hi
    ensures OffsetsAscend(a + b, lo, hi)
  {
  }

  lemma {:induction false} LineOffsets(data: Bytes, lo: nat, hi: nat, base: nat, tail: bool)
    requires lo <= hi <= |data|
    ensures OffsetsAscend(Lines(data, lo, hi, base, tail), base + lo, base + hi)
    decreases hi - lo
  {
    hide Blank, LineEnd;
    var n := LineEnd(data, lo, hi);
    if n < hi {
      LineOffsets(data, n + 1, hi, base, tail);
      AscendConcat(Visible(base + lo, data[lo..n + 1]), Lines(data, n + 1, hi, base, tail), base + lo, base + n + 1, base + hi);
    } else if lo == hi {
      EmptyLines(data, lo, base, tail);
    }
  }

  lemma {:induction false} LineStarts(data: Bytes, lo: nat, hi: nat, base: nat, tail: bool, i: nat)
    requires lo <= hi <= |data| && i < |Lines(data, lo, hi, base, tail)|
    ensures var o := Lines(data, lo, hi, base, tail)[i].offset;
      base + lo <= o < base + hi && (o == base + lo || data[o - base - 1] == LF)
    decreases hi - lo
  {
    hide Blank, LineEnd, Lines;
    LineOffsets(data, lo, hi, base, tail);
    var n := LineEnd(data, lo, hi);
    if lo < hi {
      LineEndMeans(data, lo, hi);
      NextLine(data, lo, hi, base, tail, Min(n + 1, hi));
      var first := Visible(base + lo, data[lo..Min(n + 1, hi)]);
      if n < hi && i >= |first| {
        LineStarts(data, n + 1, hi, base, tail, i - |first|);
      } else if n == hi {
        EmptyLines(data, hi, base, tail);
      }
    } else {
      EmptyLines(data, lo, base, tail);
    }
  }

  lemma {:induction false} RowOffsets(segments: seq<Bytes>, k: nat, base: nat, limit: nat, start: nat, tail: bool)
    requires k <= |segments|
    ensures OffsetsAscend(RowsFrom(segments, k, base, limit, start, tail), base, if base <= limit then limit else base)
    decreases |segments| - k
  {
    hide SegmentRows, RowsFrom;
    RowsStep(segments, k, base, limit, start, tail);
    if k < |segments| {
      var data := segments[k];
      var next := base + |data|;
      RowOffsets(segments, k + 1, next, limit, start, tail);
      if base >= limit {
        PastLimit(segments, k, base, limit, start, tail);
      } else {
        SegmentOffsets(data, base, limit, start, tail);
        if next >= limit { PastLimit(segments, k + 1, next, limit, start, tail); }
        AscendConcat(SegmentRows(data, base, limit, start, tail), RowsFrom(segments, k + 1, next, limit, start, tail),
                     base, base + Min(|data|, limit - base), limit);
      }
    }
  }

  lemma SegmentOffsets(data: Bytes, base: nat, limit: nat, start: nat, tail: bool)
    requires base < limit
    ensures OffsetsAscend(SegmentRows(data, base, limit, start, tail), base, base + Min(|data|, limit - base))
  {
    hide Lines;
    var hi, lo := Min(|data|, limit - base), if start <= base then 0 else start - base;
    if lo < hi { LineOffsets(data, lo, hi, base, tail && hi == |data|); }
  }

  lemma {:induction false} RowBoundary(segments: seq<Bytes>, k: nat, base: nat, limit: nat, tail: bool, i: nat)
    requires k <= |segments| && i < |RowsFrom(segments, k, base, limit, 0, tail)|
    ensures Boundary(segments, k, base, RowsFrom(segments, k, base, limit, 0, tail)[i].offset)
    decreases |segments| - k
  {
    hide Lines;
    var data, rest := segments[k], RowsFrom(segments, k + 1, base + |segments[k]|, limit, 0, tail);
    var own := SegmentRows(data, base, limit, 0, tail);
    if i < |own| {
      LineStarts(data, 0, Min(|data|, limit - base), base, tail && Min(|data|, limit - base) == |data|, i);
    } else {
      RowBoundary(segments, k + 1, base + |data|, limit, tail, i - |own|);
      RowOffsets(segments, k + 1, base + |data|, limit, 0, tail);
    }
  }

  predicate OffsetsBelow(rows: seq<RawRow>, at: nat) { forall i :: 0 <= i < |rows| ==> rows[i].offset < at }

  predicate OffsetsFrom(rows: seq<RawRow>, at: nat) { forall i :: 0 <= i < |rows| ==> rows[i].offset >= at }

  lemma RestartSegment(data: Bytes, base: nat, limit: nat, at: nat, tail: bool) returns (before: seq<RawRow>)
    requires at > base && (at < base + |data| ==> data[at - base - 1] == LF)
    ensures SegmentRows(data, base, limit, 0, tail) == before + SegmentRows(data, base, limit, at, tail)
    ensures OffsetsBelow(before, at) && OffsetsFrom(SegmentRows(data, base, limit, at, tail), at)
  {
    hide Lines;
    before := SegmentRows(data, base, limit, 0, tail);
    if base < limit {
      var hi, lo := Min(|data|, limit - base), at - base;
      var t := tail && hi == |data|;
      if lo < hi {
        LinesSplit(data, 0, lo, hi, base, t);
        before := Lines(data, 0, lo, base, false);
        LineOffsets(data, 0, lo, base, false);
        LineOffsets(data, lo, hi, base, t);
      } else if 0 < hi {
        LineOffsets(data, 0, hi, base, t);
      }
    }
  }

  /** From a row boundary a scan yields exactly the rows at or after it. */
  lemma {:induction false} Restart(segments: seq<Bytes>, k: nat, base: nat, limit: nat, at: nat, tail: bool)
    returns (before: seq<RawRow>)
    requires k <= |segments| && Boundary(segments, k, base, at)
    ensures RowsFrom(segments, k, base, limit, 0, tail) == before + RowsFrom(segments, k, base, limit, at, tail)
    ensures OffsetsBelow(before, at) && OffsetsFrom(RowsFrom(segments, k, base, limit, at, tail), at)
    decreases |segments| - k
  {
    hide SegmentRows, RowsFrom;
    before := [];
    if at <= base {
      StartIrrelevant(segments, k, base, limit, at, tail);
      RowOffsets(segments, k, base, limit, at, tail);
      assert before + RowsFrom(segments, k, base, limit, at, tail) == RowsFrom(segments, k, base, limit, at, tail);
    } else {
      RowsStep(segments, k, base, limit, 0, tail);
      RowsStep(segments, k, base, limit, at, tail);
      if k < |segments| {
        var data := segments[k];
        var next := base + |data|;
        var own, later := SegmentRows(data, base, limit, at, tail), RowsFrom(segments, k + 1, next, limit, at, tail);
        before := RestartSegment(data, base, limit, at, tail);
        if at < next {
          StartIrrelevant(segments, k + 1, next, limit, at, tail);
          RowOffsets(segments, k + 1, next, limit, at, tail);
          assert before + (own + later) == (before + own) + later;
        } else {
          RestartSegmentPast(data, base, limit, at, tail);
          var b := Restart(segments, k + 1, next, limit, at, tail);
          assert (before + []) + (b + later) == (before + b) + ([] + later);
          before := before + b;
        }
      }
    }
  }

  lemma RowsStep(segments: seq<Bytes>, k: nat, base: nat, limit: nat, start: nat, tail: bool)
    requires k <= |segments|
    ensures RowsFrom(segments, k, base, limit, start, tail)
         == if k == |segments| then [] else
              SegmentRows(segments[k], base, limit, start, tail)
              + RowsFrom(segments, k + 1, base + |segments[k]|, limit, start, tail)
  {
  }

  lemma RestartSegmentPast(data: Bytes, base: nat, limit: nat, at: nat, tail: bool)
    requires at >= base + |data|
    ensures SegmentRows(data, base, limit, at, tail) == []
  {
  }

  lemma {:induction false} StartIrrelevant(segments: seq<Bytes>, k: nat, base: nat, limit: nat, start: nat, tail: bool)
    requires k <= |segments| && start <= base
    ensures RowsFrom(segments, k, base, limit, start, tail) == RowsFrom(segments, k, base, limit, 0, tail)
    decreases |segments| - k
  {
    hide Lines;
    if k < |segments| { StartIrrelevant(segments, k + 1, base + |segments[k]|, limit, start, tail); }
  }

  /** Starting at the i-th row's offset yields the rows from the i-th on. */
  lemma RestartAtRow(segments: seq<Bytes>, limit: nat, tail: bool, i: nat)
    requires i < |Rows(segments, limit, 0, tail)|
    ensures Rows(segments, limit, Rows(segments, limit, 0, tail)[i].offset, tail) == Rows(segments, limit, 0, tail)[i..]
  {
    hide RowsFrom;
    var all := Rows(segments, limit, 0, tail);
    var at := all[i].offset;
    RowBoundary(segments, 0, 0, limit, tail, i);
    RowOffsets(segments, 0, 0, limit, 0, tail);
    var before := Restart(segments, 0, 0, limit, at, tail);
    var from := Rows(segments, limit, at, tail);
    assert all == before + from;
    assert forall j :: 0 <= j < |before| ==> all[j] == before[j];
    assert forall j :: |before| <= j < |all| ==> all[j] == from[j - |before|];
    assert |before| < |all| ==> all[|before|] == from[0];
    assert |before| == i;
  }

  /** A row boundary cuts a scan into a snapshot below it and a scan from it. */
  lemma {:induction false} Cut(segments: seq<Bytes>, k: nat, base: nat, limit: nat, at: nat)
    requires k <= |segments| && Boundary(segments, k, base, at) && at <= limit
    ensures RowsFrom(segments, k, base, limit, 0, true)
         == RowsFrom(segments, k, base, at, 0, true) + RowsFrom(segments, k, base, limit, at, true)
    decreases |segments| - k
  {
    hide SegmentRows, RowsFrom;
    if at <= base {
      PastLimit(segments, k, base, at, 0, true);
      StartIrrelevant(segments, k, base, limit, at, true);
      assert [] + RowsFrom(segments, k, base, limit, 0, true) == RowsFrom(segments, k, base, limit, 0, true);
    } else {
      RowsStep(segments, k, base, limit, 0, true);
      RowsStep(segments, k, base, at, 0, true);
      RowsStep(segments, k, base, limit, at, true);
      if k < |segments| {
        var data, next := segments[k], base + |segments[k]|;
        var own, later := SegmentRows(data, base, limit, at, true), RowsFrom(segments, k + 1, next, limit, at, true);
        var below := SegmentRows(data, base, at, 0, true);
        CutSegment(data, base, limit, at);
        if at < next {
          PastLimit(segments, k + 1, next, at, 0, true);
          StartIrrelevant(segments, k + 1, next, limit, at, true);
          assert (below + own) + later == (below + []) + (own + later);
        } else {
          Cut(segments, k + 1, next, limit, at);
          RestartSegmentPast(data, base, limit, at, true);
          var b := RowsFrom(segments, k + 1, next, at, 0, true);
          assert (below + []) + (b + later) == (below + b) + ([] + later);
        }
      }
    }
  }

  lemma CutSegment(data: Bytes, base: nat, limit: nat, at: nat)
    requires base < at <= limit && (at < base + |data| ==> data[at - base - 1] == LF)
    ensures SegmentRows(data, base, limit, 0, true)
         == SegmentRows(data, base, at, 0, true) + SegmentRows(data, base, limit, at, true)
  {
    hide Lines;
    var lo, hi := at - base, Min(|data|, limit - base);
    if lo < |data| {
      if lo < hi { LinesSplit(data, 0, lo, hi, base, hi == |data|); }
    } else {
      var all := SegmentRows(data, base, limit, 0, true);
      assert all + [] == all;
    }
    if lo == hi && lo < |data| {
      var all := SegmentRows(data, base, limit, 0, true);
      assert all + [] == all;
    }
  }

  /** A snapshot ending where the i-th row starts holds exactly the rows before it. */
  lemma SnapshotAtRow(segments: seq<Bytes>, limit: nat, i: nat)
    requires i < |Rows(segments, limit, 0, true)|
    ensures Rows(segments, Rows(segments, limit, 0, true)[i].offset, 0, true) == Rows(segments, limit, 0, true)[..i]
  {
    hide RowsFrom;
    var all := Rows(segments, limit, 0, true);
    var at := all[i].offset;
    RowBoundary(segments, 0, 0, limit, true, i);
    RowOffsets(segments, 0, 0, limit, 0, true);
    RowOffsets(segments, 0, 0, at, 0, true);
    Cut(segments, 0, 0, limit, at);
    RestartAtRow(segments, limit, true, i);
    var below := Rows(segments, at, 0, true);
    assert all == below + all[i..];
    assert all == all[..i] + all[i..];
    assert |below| == i;
    assert below == (below + all[i..])[..i];
  }
}
