/** Which rows a scan of a segmented log yields, byte by byte. */
module RowMeaning {
  import opened LogRows

  /** The bytes `from` to `to` are one line of the window `lo` to `hi`, and not all white space. */
  ghost predicate Line(data: Bytes, lo: nat, hi: nat, tail: bool, from: nat, to: nat)
    requires hi <= |data|
  {
    && lo <= from < to <= hi
    && (from > lo ==> data[from - 1] == 10)
    && (forall i :: from <= i < to - 1 ==> data[i] != 10)
    && (data[to - 1] == 10 || (tail && to == hi))
    && exists i :: from <= i < to && data[i] !in {9, 10, 12, 13, 32}
  }

  ghost predicate LineAt(data: Bytes, lo: nat, hi: nat, base: nat, tail: bool, r: RawRow, from: nat, to: nat)
    requires hi <= |data|
  {
    Line(data, lo, hi, tail, from, to) && r == RawRow(base + from, data[from..to])
  }

  lemma {:induction false} LinesExactly(data: Bytes, lo: nat, hi: nat, base: nat, tail: bool, r: RawRow)
    requires lo <= hi <= |data|
    ensures r in Lines(data, lo, hi, base, tail) <==> exists from: nat, to: nat :: LineAt(data, lo, hi, base, tail, r, from, to)
    decreases hi - lo
  {
    hide Visible, LineAt, Lines;
    if lo == hi {
      EmptyLines(data, lo, base, tail);
      forall from: nat, to: nat ensures !LineAt(data, lo, hi, base, tail, r, from, to) { NoLine(data, lo, base, tail, r, from, to); }
    } else {
      var end := LineEnd(data, lo, hi);
      var next := Min(end + 1, hi);
      LineEndMeans(data, lo, hi);
      NextLine(data, lo, hi, base, tail, next);
      if end == hi {
        EmptyLines(data, hi, base, tail);
      } else {
        LinesExactly(data, next, hi, base, tail, r);
      }
      forall from: nat, to: nat
        ensures LineAt(data, lo, hi, base, tail, r, from, to) <==>
          (from == lo && to == next && (end < hi || tail) && r in Visible(base + lo, data[lo..next]))
          || (end < hi && LineAt(data, next, hi, base, tail, r, from, to))
      {
        FirstOrLater(data, lo, hi, base, tail, r, end, from, to);
      }
      assert (end < hi || tail) && r in Visible(base + lo, data[lo..next]) ==> LineAt(data, lo, hi, base, tail, r, lo, next);
    }
  }

  lemma NoLine(data: Bytes, at: nat, base: nat, tail: bool, r: RawRow, from: nat, to: nat)
    requires at <= |data|
    ensures !LineAt(data, at, at, base, tail, r, from, to)
  {
  }

  lemma FirstOrLater(data: Bytes, lo: nat, hi: nat, base: nat, tail: bool, r: RawRow, end: nat, from: nat, to: nat)
    requires lo <= end <= hi <= |data| && lo < hi && Unbroken(data, lo, end) && (end < hi ==> data[end] == LF)
    ensures var next := Min(end + 1, hi);
      LineAt(data, lo, hi, base, tail, r, from, to) <==>
        (from == lo && to == next && (end < hi || tail) && r in Visible(base + lo, data[lo..next]))
        || (end < hi && LineAt(data, next, hi, base, tail, r, from, to))
  {
    var next := Min(end + 1, hi);
    if lo <= from < to <= hi {
      BlankExactly(data, from, to);
    }
  }

  lemma BlankExactly(data: Bytes, from: nat, to: nat)
    requires from <= to <= |data|
    ensures Blank(data[from..to]) <==> !exists i :: from <= i < to && data[i] !in {9, 10, 12, 13, 32}
  {
    assert forall i :: from <= i < to ==> data[from..to][i - from] == data[i];
  }

  /** That line lies in segment `k`, at or after `start`, in the part of it below `limit`; only a
      segment seen to its end can have a torn line. */
  ghost predicate RowAt(segments: seq<Bytes>, limit: nat, start: nat, tail: bool, r: RawRow, k: nat, from: nat, to: nat) {
    && k < |segments| && Total(segments, k) < limit
    && var data, base := segments[k], Total(segments, k);
       var hi, lo := Min(|data|, limit - base), if start <= base then 0 else start - base;
       LineAt(data, lo, hi, base, tail && hi == |data|, r, from, to)
  }

  ghost predicate RowIn(segments: seq<Bytes>, limit: nat, start: nat, tail: bool, r: RawRow, k: nat) {
    exists from: nat, to: nat :: RowAt(segments, limit, start, tail, r, k, from, to)
  }

  lemma SegmentExactly(segments: seq<Bytes>, limit: nat, start: nat, tail: bool, r: RawRow, k: nat)
    requires k < |segments|
    ensures r in SegmentRows(segments[k], Total(segments, k), limit, start, tail) <==> RowIn(segments, limit, start, tail, r, k)
  {
    hide LineAt, Lines;
    var data, base := segments[k], Total(segments, k);
    if base < limit {
      var hi, lo := Min(|data|, limit - base), if start <= base then 0 else start - base;
      var torn := tail && hi == |data|;
      if lo < hi {
        LinesExactly(data, lo, hi, base, torn, r);
      }
      forall from: nat, to: nat
        ensures RowAt(segments, limit, start, tail, r, k, from, to) <==> LineAt(data, lo, hi, base, torn, r, from, to)
        ensures lo >= hi ==> !LineAt(data, lo, hi, base, torn, r, from, to)
      {
        if lo >= hi { EmptyWindow(data, lo, hi, base, torn, r, from, to); }
      }
    }
  }

  lemma EmptyWindow(data: Bytes, lo: nat, hi: nat, base: nat, tail: bool, r: RawRow, from: nat, to: nat)
    requires hi <= lo && hi <= |data|
    ensures !LineAt(data, lo, hi, base, tail, r, from, to)
  {
  }

  lemma {:induction false} LaterRows(segments: seq<Bytes>, k: nat, limit: nat, start: nat, tail: bool, r: RawRow)
    requires k <= |segments|
    ensures r in RowsFrom(segments, k, Total(segments, k), limit, start, tail) <==>
      exists i: nat :: k <= i < |segments| && RowIn(segments, limit, start, tail, r, i)
    decreases |segments| - k
  {
    hide SegmentRows, RowIn;
    if k < |segments| {
      assert Total(segments, k + 1) == Total(segments, k) + |segments[k]|;
      SegmentExactly(segments, limit, start, tail, r, k);
      LaterRows(segments, k + 1, limit, start, tail, r);
    }
  }

  /** A scan yields exactly those lines, in the order of their offsets. */
  lemma RowsExactly(segments: seq<Bytes>, limit: nat, start: nat, tail: bool)
    ensures var rows := Rows(segments, limit, start, tail);
      && (forall r :: r in rows <==> exists k: nat :: RowIn(segments, limit, start, tail, r, k))
      && forall i, j :: 0 <= i < j < |rows| ==> rows[i].offset < rows[j].offset
  {
    hide RowsFrom, RowIn;
    var rows := Rows(segments, limit, start, tail);
    forall r
      ensures r in rows <==> exists k: nat :: RowIn(segments, limit, start, tail, r, k)
    {
      LaterRows(segments, 0, limit, start, tail, r);
      forall k: nat | RowIn(segments, limit, start, tail, r, k) ensures k < |segments| {
        RowInside(segments, limit, start, tail, r, k);
      }
    }
    RowOffsets(segments, 0, 0, limit, start, tail);
  }

  lemma RowInside(segments: seq<Bytes>, limit: nat, start: nat, tail: bool, r: RawRow, k: nat)
    requires RowIn(segments, limit, start, tail, r, k)
    ensures k < |segments|
  {
  }
}
