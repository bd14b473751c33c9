/** The viewer's index of a growing log: an incremental scan of complete rows, and why
    refreshing as the log grows gives what one scan of the whole log gives. */
module ViewerIndex {
  import opened Results
  import opened Decimals
  import opened LogRows

  // ---------------------------------------------------------------- scanning complete rows

  /** `visit_rows_from`: the complete rows from `start` on; an unterminated one ends the scan. */
  function Complete(segments: seq<Bytes>, k: nat, base: nat, start: nat): seq<RawRow>
    requires k <= |segments|
    decreases |segments| - k
  {
    if k == |segments| then []
    else
      var data := segments[k];
      var lo := if start <= base then 0 else start - base;
      if |data| <= lo then Complete(segments, k + 1, base + |data|, start)
      else
        var hi := LastBreak(data, lo, |data|);
        Lines(data, lo, hi, base, false) + if hi < |data| then [] else Complete(segments, k + 1, base + |data|, start)
  }

  /** How far that scan gets: the end of the last complete line. */
  function Reached(segments: seq<Bytes>, k: nat, base: nat, start: nat, boundary: nat): nat
    requires k <= |segments|
    decreases |segments| - k
  {
    if k == |segments| then boundary
    else
      var data := segments[k];
      var lo := if start <= base then 0 else start - base;
      if |data| <= lo then Reached(segments, k + 1, base + |data|, start, boundary)
      else
        var hi := LastBreak(data, lo, |data|);
        var here := if hi > lo then base + hi else boundary;
        if hi < |data| then here else Reached(segments, k + 1, base + |data|, start, here)
  }

  function Folded<S>(f: (S, RawRow) -> S, s: S, rows: seq<RawRow>): S {
    if rows == [] then s else Folded(f, f(s, rows[0]), rows[1..])
  }

  lemma {:induction false} FoldedConcat<S>(f: (S, RawRow) -> S, s: S, a: seq<RawRow>, b: seq<RawRow>)
    ensures Folded(f, s, a + b) == Folded(f, Folded(f, s, a), b)
    decreases |a|
  {
    if a == [] {
      assert a + b == b;
    } else {
      FoldedConcat(f, f(s, a[0]), a[1..], b);
      assert (a + b)[1..] == a[1..] + b;
    }
  }

  /** A visitor handed rows until it fails, and whether it never did. */
  function Visited<S>(f: Visitor<S>, s: S, rows: seq<RawRow>): (S, bool) {
    if rows == [] then (s, true)
    else
      var (t, ok) := f(s, rows[0]);
      if ok then Visited(f, t, rows[1..]) else (t, false)
  }

  lemma {:induction false} VisitedConcat<S>(f: Visitor<S>, s: S, a: seq<RawRow>, b: seq<RawRow>)
    ensures Visited(f, s, a + b)
         == if Visited(f, s, a).1 then Visited(f, Visited(f, s, a).0, b) else Visited(f, s, a)
    decreases |a|
  {
    if a == [] {
      assert a + b == b;
    } else {
      VisitedConcat(f, f(s, a[0]).0, a[1..], b);
      assert (a + b)[1..] == a[1..] + b;
    }
  }

  method VisitRowsFrom<S>(segments: seq<Bytes>, start: nat, f: Visitor<S>, init: S)
    returns (s: S, boundary: nat, ok: bool)
    ensures (s, ok) == Visited(f, init, Complete(segments, 0, 0, start))
    ensures ok ==> boundary == Reached(segments, 0, 0, start, Min(start, Total(segments, |segments|)))
  {
    hide Visited, LastBreak, Lines;
    s, boundary, ok := init, Min(start, Total(segments, |segments|)), true;
    var base: nat, k := 0, 0;
    ghost var end := Reached(segments, 0, 0, start, boundary);
    ghost var goal := Visited(f, init, Complete(segments, 0, 0, start));
    while k < |segments|
      invariant 0 <= k <= |segments| && ok
      invariant goal == Visited(f, s, Complete(segments, k, base, start))
      invariant end == Reached(segments, k, base, start, boundary)
    {
      var data := segments[k];
      if base + |data| <= start {
        base, k := base + |data|, k + 1;
        continue;
      }
      var lo: nat := if start <= base then 0 else start - base;
      var pos: nat;
      ghost var hi := LastBreak(data, lo, |data|);
      ghost var own := Lines(data, lo, hi, base, false);
      ghost var later := if hi < |data| then [] else Complete(segments, k + 1, base + |data|, start);
      VisitedConcat(f, s, own, later);
      if data == [] {
        EmptyLines(data, 0, base, false);
        assert [] + later == later;
      }
      s, pos, ok := VisitLines(data, base, lo, f, s);
      if !ok { return; }
      if pos > lo { boundary := base + pos; }
      if pos < |data| {
        VisitedNone(f, s);
        break;
      }
      base, k := base + |data|, k + 1;
    }
    VisitedNone(f, s);
  }

  lemma VisitedNone<S>(f: Visitor<S>, s: S)
    ensures Visited(f, s, []) == (s, true)
  {
  }

  /** One segment: line by line, up to the first unterminated one. */
  method VisitLines<S>(data: Bytes, base: nat, lo: nat, f: Visitor<S>, init: S) returns (s: S, pos: nat, ok: bool)
    requires lo <= |data|
    ensures ok ==> pos == LastBreak(data, lo, |data|)
    ensures (s, ok) == Visited(f, init, Lines(data, lo, LastBreak(data, lo, |data|), base, false))
  {
    hide Visited, Lines, LineEnd, LastBreak, Visible;
    s, pos, ok := init, lo, true;
    EmptyLines(data, lo, base, false);
    VisitedNone(f, init);
    while pos < |data|
      invariant lo <= pos <= |data| && (pos > lo ==> data[pos - 1] == LF) && ok
      invariant (s, true) == Visited(f, init, Lines(data, lo, pos, base, false))
    {
      var next := ReadUntil(data, pos, |data|);
      if data[next - 1] != LF {
        LineEndMeans(data, pos, |data|);
        LastBreakUnique(data, lo, |data|, pos);
        return;
      }
      LineAdded(data, lo, pos, next, base);
      VisitedConcat(f, init, Lines(data, lo, pos, base, false), Visible(base + pos, data[pos..next]));
      s, ok := VisitLine(f, s, base + pos, data[pos..next]);
      if !ok {
        FailsEarly(f, init, data, lo, next, base);
        return;
      }
      pos := next;
    }
    LastBreakUnique(data, lo, |data|, pos);
  }

  /** A visitor that fails on the first lines fails on all of them. */
  lemma FailsEarly<S>(f: Visitor<S>, init: S, data: Bytes, lo: nat, next: nat, base: nat)
    requires lo <= next <= |data| && (next > lo ==> data[next - 1] == LF)
    requires !Visited(f, init, Lines(data, lo, next, base, false)).1
    ensures Visited(f, init, Lines(data, lo, LastBreak(data, lo, |data|), base, false))
         == Visited(f, init, Lines(data, lo, next, base, false))
  {
    hide Visited, Lines, LastBreak;
    BreakMeans(data, lo);
    var hi := LastBreak(data, lo, |data|);
    LinesSplit(data, lo, next, hi, base, false);
    VisitedConcat(f, init, Lines(data, lo, next, base, false), Lines(data, next, hi, base, false));
  }

  method VisitLine<S>(f: Visitor<S>, s: S, at: nat, line: Bytes) returns (t: S, ok: bool)
    ensures (t, ok) == Visited(f, s, Visible(at, line))
  {
    VisitedNone(f, s);
    t, ok := s, true;
    if !Blank(line) {
      var r := f(s, RawRow(at, line));
      t, ok := r.0, r.1;
      assert [RawRow(at, line)][1..] == [];
    }
  }

  lemma LineAdded(data: Bytes, lo: nat, pos: nat, next: nat, base: nat)
    requires lo <= pos < |data| && next == Min(LineEnd(data, pos, |data|) + 1, |data|) && data[next - 1] == LF
    requires pos > lo ==> data[pos - 1] == LF
    ensures pos < next && Lines(data, lo, next, base, false)
         == Lines(data, lo, pos, base, false) + Visible(base + pos, data[pos..next])
  {
    hide Lines, Visible;
    LineEndMeans(data, pos, |data|);
    LinesSplit(data, lo, pos, next, base, false);
    LineEndUnique(data, pos, next, LineEnd(data, pos, |data|));
    NextLine(data, pos, next, base, false, next);
    EmptyLines(data, next, base, false);
    assert Visible(base + pos, data[pos..next]) + [] == Visible(base + pos, data[pos..next]);
  }

  // ---------------------------------------------------------------- a log that grows

  /** The log has been appended to: its last segment may be longer, and there may be new ones. */
  ghost predicate Extends(before: seq<Bytes>, after: seq<Bytes>) {
    before == [] ||
    (|before| <= |after| && before[..|before| - 1] == after[..|before| - 1] && before[|before| - 1] <= after[|before| - 1])
  }

  /** Past its start, a scan does not depend on where exactly it started. */
  lemma {:induction false} StartPassed(segments: seq<Bytes>, k: nat, base: nat, start: nat, boundary: nat)
    requires k <= |segments| && start <= base
    ensures Complete(segments, k, base, start) == Complete(segments, k, base, 0)
    ensures Reached(segments, k, base, start, boundary) == Reached(segments, k, base, 0, boundary)
    decreases |segments| - k
  {
    hide LastBreak, Lines, Complete, Reached;
    if k < |segments| {
      var data := segments[k];
      var hi := LastBreak(data, 0, |data|);
      ScanStep(segments, k, base, start, boundary);
      ScanStep(segments, k, base, 0, boundary);
      StartPassed(segments, k + 1, base + |data|, start, if |data| > 0 && hi > 0 then base + hi else boundary);
    } else {
      ScanOver(segments, base, start, boundary);
      ScanOver(segments, base, 0, boundary);
    }
  }

  lemma ScanOver(segments: seq<Bytes>, base: nat, start: nat, boundary: nat)
    ensures Complete(segments, |segments|, base, start) == []
    ensures Reached(segments, |segments|, base, start, boundary) == boundary
  {
  }

  /** A scan never falls behind where it begins. */
  lemma {:induction false} ReachedFurther(segments: seq<Bytes>, k: nat, base: nat, boundary: nat)
    requires k <= |segments| && boundary <= base
    ensures boundary <= Reached(segments, k, base, 0, boundary)
    decreases |segments| - k
  {
    hide LastBreak;
    if k < |segments| {
      var data := segments[k];
      var hi := LastBreak(data, 0, |data|);
      if |data| > 0 && hi == |data| { ReachedFurther(segments, k + 1, base + |data|, base + hi); }
      if |data| == 0 { ReachedFurther(segments, k + 1, base, boundary); }
    }
  }

  /** Restarting where a scan of the shorter log ended gives what that scan has not seen. */
  lemma {:induction false} RestartAtBoundary(before: seq<Bytes>, after: seq<Bytes>, k: nat, base: nat)
    requires before != [] && Extends(before, after) && k < |before|
    ensures var b := Reached(before, k, base, 0, base);
      && base <= b
      && Complete(after, k, base, 0) == Complete(before, k, base, 0) + Complete(after, k, base, b)
      && Reached(after, k, base, 0, base) == Reached(after, k, base, b, b)
    decreases |before| - k
  {
    hide LastBreak, Lines, Complete, Reached;
    var b := Reached(before, k, base, 0, base);
    ReachedFurther(before, k, base, base);
    var d, d' := before[k], after[k];
    var n := |before| - 1;
    ScanStep(before, k, base, 0, base);
    ScanStep(after, k, base, 0, base);
    ScanStep(after, k, base, b, b);
    if k < n {
      assert d == before[..n][k] == after[..n][k] == d';
      BreakMeans(d, 0);
      var hi := LastBreak(d, 0, |d|);
      if hi < |d| {
        BreakAgain(d, 0, hi);
        EmptyLines(d, hi, base, false);
        var own := Lines(d, 0, hi, base, false);
        assert own + [] == own;
      } else {
        RestartAtBoundary(before, after, k + 1, base + |d|);
        var own := Lines(d, 0, |d|, base, false);
        var x, y := Complete(before, k + 1, base + |d|, 0), Complete(after, k + 1, base + |d|, b);
        assert (own + x) + y == own + (x + y);
        if d == [] { EmptyLines(d, 0, base, false); assert forall r: seq<RawRow> :: [] + r == r; }
      }
    } else {
      LastGrows(before, after, base, b);
    }
  }

  lemma ScanStep(segments: seq<Bytes>, k: nat, base: nat, start: nat, boundary: nat)
    requires k < |segments|
    ensures var data := segments[k]; var lo := if start <= base then 0 else start - base;
      if |data| <= lo then
        && Complete(segments, k, base, start) == Complete(segments, k + 1, base + |data|, start)
        && Reached(segments, k, base, start, boundary) == Reached(segments, k + 1, base + |data|, start, boundary)
      else
        var hi := LastBreak(data, lo, |data|); var here := if hi > lo then base + hi else boundary;
        && Complete(segments, k, base, start)
           == Lines(data, lo, hi, base, false) + (if hi < |data| then [] else Complete(segments, k + 1, base + |data|, start))
        && Reached(segments, k, base, start, boundary)
           == if hi < |data| then here else Reached(segments, k + 1, base + |data|, start, here)
  {
    hide LastBreak, Lines;
  }

  lemma BreakMeans(data: Bytes, lo: nat)
    requires lo <= |data|
    ensures var hi := LastBreak(data, lo, |data|); Unbroken(data, hi, |data|) && (hi > lo ==> data[hi - 1] == LF)
  {
    LastBreakMeans(data, lo, |data|);
  }

  lemma BreakAgain(data: Bytes, lo: nat, hi: nat)
    requires lo <= hi <= |data| && hi == LastBreak(data, lo, |data|)
    ensures LastBreak(data, hi, |data|) == hi
  {
    BreakMeans(data, lo);
    LastBreakUnique(data, hi, |data|, hi);
  }

  /** The last segment of the shorter log, longer or not, and all later ones. */
  lemma LastGrows(before: seq<Bytes>, after: seq<Bytes>, base: nat, b: nat)
    requires before != [] && Extends(before, after)
    requires b == Reached(before, |before| - 1, base, 0, base)
    ensures var n := |before| - 1;
      && Complete(after, n, base, 0) == Complete(before, n, base, 0) + Complete(after, n, base, b)
      && Reached(after, n, base, 0, base) == Reached(after, n, base, b, b)
  {
    hide LastBreak, Lines, Complete, Reached;
    var n := |before| - 1;
    var d, d' := before[n], after[n];
    ScanOver(before, base + |d|, 0, base + LastBreak(d, 0, |d|));
    ScanOver(before, base + |d|, 0, base);
    ScanStep(before, n, base, 0, base);
    ScanStep(after, n, base, 0, base);
    ScanStep(after, n, base, b, b);
    BreakMeans(d, 0);
    var hi := LastBreak(d, 0, |d|);
    assert b == base + hi;
    var own := Lines(d, 0, hi, base, false);
    NothingMore(own);
    EmptyLines(d, 0, base, false);
    assert Complete(before, n, base, 0) == own;
    SameLines(d, d', hi, base);
    BreakGrows(d, d', hi);
    var hi' := LastBreak(d', 0, |d'|);
    if d' != [] {
      LinesSplit(d', 0, hi, hi', base, false);
      if hi == |d'| {
        EmptyLines(d', hi, base, false);
        StartPassed(after, n + 1, base + |d'|, b, b);
      } else {
        StartPassed(after, n + 1, base + |d'|, b, base + hi');
        var more, later := Lines(d', hi, hi', base, false), if hi' < |d'| then [] else Complete(after, n + 1, base + |d'|, 0);
        Regrouped(own, more, later);
      }
    } else {
      StartPassed(after, n + 1, base, b, b);
      NothingMore(Complete(after, n + 1, base, b));
    }
  }

  lemma NothingMore(rows: seq<RawRow>)
    ensures rows + [] == rows && [] + rows == rows
  {
  }

  lemma Regrouped(a: seq<RawRow>, b: seq<RawRow>, c: seq<RawRow>)
    ensures (a + b) + c == a + (b + c)
  {
  }

  lemma SameLines(d: Bytes, d': Bytes, hi: nat, base: nat)
    requires d <= d' && hi <= |d|
    ensures Lines(d, 0, hi, base, false) == Lines(d', 0, hi, base, false)
  {
    LinesOfPrefix(d, d', 0, hi, base);
  }

  lemma {:induction false} LinesOfPrefix(d: Bytes, d': Bytes, lo: nat, hi: nat, base: nat)
    requires d <= d' && lo <= hi <= |d|
    ensures Lines(d, lo, hi, base, false) == Lines(d', lo, hi, base, false)
    decreases hi - lo
  {
    hide LineEnd, Visible;
    var n := LineEnd(d, lo, hi);
    LineEndMeans(d, lo, hi);
    LineEndUnique(d', lo, hi, n);
    if n < hi {
      assert d[lo..n + 1] == d'[lo..n + 1];
      LinesOfPrefix(d, d', n + 1, hi, base);
    }
  }

  /** Appending can only move the last break further, and from the old one it is found as well. */
  lemma BreakGrows(d: Bytes, d': Bytes, hi: nat)
    requires d <= d' && hi == LastBreak(d, 0, |d|)
    ensures var hi' := LastBreak(d', 0, |d'|); hi <= hi' && LastBreak(d', hi, |d'|) == hi' && (hi > 0 ==> d'[hi - 1] == LF)
  {
    hide LastBreak;
    BreakMeans(d, 0);
    BreakMeans(d', 0);
    var hi' := LastBreak(d', 0, |d'|);
    assert hi > 0 ==> d'[hi - 1] == d[hi - 1] == LF;
    LastBreakUnique(d', hi, |d'|, hi');
  }

  function Prefix(segments: seq<Bytes>): nat { Reached(segments, 0, 0, 0, 0) }

  /** Scanning the first part of a log and later the rest from there is scanning it at once. */
  lemma ScanInParts(before: seq<Bytes>, after: seq<Bytes>)
    requires Extends(before, after)
    ensures var b := Prefix(before);
      && Complete(after, 0, 0, 0) == Complete(before, 0, 0, 0) + Complete(after, 0, 0, b)
      && Prefix(after) == Reached(after, 0, 0, b, b)
  {
    if before == [] {
      assert [] + Complete(after, 0, 0, 0) == Complete(after, 0, 0, 0);
    } else {
      RestartAtBoundary(before, after, 0, 0);
    }
  }

  /** The boundary lies within the log, and stays so as the log grows. */
  lemma {:induction false} ReachedWithin(segments: seq<Bytes>, k: nat, boundary: nat)
    requires k <= |segments| && boundary <= Total(segments, k)
    ensures Reached(segments, k, Total(segments, k), 0, boundary) <= Total(segments, |segments|)
    decreases |segments| - k
  {
    hide LastBreak;
    TotalGrows(segments, k);
    if k < |segments| {
      var data := segments[k];
      var hi := LastBreak(data, 0, |data|);
      TotalGrows(segments, k + 1);
      ReachedWithin(segments, k + 1, if hi > 0 then Total(segments, k) + hi else boundary);
      ReachedWithin(segments, k + 1, boundary);
    }
  }

  lemma {:induction false} TotalGrows(segments: seq<Bytes>, k: nat)
    requires k <= |segments|
    ensures Total(segments, k) <= Total(segments, |segments|)
    decreases |segments| - k
  {
    if k < |segments| { TotalGrows(segments, k + 1); }
  }

  lemma {:induction false} SameTotals(before: seq<Bytes>, after: seq<Bytes>, k: nat)
    requires k <= |before| && k <= |after| && before[..k] == after[..k]
    ensures Total(before, k) == Total(after, k)
  {
    if k > 0 {
      assert before[..k][..k - 1] == before[..k - 1] && after[..k][..k - 1] == after[..k - 1];
      assert before[k - 1] == before[..k][k - 1] == after[k - 1];
      SameTotals(before, after, k - 1);
    }
  }

  lemma BoundaryWithin(before: seq<Bytes>, after: seq<Bytes>)
    requires Extends(before, after)
    ensures Prefix(before) <= Total(after, |after|)
  {
    hide Reached;
    ReachedWithin(before, 0, 0);
    if before != [] {
      var n := |before| - 1;
      SameTotals(before, after, n);
      TotalGrows(after, n + 1);
    }
  }

  // ---------------------------------------------------------------- the index

  /** A decoded JSON value, as far as the index looks at it. */
  datatype Json = Numeral(text: string) | Truth(b: bool) | NonFinite | Structured(text: string)

  type Values = map<string, Json>

  datatype ParsedRow = Corrupt | Object(values: Values, surrogates: bool)

  type RowParser = Bytes -> ParsedRow

  datatype Key = ByStep(step: string) | ByOrdinal(ordinal: nat)

  datatype Entry = Entry(sort: string, ordinal: nat, time: Option<Json>, values: Values)

  datatype Index = Index(records: map<Key, Entry>, ordinal: nat, metrics: set<string>, corrupt: nat, surrogates: bool)

  const NOTHING := Index(map[], 0, {}, 0, false)

  /** `step_key`: the canonical spelling of an integer step. */
  function StepKey(v: Json): Option<string> {
    match v
    case Numeral(text) =>
      var digits := if Negative(text) then text[1..] else text;
      if digits == "" || !IsDigits(digits) then None
      else
        var trimmed := TrimZeros(digits);
        if trimmed == "" then Some("0") else Some(if Negative(text) then "-" + trimmed else trimmed)
    case Truth(b) => Some(if b then "1" else "0")
    case _ => None
  }

  /** Whatever way an integer is spelled, its key is the canonical spelling of its value. */
  lemma StepKeyMeans(text: string)
    requires var digits := if Negative(text) then text[1..] else text; digits != "" && IsDigits(digits)
    ensures StepKey(Numeral(text)).Some? && Canonical(StepKey(Numeral(text)).value)
    ensures var digits := if Negative(text) then text[1..] else text;
      Value(StepKey(Numeral(text)).value) == if Negative(text) then -Natural(digits) else Natural(digits)
  {
    hide Natural;
    var digits := if Negative(text) then text[1..] else text;
    TrimmedValue(digits);
    var trimmed := TrimZeros(digits);
    if trimmed == "" {
      EmptyNatural();
    } else {
      assert ("-" + trimmed)[1..] == trimmed;
    }
  }

  lemma EmptyNatural()
    ensures Natural("") == 0 && Natural("0") == 0 && Canonical("0")
  {
    assert "0"[1..] == "";
  }

  /** The text a record sorts by; no spelling is longer than a machine word can count. */
  function SortOf(step: string): string {
    if Canonical(step) && |step| <= U64_MAX then SortKey(step) else ""
  }

  predicate IsMetric(key: string, v: Json) { key != "_step" && key != "_time" && !v.Structured? }

  function MetricsOf(values: Values): set<string> { set key | key in values && IsMetric(key, values[key]) }

  /** The step of a row; spans without one count as step zero. */
  function StepOf(values: Values, spans: bool): Option<string> {
    if "_step" in values then StepKey(values["_step"]) else if spans then Some("0") else None
  }

  function KeyOf(step: string, spans: bool, ordinal: nat): Key { if spans then ByOrdinal(ordinal) else ByStep(step) }

  function TimeOf(values: Values): Option<Json> {
    if "_time" in values && values["_time"].Numeral? then Some(values["_time"]) else None
  }

  /** Indexing one row: a later row of a step patches the record of that step. */
  function Indexed(parse: RowParser, spans: bool, s: Index, row: RawRow): Index {
    match parse(row.bytes)
    case Corrupt => s.(corrupt := s.corrupt + 1)
    case Object(values, surrogates) =>
      var t := s.(surrogates := s.surrogates || surrogates);
      match StepOf(values, spans)
      case None => t.(corrupt := t.corrupt + 1)
      case Some(step) =>
        var key := KeyOf(step, spans, t.ordinal);
        var combined := if !spans && key in t.records then t.records[key].values + values else values;
        var sort := if key in t.records then t.records[key].sort else SortOf(step);
        t.(records := t.records[key := Entry(sort, t.ordinal, TimeOf(combined), combined)],
           ordinal := t.ordinal + 1, metrics := t.metrics + MetricsOf(values))
  }

  function Indexing(parse: RowParser, spans: bool): (Index, RawRow) -> Index {
    (s: Index, row: RawRow) => Indexed(parse, spans, s, row)
  }

  /** The index of a whole log, built at once. */
  function Built(parse: RowParser, spans: bool, segments: seq<Bytes>): Index {
    Folded(Indexing(parse, spans), NOTHING, Complete(segments, 0, 0, 0))
  }

  /** How handling a row can fail: not at all, before it is looked at, or when it is stored. */
  datatype Fault = Fine | Interrupted | Unstored

  /** What goes wrong during a refresh: by the number of rows handled before, whether reading fails
      after the last row, and whether the records cannot be committed. */
  datatype Trouble = Trouble(fault: nat -> Fault, unread: bool, uncommitted: bool)

  ghost predicate Calm(trouble: Trouble) {
    !trouble.unread && !trouble.uncommitted && forall i: nat :: trouble.fault(i).Fine?
  }

  /** A row that cannot be stored has been noted already. */
  function Noted(parse: RowParser, spans: bool, s: Index, row: RawRow): Index {
    match parse(row.bytes)
    case Corrupt => s
    case Object(values, surrogates) =>
      s.(surrogates := s.surrogates || surrogates, metrics := s.metrics + MetricsOf(values))
  }

  /** One row during a refresh; rows handled are counted. */
  function WatchedRow(parse: RowParser, spans: bool, fault: nat -> Fault, s: (Index, nat), row: RawRow)
    : ((Index, nat), bool)
  {
    if fault(s.1).Interrupted? then (s, false)
    else if fault(s.1).Unstored? && CountedOf(parse, spans, row).Some? then ((Noted(parse, spans, s.0, row), s.1), false)
    else ((Indexed(parse, spans, s.0, row), s.1 + 1), true)
  }

  function Watched(parse: RowParser, spans: bool, fault: nat -> Fault): Visitor<(Index, nat)> {
    (s: (Index, nat), row: RawRow) => WatchedRow(parse, spans, fault, s, row)
  }

  /** The index after scanning on from where an earlier refresh got, and whether that succeeded. */
  function Scanned(parse: RowParser, spans: bool, s: Index, prefix: nat, segments: seq<Bytes>, fault: nat -> Fault)
    : (Index, bool)
  {
    var r := Visited(Watched(parse, spans, fault), (s, 0), Complete(segments, 0, 0, prefix));
    (r.0.0, r.1)
  }

  class CachedLog {
    const parse: RowParser
    const spans: bool
    var index: Index
    var prefix: nat
    ghost var seen: seq<Bytes>

    ghost predicate Valid()
      reads this
    {
      index == Built(parse, spans, seen) && prefix == Prefix(seen)
    }

    constructor (parse: RowParser, spans: bool)
      ensures Valid() && seen == [] && this.parse == parse && this.spans == spans
    {
      this.parse, this.spans, index, prefix, seen := parse, spans, NOTHING, 0, [];
    }

    /** `refresh`: nothing if the files are as before, the new part if they have only grown, and
        else everything again. What the fingerprints say about that is given, as is what goes
        wrong. A refresh that fails takes back the records, and nothing else. */
    method Refresh(segments: seq<Bytes>, same: bool, appended: bool, trouble: Trouble) returns (ok: bool)
      requires (same ==> segments == seen) && (appended ==> Extends(seen, segments))
      modifies this
      ensures old(Valid()) && ok ==> Valid() && seen == segments
      ensures Calm(trouble) ==> ok
      ensures same ==> ok && index == old(index) && prefix == old(prefix) && seen == old(seen)
      ensures !same ==>
        var before := if appended then old(index) else NOTHING;
        var from := if appended then old(prefix) else 0;
        var (scanned, whole) := Scanned(parse, spans, before, from, segments, trouble.fault);
        && ok == (whole && !trouble.unread && !trouble.uncommitted)
        && index == (if ok then scanned else scanned.(records := before.records))
        && prefix == (if whole && !trouble.unread
                      then Reached(segments, 0, 0, from, Min(from, Total(segments, |segments|))) else from)
        && seen == if ok then segments else if appended then old(seen) else []
    {
      hide Visited, Folded, Complete, Reached, Indexed, Watched;
      if same { return true; }
      if !appended {
        index, prefix, seen := NOTHING, 0, [];
        NothingScanned(Indexing(parse, spans));
      }
      ghost var clean, rows := Valid(), Complete(segments, 0, 0, prefix);
      var records := index.records;
      var s, boundary;
      s, boundary, ok := VisitRowsFrom(segments, prefix, Watched(parse, spans, trouble.fault), (index, 0));
      if Calm(trouble) { CalmScan(parse, spans, trouble.fault, index, 0, rows); }
      if ok { WatchedWhole(parse, spans, trouble.fault, index, 0, rows); }
      ghost var before := index;
      index := s.0;
      if !ok || trouble.unread {
        index := index.(records := records);
        return false;
      }
      if clean {
        ScanInParts(seen, segments);
        BoundaryWithin(seen, segments);
        FoldedConcat(Indexing(parse, spans), NOTHING, Complete(seen, 0, 0, 0), rows);
      }
      prefix := boundary;
      if trouble.uncommitted {
        index := index.(records := records);
        return false;
      }
      seen := segments;
    }
  }

  lemma NothingScanned<S>(f: (S, RawRow) -> S)
    ensures Complete([], 0, 0, 0) == [] && Reached([], 0, 0, 0, 0) == 0
    ensures forall s :: Folded(f, s, []) == s
  {
  }

  lemma {:induction false} CalmScan(parse: RowParser, spans: bool, fault: nat -> Fault, s: Index, i: nat, rows: seq<RawRow>)
    requires forall j: nat :: fault(j).Fine?
    ensures Visited(Watched(parse, spans, fault), (s, i), rows).1
    decreases |rows|
  {
    hide Indexed, CountedOf, Noted;
    if rows != [] { CalmScan(parse, spans, fault, Indexed(parse, spans, s, rows[0]), i + 1, rows[1..]); }
  }

  /** A scan that does not fail has indexed all rows. */
  lemma {:induction false} WatchedWhole(parse: RowParser, spans: bool, fault: nat -> Fault, s: Index, i: nat, rows: seq<RawRow>)
    requires Visited(Watched(parse, spans, fault), (s, i), rows).1
    ensures Visited(Watched(parse, spans, fault), (s, i), rows).0.0 == Folded(Indexing(parse, spans), s, rows)
    decreases |rows|
  {
    hide Indexed, CountedOf, Noted;
    if rows != [] { WatchedWhole(parse, spans, fault, Indexed(parse, spans, s, rows[0]), i + 1, rows[1..]); }
  }

  // ---------------------------------------------------------------- what the index holds

  /** A row that counts: its step and its values. */
  datatype Counted = Counted(step: string, values: Values)

  function CountedOf(parse: RowParser, spans: bool, row: RawRow): Option<Counted> {
    match parse(row.bytes)
    case Corrupt => None
    case Object(values, _) => match StepOf(values, spans) case None => None case Some(step) => Some(Counted(step, values))
  }

  function AllCounted(parse: RowParser, spans: bool, rows: seq<RawRow>): seq<Counted> {
    if rows == [] then []
    else
      var n := |rows| - 1;
      AllCounted(parse, spans, rows[..n])
      + match CountedOf(parse, spans, rows[n]) case None => [] case Some(c) => [c]
  }

  /** The values of one step, later rows over earlier ones. */
  function Patched(counted: seq<Counted>, step: string): Values {
    if counted == [] then map[]
    else
      var last := counted[|counted| - 1];
      Patched(counted[..|counted| - 1], step) + if last.step == step then last.values else map[]
  }

  ghost predicate LastRow(counted: seq<Counted>, step: string, i: nat) {
    i < |counted| && counted[i].step == step && forall j :: i < j < |counted| ==> counted[j].step != step
  }

  /** What an index of a run's history says about the rows it has seen. */
  ghost predicate Tells(s: Index, counted: seq<Counted>) {
    && s.ordinal == |counted|
    && (forall key :: key in s.records ==> key.ByStep?)
    && (forall step :: TellsStep(s, counted, step))
    && (forall name :: name in s.metrics <==> Seen(counted, name))
  }

  /** Some row has a number, a truth value or a number that is not finite under this name. */
  ghost predicate Seen(counted: seq<Counted>, name: string) {
    name != "_step" && name != "_time" && exists c :: c in counted && name in c.values && !c.values[name].Structured?
  }

  /** The time of a record is its numeric `_time`, if it has one. */
  ghost predicate Timed(e: Entry) {
    if "_time" in e.values && e.values["_time"].Numeral? then e.time == Some(e.values["_time"]) else e.time == None
  }

  ghost predicate TellsStep(s: Index, counted: seq<Counted>, step: string) {
    if ByStep(step) in s.records then
      var e := s.records[ByStep(step)];
      e.sort == SortOf(step) && e.values == Patched(counted, step) && LastRow(counted, step, e.ordinal) && Timed(e)
    else forall c :: c in counted ==> c.step != step
  }

  lemma {:induction false} FoldedPush<S>(f: (S, RawRow) -> S, s: S, rows: seq<RawRow>)
    requires rows != []
    ensures Folded(f, s, rows) == f(Folded(f, s, rows[..|rows| - 1]), rows[|rows| - 1])
  {
    var n := |rows| - 1;
    assert rows == rows[..n] + [rows[n]];
    FoldedConcat(f, s, rows[..n], [rows[n]]);
    assert [rows[n]][1..] == [];
  }

  lemma TellsNext(s: Index, counted: seq<Counted>, c: Counted)
    requires Tells(s, counted)
    ensures var key := ByStep(c.step);
      var combined := if key in s.records then s.records[key].values + c.values else c.values;
      var sort := if key in s.records then s.records[key].sort else SortOf(c.step);
      Tells(s.(records := s.records[key := Entry(sort, s.ordinal, TimeOf(combined), combined)],
               ordinal := s.ordinal + 1, metrics := s.metrics + MetricsOf(c.values)), counted + [c])
  {
    hide SortOf, MetricsOf, TimeOf, TellsStep, Seen;
    var key := ByStep(c.step);
    var combined := if key in s.records then s.records[key].values + c.values else c.values;
    var sort := if key in s.records then s.records[key].sort else SortOf(c.step);
    var e := Entry(sort, s.ordinal, TimeOf(combined), combined);
    var t := s.(records := s.records[key := e], ordinal := s.ordinal + 1, metrics := s.metrics + MetricsOf(c.values));
    forall step
      ensures TellsStep(t, counted + [c], step)
    {
      assert TellsStep(s, counted, step);
      if step == c.step { TellsPatched(s, t, counted, c); } else { TellsOther(s, t, counted, c, step); }
    }
    forall name
      ensures name in t.metrics <==> Seen(counted + [c], name)
    {
      SeenPush(counted, c, name);
    }
  }

  lemma SeenPush(counted: seq<Counted>, c: Counted, name: string)
    ensures Seen(counted + [c], name) <==> Seen(counted, name) || name in MetricsOf(c.values)
  {
    var all := counted + [c];
    assert c in all;
    if Seen(counted, name) {
      var d :| d in counted && name in d.values && !d.values[name].Structured?;
      assert d in all;
    }
  }

  lemma TellsOther(s: Index, t: Index, counted: seq<Counted>, c: Counted, step: string)
    requires step != c.step && TellsStep(s, counted, step)
    requires ByStep(step) in s.records <==> ByStep(step) in t.records
    requires ByStep(step) in s.records ==> t.records[ByStep(step)] == s.records[ByStep(step)]
    ensures TellsStep(t, counted + [c], step)
  {
    hide SortOf, TimeOf;
    var all := counted + [c];
    assert all[..|counted|] == counted;
    assert Patched(counted, step) + map[] == Patched(counted, step);
  }

  lemma TellsPatched(s: Index, t: Index, counted: seq<Counted>, c: Counted)
    requires TellsStep(s, counted, c.step) && ByStep(c.step) in t.records
    requires var key := ByStep(c.step);
      var combined := if key in s.records then s.records[key].values + c.values else c.values;
      var sort := if key in s.records then s.records[key].sort else SortOf(c.step);
      t.records[key] == Entry(sort, |counted|, TimeOf(combined), combined)
    ensures TellsStep(t, counted + [c], c.step)
  {
    hide SortOf;
    var all := counted + [c];
    assert all[..|counted|] == counted && all[|counted|] == c;
    if ByStep(c.step) !in s.records {
      NeverPatched(counted, c.step);
      assert map[] + c.values == c.values;
    }
  }

  lemma {:induction false} NeverPatched(counted: seq<Counted>, step: string)
    requires forall c :: c in counted ==> c.step != step
    ensures Patched(counted, step) == map[]
  {
    if counted != [] { NeverPatched(counted[..|counted| - 1], step); }
  }

  /** Built or refreshed, the index of a history holds for each step its rows merged in order,
      the number of its latest row, and the metrics of all rows. */
  lemma {:induction false} IndexTells(parse: RowParser, rows: seq<RawRow>)
    ensures Tells(Folded(Indexing(parse, false), NOTHING, rows), AllCounted(parse, false, rows))
  {
    hide Tells, SortOf, MetricsOf, TimeOf;
    if rows == [] {
      assert Tells(NOTHING, []) by { NothingToTell(); }
    } else {
      var n := |rows| - 1;
      IndexTells(parse, rows[..n]);
      FoldedPush(Indexing(parse, false), NOTHING, rows);
      var s, counted := Folded(Indexing(parse, false), NOTHING, rows[..n]), AllCounted(parse, false, rows[..n]);
      match CountedOf(parse, false, rows[n])
      case None =>
        assert counted + [] == counted;
        TellsStill(s, Indexed(parse, false, s, rows[n]), counted);
      case Some(c) =>
        var t := s.(surrogates := Indexed(parse, false, s, rows[n]).surrogates);
        TellsStill(s, t, counted);
        TellsNext(t, counted, c);
    }
  }

  /** What an index of spans says: every row is a record of its own. */
  ghost predicate TellsSpans(s: Index, counted: seq<Counted>) {
    && s.ordinal == |counted|
    && (forall key :: key in s.records ==> key.ByOrdinal? && key.ordinal < |counted|)
    && (forall i: nat :: i < |counted| ==> TellsSpan(s, counted[i], i))
    && (forall name :: name in s.metrics <==> Seen(counted, name))
  }

  ghost predicate TellsSpan(s: Index, c: Counted, i: nat) {
    && ByOrdinal(i) in s.records
    && var e := s.records[ByOrdinal(i)];
       e.sort == SortOf(c.step) && e.values == c.values && e.ordinal == i && Timed(e)
  }

  lemma {:induction false} SpansTell(parse: RowParser, rows: seq<RawRow>)
    ensures TellsSpans(Folded(Indexing(parse, true), NOTHING, rows), AllCounted(parse, true, rows))
  {
    hide TellsSpans, SortOf, MetricsOf, TimeOf, Folded;
    if rows == [] {
      FoldedNone(Indexing(parse, true), NOTHING);
      assert TellsSpans(NOTHING, []) by { NoSpans(); }
    } else {
      var n := |rows| - 1;
      SpansTell(parse, rows[..n]);
      FoldedPush(Indexing(parse, true), NOTHING, rows);
      var s, counted := Folded(Indexing(parse, true), NOTHING, rows[..n]), AllCounted(parse, true, rows[..n]);
      SpansNext(parse, s, counted, rows[n]);
      if CountedOf(parse, true, rows[n]).None? { assert counted + [] == counted; }
    }
  }

  lemma NoSpans()
    ensures TellsSpans(NOTHING, [])
  {
  }

  lemma SpansNext(parse: RowParser, s: Index, counted: seq<Counted>, row: RawRow)
    requires TellsSpans(s, counted)
    ensures var t := Indexed(parse, true, s, row);
      match CountedOf(parse, true, row) case None => TellsSpans(t, counted) case Some(c) => TellsSpans(t, counted + [c])
  {
    hide SortOf, MetricsOf, StepOf, Seen;
    var t := Indexed(parse, true, s, row);
    match CountedOf(parse, true, row)
    case None =>
      assert forall i: nat :: i < |counted| ==> TellsSpan(s, counted[i], i);
    case Some(c) =>
      var all := counted + [c];
      forall i: nat | i < |all|
        ensures TellsSpan(t, all[i], i)
      {
        if i < |counted| { assert TellsSpan(s, counted[i], i); }
      }
      forall name
        ensures name in t.metrics <==> Seen(all, name)
      {
        SeenPush(counted, c, name);
      }
  }

  // ---------------------------------------------------------------- which rows count

  /** The step a JSON value spells: a truth value or an integer, in canonical spelling. */
  ghost predicate Spells(v: Json, step: string) {
    match v
    case Truth(b) => step == if b then "1" else "0"
    case Numeral(text) =>
      var digits := if Negative(text) then text[1..] else text;
      && digits != "" && IsDigits(digits) && Canonical(step)
      && Value(step) == if Negative(text) then -Natural(digits) else Natural(digits)
    case _ => false
  }

  lemma StepKeyExactly(v: Json, step: string)
    ensures StepKey(v) == Some(step) <==> Spells(v, step)
  {
    hide Natural;
    if v.Numeral? {
      var text := v.text;
      var digits := if Negative(text) then text[1..] else text;
      if digits != "" && IsDigits(digits) {
        StepKeyMeans(text);
        if Spells(v, step) { CompareStepIsNumeric(step, StepKey(v).value); }
      }
    }
  }

  /** A row counts if it is an object with such a step; a span may also have none. */
  lemma CountedExactly(parse: RowParser, spans: bool, row: RawRow, c: Counted)
    ensures CountedOf(parse, spans, row) == Some(c) <==>
      && parse(row.bytes).Object? && parse(row.bytes).values == c.values
      && (if "_step" in c.values then Spells(c.values["_step"], c.step) else spans && c.step == "0")
  {
    hide StepKey, Spells;
    if parse(row.bytes).Object? && "_step" in parse(row.bytes).values {
      var v := parse(row.bytes).values["_step"];
      StepKeyExactly(v, c.step);
      if StepKey(v).Some? { StepKeyExactly(v, StepKey(v).value); }
    }
  }

  lemma NothingToTell()
    ensures Tells(NOTHING, [])
  {
  }

  lemma TellsStill(s: Index, t: Index, counted: seq<Counted>)
    requires Tells(s, counted) && t.records == s.records && t.ordinal == s.ordinal && t.metrics == s.metrics
    ensures Tells(t, counted)
  {
    hide Seen;
    forall step ensures TellsStep(t, counted, step) { assert TellsStep(s, counted, step); }
  }

  // ---------------------------------------------------------------- after a refresh that failed

  /** What a later refresh makes of an index left behind, if nothing goes wrong again. */
  function Resumed(parse: RowParser, spans: bool, t: Index, prefix: nat, segments: seq<Bytes>): Index {
    Folded(Indexing(parse, spans), t, Complete(segments, 0, 0, prefix))
  }

  function MetricsIn(parse: RowParser, spans: bool, rows: seq<RawRow>): set<string> {
    if rows == [] then {}
    else
      var n := |rows| - 1;
      MetricsIn(parse, spans, rows[..n])
      + match CountedOf(parse, spans, rows[n]) case None => {} case Some(c) => MetricsOf(c.values)
  }

  predicate Escaped(parse: RowParser, row: RawRow) { parse(row.bytes).Object? && parse(row.bytes).surrogates }

  predicate AnyEscaped(parse: RowParser, rows: seq<RawRow>) { exists i :: 0 <= i < |rows| && Escaped(parse, rows[i]) }

  /** Every row handled is counted or corrupt; metrics and warnings gather. */
  lemma {:induction false} Accrues(parse: RowParser, spans: bool, s: Index, rows: seq<RawRow>)
    ensures var t, n := Folded(Indexing(parse, spans), s, rows), |AllCounted(parse, spans, rows)|;
      && n <= |rows| && t.ordinal == s.ordinal + n && t.corrupt == s.corrupt + |rows| - n
      && t.metrics == s.metrics + MetricsIn(parse, spans, rows)
      && (t.surrogates <==> s.surrogates || AnyEscaped(parse, rows))
  {
    hide MetricsOf, CountedOf, Indexed, Folded, Escaped;
    if rows == [] {
      FoldedNone(Indexing(parse, spans), s);
    } else {
      var n := |rows| - 1;
      Accrues(parse, spans, s, rows[..n]);
      FoldedPush(Indexing(parse, spans), s, rows);
      EscapedPush(parse, rows);
      RowAccrues(parse, spans, Folded(Indexing(parse, spans), s, rows[..n]), rows[n]);
    }
  }

  lemma RowAccrues(parse: RowParser, spans: bool, s: Index, row: RawRow)
    ensures var t, c := Indexed(parse, spans, s, row), CountedOf(parse, spans, row);
      && t.ordinal == s.ordinal + (if c.Some? then 1 else 0) && t.corrupt == s.corrupt + (if c.Some? then 0 else 1)
      && t.metrics == s.metrics + (match c case None => {} case Some(x) => MetricsOf(x.values))
      && (t.surrogates <==> s.surrogates || Escaped(parse, row))
  {
    hide MetricsOf, StepOf, SortOf, TimeOf;
  }

  lemma FoldedNone<S>(f: (S, RawRow) -> S, s: S)
    ensures Folded(f, s, []) == s
  {
  }

  lemma EscapedPush(parse: RowParser, rows: seq<RawRow>)
    requires rows != []
    ensures var n := |rows| - 1; AnyEscaped(parse, rows) <==> AnyEscaped(parse, rows[..n]) || Escaped(parse, rows[n])
  {
    hide Escaped;
    var n := |rows| - 1;
    if AnyEscaped(parse, rows[..n]) {
      var i :| 0 <= i < n && Escaped(parse, rows[..n][i]);
      assert Escaped(parse, rows[i]);
    }
    if AnyEscaped(parse, rows) && !Escaped(parse, rows[n]) {
      var i :| 0 <= i < |rows| && Escaped(parse, rows[i]);
      assert Escaped(parse, rows[..n][i]);
    }
  }

  /** Records depend only on the records and the row count before. */
  lemma {:induction false} SameRecords(parse: RowParser, spans: bool, s: Index, t: Index, rows: seq<RawRow>)
    requires s.records == t.records && s.ordinal == t.ordinal
    ensures var x, y := Folded(Indexing(parse, spans), s, rows), Folded(Indexing(parse, spans), t, rows);
      x.records == y.records && x.ordinal == y.ordinal
    decreases |rows|
  {
    hide MetricsOf, StepOf, SortOf, TimeOf;
    if rows != [] {
      SameRecords(parse, spans, Indexed(parse, spans, s, rows[0]), Indexed(parse, spans, t, rows[0]), rows[1..]);
    }
  }

  /** What a failed scan has handled: the first `k` rows, and perhaps a glance at the next. */
  lemma {:induction false} ScanFails(parse: RowParser, spans: bool, fault: nat -> Fault, s: Index, i: nat, rows: seq<RawRow>)
    returns (k: nat)
    requires !Visited(Watched(parse, spans, fault), (s, i), rows).1
    ensures k < |rows|
    ensures var t, h := Visited(Watched(parse, spans, fault), (s, i), rows).0.0, Folded(Indexing(parse, spans), s, rows[..k]);
      t == h || (CountedOf(parse, spans, rows[k]).Some? && t == Noted(parse, spans, h, rows[k]))
    decreases |rows|
  {
    hide Indexed, CountedOf, Noted;
    if fault(i).Interrupted? || (fault(i).Unstored? && CountedOf(parse, spans, rows[0]).Some?) {
      k := 0;
    } else {
      k := ScanFails(parse, spans, fault, Indexed(parse, spans, s, rows[0]), i + 1, rows[1..]);
      k := k + 1;
      assert rows[..k][1..] == rows[1..][..k - 1];
    }
  }

  /** An index left behind is as good as before exactly if it is the same as before. */
  lemma ResumesExactly(parse: RowParser, spans: bool, seen: seq<Bytes>, t: Index)
    ensures (forall next :: Extends(seen, next) ==> Resumed(parse, spans, t, Prefix(seen), next) == Built(parse, spans, next))
      <==> t == Built(parse, spans, seen)
  {
    hide Indexed, Complete, Reached;
    var s := Built(parse, spans, seen);
    forall next | Extends(seen, next)
      ensures Resumed(parse, spans, s, Prefix(seen), next) == Built(parse, spans, next)
    {
      ResumedWhole(parse, spans, seen, next);
    }
    SelfExtends(seen);
    ScanInParts(seen, seen);
    assert Complete(seen, 0, 0, Prefix(seen)) == [];
    FoldedNone(Indexing(parse, spans), t);
  }

  lemma SelfExtends(seen: seq<Bytes>)
    ensures Extends(seen, seen)
  {
  }

  lemma ResumedWhole(parse: RowParser, spans: bool, seen: seq<Bytes>, next: seq<Bytes>)
    requires Extends(seen, next)
    ensures Resumed(parse, spans, Built(parse, spans, seen), Prefix(seen), next) == Built(parse, spans, next)
  {
    hide Indexed, Complete, Reached, Folded;
    ScanInParts(seen, next);
    FoldedConcat(Indexing(parse, spans), NOTHING, Complete(seen, 0, 0, 0), Complete(next, 0, 0, Prefix(seen)));
  }

  lemma ExtendsFurther(a: seq<Bytes>, b: seq<Bytes>, c: seq<Bytes>)
    requires Extends(a, b) && Extends(b, c)
    ensures Extends(a, c)
  {
    if a != [] {
      var n := |a| - 1;
      assert c[..n] == a[..n] by {
        forall i | 0 <= i < n
          ensures c[i] == a[i]
        {
          assert a[..n][i] == b[..n][i];
          assert i < |b| - 1 ==> b[..|b| - 1][i] == c[..|b| - 1][i];
        }
      }
      if n < |b| - 1 { assert b[..|b| - 1][n] == c[..|b| - 1][n]; }
    }
  }

  /** What the refresh that failed has read is the first part of what the next one reads. */
  lemma ReadAgain(seen: seq<Bytes>, segments: seq<Bytes>, next: seq<Bytes>)
    requires Extends(seen, segments) && Extends(segments, next)
    ensures Extends(seen, next) && Complete(segments, 0, 0, Prefix(seen)) <= Complete(next, 0, 0, Prefix(seen))
  {
    hide Complete, Reached, Extends;
    ExtendsFurther(seen, segments, next);
    ScanInParts(seen, segments);
    ScanInParts(seen, next);
    ScanInParts(segments, next);
    SamePart(Complete(seen, 0, 0, 0), Complete(segments, 0, 0, Prefix(seen)), Complete(next, 0, 0, Prefix(segments)),
             Complete(next, 0, 0, Prefix(seen)));
  }

  lemma SamePart(a: seq<RawRow>, b: seq<RawRow>, c: seq<RawRow>, d: seq<RawRow>)
    requires (a + b) + c == a + d
    ensures b <= d
  {
    assert d == (a + d)[|a|..] == b + c;
  }

  /** A refresh that fails while scanning: later ones equal a rebuild, however the log then looks,
      exactly if no row was counted or corrupt and no metric or warning new; and if the log only
      grows on, exactly if no row was counted or corrupt. */
  lemma FailedScanHeals(parse: RowParser, spans: bool, seen: seq<Bytes>, segments: seq<Bytes>, fault: nat -> Fault)
    requires Extends(seen, segments)
    requires !Scanned(parse, spans, Built(parse, spans, seen), Prefix(seen), segments, fault).1
    ensures var s := Built(parse, spans, seen);
      var t := Scanned(parse, spans, s, Prefix(seen), segments, fault).0.(records := s.records);
      && ((forall next :: Extends(seen, next) ==> Resumed(parse, spans, t, Prefix(seen), next) == Built(parse, spans, next))
          <==> t.ordinal == s.ordinal && t.corrupt == s.corrupt && t.metrics == s.metrics && t.surrogates == s.surrogates)
      && (forall next :: Extends(segments, next) ==>
            (Resumed(parse, spans, t, Prefix(seen), next) == Built(parse, spans, next)
             <==> t.ordinal == s.ordinal && t.corrupt == s.corrupt))
  {
    hide Indexed, Complete, Reached, Folded, Extends, Visited, MetricsIn, AnyEscaped, Noted, CountedOf, AllCounted;
    var s := Built(parse, spans, seen);
    var t := Scanned(parse, spans, s, Prefix(seen), segments, fault).0.(records := s.records);
    ResumesExactly(parse, spans, seen, t);
    forall next | Extends(segments, next)
      ensures Resumed(parse, spans, t, Prefix(seen), next) == Built(parse, spans, next)
        <==> t.ordinal == s.ordinal && t.corrupt == s.corrupt
    {
      ReadAgain(seen, segments, next);
      ResumedWhole(parse, spans, seen, next);
      RescanHeals(parse, spans, fault, s, Complete(segments, 0, 0, Prefix(seen)), Complete(next, 0, 0, Prefix(seen)));
    }
  }

  /** Reading rows again that a failed scan has handled doubles only what it had counted. */
  lemma RescanHeals(parse: RowParser, spans: bool, fault: nat -> Fault, s: Index, rows: seq<RawRow>, more: seq<RawRow>)
    requires rows <= more && !Visited(Watched(parse, spans, fault), (s, 0), rows).1
    ensures var t := Visited(Watched(parse, spans, fault), (s, 0), rows).0.0.(records := s.records);
      Folded(Indexing(parse, spans), t, more) == Folded(Indexing(parse, spans), s, more)
      <==> t.ordinal == s.ordinal && t.corrupt == s.corrupt
  {
    hide Indexed, Folded, Visited, MetricsIn, AnyEscaped, CountedOf, AllCounted, Noted, Escaped;
    var t := Visited(Watched(parse, spans, fault), (s, 0), rows).0.0.(records := s.records);
    var k := ScanFails(parse, spans, fault, s, 0, rows);
    Accrues(parse, spans, s, rows[..k]);
    Accrues(parse, spans, s, more);
    Accrues(parse, spans, t, more);
    if t.ordinal == s.ordinal && t.corrupt == s.corrupt {
      assert rows[..k] == more[..k] && rows[k] == more[k];
      SameRecords(parse, spans, s, t, more);
      NotedWithin(parse, spans, s, Folded(Indexing(parse, spans), s, rows[..k]), more, k);
      assert t.metrics + MetricsIn(parse, spans, more) == s.metrics + MetricsIn(parse, spans, more);
    }
  }

  /** Whatever a failed scan has noted, scanning on notes as well. */
  lemma NotedWithin(parse: RowParser, spans: bool, s: Index, h: Index, rows: seq<RawRow>, k: nat)
    requires k < |rows|
    requires h.metrics == s.metrics + MetricsIn(parse, spans, rows[..k])
    requires h.surrogates <==> s.surrogates || AnyEscaped(parse, rows[..k])
    ensures s.metrics <= h.metrics <= s.metrics + MetricsIn(parse, spans, rows)
    ensures (s.surrogates ==> h.surrogates) && (h.surrogates ==> s.surrogates || AnyEscaped(parse, rows))
    ensures CountedOf(parse, spans, rows[k]).Some? ==>
      var n := Noted(parse, spans, h, rows[k]);
      && s.metrics <= n.metrics <= s.metrics + MetricsIn(parse, spans, rows)
      && (s.surrogates ==> n.surrogates) && (n.surrogates ==> s.surrogates || AnyEscaped(parse, rows))
  {
    hide MetricsOf, StepOf;
    MetricsWithin(parse, spans, rows, k);
    MetricsWithin(parse, spans, rows, k + 1);
    assert rows[..k + 1][..k] == rows[..k];
    if AnyEscaped(parse, rows[..k]) {
      var i :| 0 <= i < k && Escaped(parse, rows[..k][i]);
      assert Escaped(parse, rows[i]);
    }
  }

  lemma {:induction false} MetricsWithin(parse: RowParser, spans: bool, rows: seq<RawRow>, k: nat)
    requires k <= |rows|
    ensures MetricsIn(parse, spans, rows[..k]) <= MetricsIn(parse, spans, rows)
  {
    hide CountedOf, MetricsOf;
    if k < |rows| {
      var n := |rows| - 1;
      MetricsWithin(parse, spans, rows[..n], k);
      assert rows[..n][..k] == rows[..k];
    } else {
      assert rows[..k] == rows;
    }
  }

  /** A refresh whose records are not committed has moved on past them: later ones equal a rebuild
      exactly if it had counted no row. */
  lemma UncommittedHeals(parse: RowParser, spans: bool, seen: seq<Bytes>, segments: seq<Bytes>)
    requires Extends(seen, segments)
    ensures var s := Built(parse, spans, seen); var t := Built(parse, spans, segments).(records := s.records);
      (forall next :: Extends(segments, next) ==>
         Resumed(parse, spans, t, Prefix(segments), next) == Built(parse, spans, next))
      <==> t.ordinal == s.ordinal
  {
    hide Indexed, Complete, Reached, Folded, Extends, AllCounted;
    var s, x := Built(parse, spans, seen), Built(parse, spans, segments);
    var t, rows := x.(records := s.records), Complete(segments, 0, 0, Prefix(seen));
    ResumesExactly(parse, spans, segments, t);
    ResumedWhole(parse, spans, seen, segments);
    Accrues(parse, spans, s, rows);
    OrdinalsBelow(parse, spans, Complete(seen, 0, 0, 0));
    RecordsMove(parse, spans, s, rows);
  }

  /** Every record carries the number of a row counted before. */
  lemma {:induction false} OrdinalsBelow(parse: RowParser, spans: bool, rows: seq<RawRow>)
    ensures Below(Folded(Indexing(parse, spans), NOTHING, rows))
  {
    hide MetricsOf, StepOf, SortOf, TimeOf, Folded;
    if rows == [] {
      FoldedNone(Indexing(parse, spans), NOTHING);
    } else {
      var n := |rows| - 1;
      OrdinalsBelow(parse, spans, rows[..n]);
      FoldedPush(Indexing(parse, spans), NOTHING, rows);
    }
  }

  ghost predicate Below(s: Index) { forall key :: key in s.records ==> s.records[key].ordinal < s.ordinal }

  /** Counting a row changes the records, and nothing else does. */
  lemma {:induction false} RecordsMove(parse: RowParser, spans: bool, s: Index, rows: seq<RawRow>)
    requires Below(s)
    ensures var t := Folded(Indexing(parse, spans), s, rows);
      && s.ordinal <= t.ordinal
      && (t.ordinal == s.ordinal ==> t.records == s.records)
      && (t.ordinal > s.ordinal ==> exists key :: key in t.records && t.records[key].ordinal == t.ordinal - 1)
  {
    hide MetricsOf, StepOf, SortOf, TimeOf, Folded;
    if rows == [] {
      FoldedNone(Indexing(parse, spans), s);
    } else {
      var n := |rows| - 1;
      RecordsMove(parse, spans, s, rows[..n]);
      FoldedPush(Indexing(parse, spans), s, rows);
      var before, row := Folded(Indexing(parse, spans), s, rows[..n]), rows[n];
      if CountedOf(parse, spans, row).Some? {
        var key := KeyOf(CountedOf(parse, spans, row).value.step, spans, before.ordinal);
        assert key in Indexed(parse, spans, before, row).records;
      }
    }
  }
}
