/** The row under assembly: metrics merged call by call, weighted reductions, and the steps
    at which rows close. */
module OpenRow {
  import opened Floats
  import opened Results

  /** A metric value as it is spelled: an integer, another number, or anything else. */
  datatype Cell = Whole(n: int) | Number(f: Float) | Other(text: string)

  datatype Reduction = Sum | Mean | Max

  datatype Record = Record(step: int, time: real, data: map<string, Cell>)

  datatype Warning = Dropped(step: int, reference: int) | Reserved(key: string) | Twice(key: string)

  /** What one call asks for. */
  datatype Call = Call(values: seq<(string, Cell)>, step: Option<int>, commit: bool, accumulate: bool,
                       reductions: map<string, Reduction>, weight: Float, now: real)

  function Numeric(c: Cell): Option<Float> {
    match c
    case Whole(n) => Some(Finite(n as real))
    case Number(f) => Some(f)
    case Other(_) => None
  }

  // ---------------------------------------------------------------- one metric

  /** A metric of the open row: its value, and its weight if it is a mean. */
  datatype Slot = Slot(value: Option<Cell>, weight: Option<Float>)

  const EMPTY := Slot(None, None)

  function Current(s: Slot): Option<Float> { if s.value.Some? then Numeric(s.value.value) else None }

  /** Replacing a value forgets its weight. */
  function Replaced(value: Cell): Slot { Slot(Some(value), None) }

  /** Accumulating a value into a slot. */
  function Accumulated(s: Slot, value: Cell, reduction: Option<Reduction>, weight: Float): Slot {
    match Numeric(value)
    case None => Replaced(value)
    case Some(v) =>
      if reduction == Some(Mean) then Averaged(s, value, v, weight)
      else if Current(s).None? then Replaced(value)
      else if reduction == Some(Max) then Replaced(Larger(s.value.value, value))
      else Replaced(Added(s.value.value, value))
  }

  function Averaged(s: Slot, value: Cell, v: Float, weight: Float): Slot {
    var before := if Current(s).Some? && s.weight.Some? then s.weight.value else Finite(0.0);
    Slot(Some(if before == Finite(0.0) then value
              else if weight == Finite(0.0) then s.value.value
              else Number(Over(Plus(Times(Current(s).value, before), Times(v, weight)), Plus(before, weight)))),
         Some(Plus(before, weight)))
  }

  /** Integers compare exactly, other numbers as floats; not-a-number replaces what was there. */
  function Larger(previous: Cell, value: Cell): Cell {
    match (Numeric(previous), Numeric(value))
    case (Some(p), Some(v)) =>
      if v == NaN || (if previous.Whole? && value.Whole? then value.n > previous.n else Above(v, p)) then value else previous
    case _ => value
  }

  /** Integers add exactly. */
  function Added(previous: Cell, value: Cell): Cell {
    if previous.Whole? && value.Whole? then Whole(previous.n + value.n)
    else
      match (Numeric(previous), Numeric(value))
      case (Some(p), Some(v)) => Number(Plus(v, p))
      case _ => value
  }

  // ---------------------------------------------------------------- the whole row

  datatype Row = Row(open: Option<int>, data: map<string, Cell>, weights: map<string, Float>, time: real,
                     next: int, last: Option<int>, allow: bool)
  {
    function SlotOf(key: string): Slot {
      Slot(if key in data then Some(data[key]) else None, if key in weights then Some(weights[key]) else None)
    }

    function WithSlot(key: string, s: Slot): Row {
      this.(data := if s.value.Some? then data[key := s.value.value] else data - {key},
            weights := if s.weight.Some? then weights[key := s.weight.value] else weights - {key})
    }
  }

  const RESERVED_KEYS := {"_step", "_time"}

  function Merged(r: Row, call: Call, key: string, value: Cell): Row {
    if key in RESERVED_KEYS then r
    else if !call.accumulate then r.WithSlot(key, Replaced(value))
    else
      var reduction := if key in call.reductions then Some(call.reductions[key]) else None;
      r.WithSlot(key, Accumulated(r.SlotOf(key), value, reduction, call.weight))
  }

  function MergeWarnings(r: Row, call: Call, key: string): seq<Warning> {
    if key in RESERVED_KEYS then [Reserved(key)]
    else if !call.accumulate && key in r.data then [Twice(key)] else []
  }

  function MergedAll(r: Row, call: Call, values: seq<(string, Cell)>): Row {
    if values == [] then r
    else MergedLast(MergedAll(r, call, values[..|values| - 1]), call, values[|values| - 1])
  }

  function MergedLast(r: Row, call: Call, value: (string, Cell)): Row { Merged(r, call, value.0, value.1) }

  function AllWarnings(r: Row, call: Call, values: seq<(string, Cell)>): seq<Warning> {
    if values == [] then []
    else
      var n := |values| - 1;
      AllWarnings(r, call, values[..n]) + MergeWarnings(MergedAll(r, call, values[..n]), call, values[n].0)
  }

  function Closing(r: Row): seq<Record> { if r.open.None? then [] else [Record(r.open.value, r.time, r.data)] }

  function Closed(r: Row): Row {
    if r.open.None? then r
    else r.(open := None, data := map[], weights := map[], last := r.open, next := r.open.value + 1)
  }

  function Target(r: Row, step: Option<int>): int {
    if step.Some? then step.value else if r.open.Some? then r.open.value else r.next
  }

  /** The step a new one must not precede. */
  function Reference(r: Row): Option<int> { if r.open.Some? then r.open else r.last }

  predicate Refused(r: Row, step: Option<int>) {
    step.Some? && !r.allow && Reference(r).Some? && step.value < Reference(r).value
  }

  /** Opening a row for a step closes the row of another step. */
  function Turned(r: Row, target: int, now: real): Row {
    if r.open == Some(target) then r
    else Closed(r).(open := Some(target), time := now, data := map[], weights := map[])
  }

  /** The row after a call, and the rows it has closed. */
  function Ingested(r: Row, call: Call): Row {
    if Refused(r, call.step) then r
    else
      var merged := MergedAll(Turned(r, Target(r, call.step), call.now), call, call.values);
      if call.commit then Closed(merged) else merged
  }

  function Emitted(r: Row, call: Call): seq<Record> {
    if Refused(r, call.step) then []
    else
      var target := Target(r, call.step);
      var merged := MergedAll(Turned(r, target, call.now), call, call.values);
      (if r.open == Some(target) then [] else Closing(r)) + if call.commit then Closing(merged) else []
  }

  function Warned(r: Row, call: Call): seq<Warning> {
    if Refused(r, call.step) then [Dropped(call.step.value, Reference(r).value)]
    else AllWarnings(Turned(r, Target(r, call.step), call.now), call, call.values)
  }

  function Resolved(r: Row, call: Call): Option<int> {
    if Refused(r, call.step) then None else Some(Target(r, call.step))
  }

  /** The state object. */
  class State {
    const allow: bool
    var open: Option<int>
    var data: map<string, Cell>
    var weights: map<string, Float>
    var time: real
    var next: int
    var last: Option<int>

    function Now(): Row
      reads this
    {
      Row(open, data, weights, time, next, last, allow)
    }

    constructor (allow: bool)
      ensures Now() == Row(None, map[], map[], 0.0, 0, None, allow)
    {
      this.allow := allow;
      open, data, weights, time, next, last := None, map[], map[], 0.0, 0, None;
    }

    method Resume(step: int)
      modifies this
      ensures Now() == old(Now()).(last := Some(step), next := step + 1)
    {
      next, last := step + 1, Some(step);
    }

    method Close() returns (closed: seq<Record>)
      modifies this
      ensures Now() == Closed(old(Now())) && closed == Closing(old(Now()))
    {
      if open.None? { return []; }
      closed := [Record(open.value, time, data)];
      last, next := open, open.value + 1;
      open, data, weights := None, map[], map[];
    }

    /** One metric of a call. */
    method Merge(call: Call, key: string, value: Cell) returns (warnings: seq<Warning>)
      modifies this`data, this`weights
      ensures Now() == Merged(old(Now()), call, key, value)
      ensures warnings == MergeWarnings(old(Now()), call, key)
    {
      hide Averaged, Larger, Added;
      if key in RESERVED_KEYS { return [Reserved(key)]; }
      if !call.accumulate {
        warnings := if key in data then [Twice(key)] else [];
        weights := weights - {key};
        data := data[key := value];
        return;
      }
      var previous := if key in data then Some(data[key]) else None;
      var reduction := if key in call.reductions then Some(call.reductions[key]) else None;
      var current := if previous.Some? then Numeric(previous.value) else None;
      var merged := value;
      if Numeric(value).Some? {
        var v := Numeric(value).value;
        if reduction == Some(Mean) {
          var before := if current.Some? && key in weights then weights[key] else Finite(0.0);
          var slot := Slot(previous, if key in weights then Some(weights[key]) else None);
          AveragedMeans(slot, value, v, call.weight);
          weights := weights[key := Plus(before, call.weight)];
          if before != Finite(0.0) {
            merged := if call.weight == Finite(0.0) then previous.value
                      else Number(Over(Plus(Times(current.value, before), Times(v, call.weight)), Plus(before, call.weight)));
          }
        } else {
          weights := weights - {key};
          if current.Some? {
            merged := if reduction == Some(Max) then Larger(previous.value, value) else Added(previous.value, value);
          }
        }
      } else {
        weights := weights - {key};
      }
      data := data[key := merged];
      warnings := [];
    }

    /** `ingest_object`. */
    method Ingest(call: Call) returns (resolved: Option<int>, closed: seq<Record>, warnings: seq<Warning>)
      modifies this
      ensures Now() == Ingested(old(Now()), call) && closed == Emitted(old(Now()), call)
      ensures warnings == Warned(old(Now()), call) && resolved == Resolved(old(Now()), call)
    {
      hide Accumulated, Merged, MergeWarnings, MergedAll, AllWarnings, Closed, Closing;
      closed, warnings := [], [];
      if call.step.Some? {
        var reference := if open.Some? then open else last;
        if !allow && reference.Some? && call.step.value < reference.value {
          return None, [], [Dropped(call.step.value, reference.value)];
        }
      }
      var target := if call.step.Some? then call.step.value else if open.Some? then open.value else next;
      if open != Some(target) {
        closed := Close();
        open, time, data, weights := Some(target), call.now, map[], map[];
      }
      ghost var turned := Now();
      MergedNothing(turned, call);
      var i := 0;
      while i < |call.values|
        invariant 0 <= i <= |call.values|
        invariant Now() == MergedAll(turned, call, call.values[..i])
        invariant warnings == AllWarnings(turned, call, call.values[..i])
      {
        var key, value := call.values[i].0, call.values[i].1;
        MergedPush(turned, call, call.values[..i], call.values[i]);
        assert call.values[..i + 1] == call.values[..i] + [call.values[i]];
        var more := Merge(call, key, value);
        warnings := warnings + more;
        i := i + 1;
      }
      assert call.values[..i] == call.values;
      if call.commit {
        var more := Close();
        closed := closed + more;
      }
      resolved := Some(target);
    }

    /** `ingest_values`: a call that opens and commits a row at once skips the open row. */
    method IngestValues(call: Call) returns (resolved: Option<int>, closed: seq<Record>, warnings: seq<Warning>)
      requires DistinctKeys(call.values)
      modifies this
      ensures Now() == Ingested(old(Now()), call) && closed == Emitted(old(Now()), call)
      ensures warnings == Warned(old(Now()), call) && resolved == Resolved(old(Now()), call)
    {
      hide MergedAll, AllWarnings, Merged, MergeWarnings;
      if open.Some? || !call.commit || call.accumulate {
        resolved, closed, warnings := Ingest(call);
        return;
      }
      var target := if call.step.Some? then call.step.value else next;
      if call.step.Some? && !allow && last.Some? && target < last.value {
        return None, [], [Dropped(target, last.value)];
      }
      ghost var turned := Turned(Now(), target, call.now);
      var record := map[];
      warnings := [];
      var i := 0;
      MergedNothing(turned, call);
      while i < |call.values|
        invariant 0 <= i <= |call.values|
        invariant MergedAll(turned, call, call.values[..i]) == turned.(data := record)
        invariant warnings == AllWarnings(turned, call, call.values[..i])
        invariant forall key :: key in record ==> exists j :: 0 <= j < i && call.values[j].0 == key
        modifies {}
      {
        var key, value := call.values[i].0, call.values[i].1;
        MergedPush(turned, call, call.values[..i], call.values[i]);
        assert call.values[..i + 1] == call.values[..i] + [call.values[i]];
        assert key !in record;
        ReplacedFresh(turned.(data := record), call, key, value);
        if key in RESERVED_KEYS {
          warnings := warnings + [Reserved(key)];
        } else {
          assert warnings + [] == warnings;
          record := record[key := value];
        }
        i := i + 1;
      }
      assert call.values[..i] == call.values;
      last, next, time, data, weights := Some(target), target + 1, call.now, map[], map[];
      resolved, closed := Some(target), [Record(target, call.now, record)];
      assert [] + closed == closed;
    }
  }

  predicate DistinctKeys(values: seq<(string, Cell)>) {
    forall i, j :: 0 <= i < j < |values| ==> values[i].0 != values[j].0
  }

  lemma ReplacedFresh(r: Row, call: Call, key: string, value: Cell)
    requires !call.accumulate && key !in r.data && r.weights == map[]
    ensures Merged(r, call, key, value) == if key in RESERVED_KEYS then r else r.(data := r.data[key := value])
    ensures MergeWarnings(r, call, key) == if key in RESERVED_KEYS then [Reserved(key)] else []
  {
  }

  lemma MergedNothing(r: Row, call: Call)
    ensures MergedAll(r, call, []) == r && AllWarnings(r, call, []) == []
  {
  }

  lemma AveragedMeans(s: Slot, value: Cell, v: Float, weight: Float)
    ensures var before := if Current(s).Some? && s.weight.Some? then s.weight.value else Finite(0.0);
      Averaged(s, value, v, weight)
      == Slot(Some(if before == Finite(0.0) then value
                   else if weight == Finite(0.0) then s.value.value
                   else Number(Over(Plus(Times(Current(s).value, before), Times(v, weight)), Plus(before, weight)))),
              Some(Plus(before, weight)))
  {
  }

  lemma MergedPush(r: Row, call: Call, values: seq<(string, Cell)>, v: (string, Cell))
    ensures MergedAll(r, call, values + [v]) == Merged(MergedAll(r, call, values), call, v.0, v.1)
    ensures AllWarnings(r, call, values + [v])
         == AllWarnings(r, call, values) + MergeWarnings(MergedAll(r, call, values), call, v.0)
  {
    hide Merged, MergeWarnings;
    assert (values + [v])[..|values|] == values;
  }

  // ---------------------------------------------------------------- at which steps rows close

  /** After a row has closed the next step follows it; under the monotonic policy no open row
      precedes it. */
  predicate Keeps(r: Row) {
    && (r.last.Some? ==> r.next == r.last.value + 1)
    && (!r.allow && r.last.Some? && r.open.Some? ==> r.open.value >= r.last.value)
  }

  function Rows(r: Row, calls: seq<Call>): Row {
    if calls == [] then r else Ingested(Rows(r, calls[..|calls| - 1]), calls[|calls| - 1])
  }

  /** All rows a sequence of calls closes. */
  function AllEmitted(r: Row, calls: seq<Call>): seq<Record> {
    if calls == [] then []
    else AllEmitted(r, calls[..|calls| - 1]) + Emitted(Rows(r, calls[..|calls| - 1]), calls[|calls| - 1])
  }

  predicate Climbing(rows: seq<Record>) {
    forall i, j :: 0 <= i < j < |rows| ==> rows[i].step <= rows[j].step
  }

  lemma {:induction false} MergedKeepsSteps(r: Row, call: Call, values: seq<(string, Cell)>)
    ensures var m := MergedAll(r, call, values);
      m.open == r.open && m.last == r.last && m.next == r.next && m.allow == r.allow && m.time == r.time
  {
    hide Accumulated;
    if values != [] { MergedKeepsSteps(r, call, values[..|values| - 1]); }
  }

  /** One call: what it closes follows what was closed before, and is remembered as last. */
  lemma StepKeeps(r: Row, call: Call)
    requires Keeps(r)
    ensures var after, rows := Ingested(r, call), Emitted(r, call);
      && Keeps(after) && after.allow == r.allow
      && (rows == [] ==> after.last == r.last)
      && (rows != [] ==> after.last == Some(rows[|rows| - 1].step) && after.next == rows[|rows| - 1].step + 1)
      && (!r.allow ==> Climbing(rows) && (r.last.Some? ==> forall i :: 0 <= i < |rows| ==> rows[i].step >= r.last.value))
  {
    hide MergedAll;
    var target := Target(r, call.step);
    MergedKeepsSteps(Turned(r, target, call.now), call, call.values);
  }

  lemma NothingClimbs()
    ensures Climbing([])
  {
  }

  lemma ClimbingConcat(a: seq<Record>, b: seq<Record>)
    requires Climbing(a) && Climbing(b)
    requires a != [] ==> forall i :: 0 <= i < |b| ==> b[i].step >= a[|a| - 1].step
    ensures Climbing(a + b)
  {
    assert a != [] ==> forall i :: 0 <= i < |a| ==> a[i].step <= a[|a| - 1].step;
  }

  /** Under the monotonic policy closed steps never decrease, whatever is ingested; and always
      the next step is the last closed one plus one. */
  lemma {:induction false} ClosedStepsClimb(r: Row, calls: seq<Call>)
    requires Keeps(r)
    ensures var after, rows := Rows(r, calls), AllEmitted(r, calls);
      && Keeps(after) && after.allow == r.allow
      && (rows == [] ==> after.last == r.last)
      && (rows != [] ==> after.last == Some(rows[|rows| - 1].step) && after.next == rows[|rows| - 1].step + 1)
      && (!r.allow ==> Climbing(rows))
  {
    hide Ingested, Emitted, Climbing;
    if calls == [] {
      NothingClimbs();
    } else {
      var init, call := calls[..|calls| - 1], calls[|calls| - 1];
      ClosedStepsClimb(r, init);
      StepKeeps(Rows(r, init), call);
      var a, b := AllEmitted(r, init), Emitted(Rows(r, init), call);
      assert b == [] ==> a + b == a;
      if !r.allow { ClimbingConcat(a, b); }
    }
  }

  // ---------------------------------------------------------------- reductions

  /** What is accumulated into one metric of one open row. */
  datatype Sample = Sample(value: Cell, weight: Float)

  function Folded(samples: seq<Sample>, reduction: Option<Reduction>): Slot {
    if samples == [] then EMPTY
    else
      var n := |samples| - 1;
      Accumulated(Folded(samples[..n], reduction), samples[n].value, reduction, samples[n].weight)
  }

  predicate Finitely(s: Sample) {
    Numeric(s.value).Some? && Numeric(s.value).value.Finite? && s.weight.Finite? && s.weight.r >= 0.0
  }

  predicate AllFinite(samples: seq<Sample>) { forall i :: 0 <= i < |samples| ==> Finitely(samples[i]) }

  function ValueOf(s: Sample): real
    requires Finitely(s)
  {
    Numeric(s.value).value.r
  }

  function Weights(samples: seq<Sample>): real
    requires AllFinite(samples)
  {
    if samples == [] then 0.0 else Weights(samples[..|samples| - 1]) + samples[|samples| - 1].weight.r
  }

  function Weighted(samples: seq<Sample>): real
    requires AllFinite(samples)
  {
    if samples == [] then 0.0
    else
      Weighted(samples[..|samples| - 1]) + Share(samples[|samples| - 1])
  }

  function Share(s: Sample): real
    requires Finitely(s)
  {
    ValueOf(s) * s.weight.r
  }

  /** A slot holding a mean of this total weight and weighted sum. */
  ghost predicate Balances(s: Slot, weights: real, total: real) {
    && s.weight == Some(Finite(weights)) && weights >= 0.0
    && Current(s).Some? && Current(s).value.Finite? && Current(s).value.r * weights == total
  }

  /** The stored mean times its total weight is the sum of weight times value. */
  lemma {:induction false} MeanIsWeighted(samples: seq<Sample>)
    requires AllFinite(samples) && samples != []
    ensures Balances(Folded(samples, Some(Mean)), Weights(samples), Weighted(samples))
  {
    hide Accumulated, Balances, Share, Weights, Weighted;
    var n := |samples| - 1;
    var init, last := samples[..n], samples[n];
    assert Finitely(last);
    TotalsStep(samples);
    if init == [] {
      FirstMean(last);
    } else {
      MeanIsWeighted(init);
      NextMean(Folded(init, Some(Mean)), last, Weights(init), Weighted(init));
    }
  }

  lemma TotalsStep(samples: seq<Sample>)
    requires AllFinite(samples) && samples != [] && Finitely(samples[|samples| - 1])
    ensures var n := |samples| - 1; var init, last := samples[..n], samples[n];
      && Weights(samples) == (if n == 0 then 0.0 else Weights(init)) + last.weight.r
      && Weighted(samples) == (if n == 0 then 0.0 else Weighted(init)) + Share(last)
  {
    hide Share;
    assert Weights([]) == 0.0 && Weighted([]) == 0.0;
  }

  lemma FirstMean(last: Sample)
    requires Finitely(last)
    ensures Balances(Accumulated(EMPTY, last.value, Some(Mean), last.weight), 0.0 + last.weight.r,
                     0.0 + Share(last))
  {
  }

  lemma NextMean(s: Slot, last: Sample, weights: real, total: real)
    requires Balances(s, weights, total) && Finitely(last)
    ensures Balances(Accumulated(s, last.value, Some(Mean), last.weight), weights + last.weight.r,
                     total + Share(last))
  {
    var m, v, x := Current(s).value.r, ValueOf(last), last.weight.r;
    if weights == 0.0 {
      assert total == 0.0;
    } else if x == 0.0 {
      assert v * x == 0.0;
    } else {
      Quotient(m * weights + v * x, weights + x);
    }
  }

  lemma Quotient(a: real, b: real)
    requires b != 0.0
    ensures a / b * b == a
  {
  }

  /** The stored maximum is one of the values, and no value exceeds it. */
  lemma {:induction false} MaxIsLargest(samples: seq<Sample>)
    requires AllFinite(samples) && samples != []
    ensures var s := Folded(samples, Some(Max));
      && s.value.Some? && (exists i :: 0 <= i < |samples| && samples[i].value == s.value.value)
      && forall i :: 0 <= i < |samples| ==> ValueOf(samples[i]) <= Numeric(s.value.value).value.r
  {
    hide Averaged;
    var n := |samples| - 1;
    var init, last := samples[..n], samples[n];
    assert Finitely(last);
    if init != [] {
      MaxIsLargest(init);
      var s := Folded(init, Some(Max));
      var i :| 0 <= i < n && init[i].value == s.value.value;
      assert Finitely(samples[i]);
      assert forall j :: 0 <= j < n ==> samples[j] == init[j];
    }
  }

  predicate AllWhole(samples: seq<Sample>) { forall i :: 0 <= i < |samples| ==> samples[i].value.Whole? }

  function WholeSum(samples: seq<Sample>): int
    requires AllWhole(samples)
  {
    if samples == [] then 0 else WholeSum(samples[..|samples| - 1]) + samples[|samples| - 1].value.n
  }

  function RealSum(samples: seq<Sample>): real
    requires AllFinite(samples)
  {
    if samples == [] then 0.0 else RealSum(samples[..|samples| - 1]) + ValueOf(samples[|samples| - 1])
  }

  /** Sums of integers are exact integers, of whatever size. */
  lemma {:induction false} WholeSumIsExact(samples: seq<Sample>)
    requires AllWhole(samples) && samples != []
    ensures Folded(samples, Some(Sum)) == Replaced(Whole(WholeSum(samples)))
    ensures Folded(samples, None) == Replaced(Whole(WholeSum(samples)))
  {
    hide Averaged, Larger;
    var n := |samples| - 1;
    if n > 0 { WholeSumIsExact(samples[..n]); }
  }

  /** Other finite values add up as well. */
  lemma {:induction false} SumIsTotal(samples: seq<Sample>)
    requires AllFinite(samples) && samples != []
    ensures Current(Folded(samples, Some(Sum))) == Some(Finite(RealSum(samples)))
    ensures Folded(samples, None) == Folded(samples, Some(Sum))
  {
    hide Averaged, Larger;
    var n := |samples| - 1;
    var init, last := samples[..n], samples[n];
    assert Finitely(last);
    if n > 0 { SumIsTotal(init); }
  }

  // ---------------------------------------------------------------- from calls to metrics

  function SamplesOf(values: seq<(string, Cell)>, key: string, weight: Float): seq<Sample> {
    if values == [] then []
    else
      var n := |values| - 1;
      SamplesOf(values[..n], key, weight) + if values[n].0 == key then [Sample(values[n].1, weight)] else []
  }

  function FoldedFrom(s: Slot, samples: seq<Sample>, reduction: Option<Reduction>): Slot {
    if samples == [] then s
    else
      var n := |samples| - 1;
      Accumulated(FoldedFrom(s, samples[..n], reduction), samples[n].value, reduction, samples[n].weight)
  }

  lemma {:induction false} FoldedOn(a: seq<Sample>, b: seq<Sample>, reduction: Option<Reduction>)
    ensures FoldedFrom(Folded(a, reduction), b, reduction) == Folded(a + b, reduction)
  {
    hide Accumulated;
    if b == [] {
      assert a + b == a;
    } else {
      var n := |b| - 1;
      FoldedOn(a, b[..n], reduction);
      assert (a + b)[..|a + b| - 1] == a + b[..n];
    }
  }

  function ReductionOf(call: Call, key: string): Option<Reduction> {
    if key in call.reductions then Some(call.reductions[key]) else None
  }

  /** An accumulating call changes a metric only by its own samples of that metric. */
  lemma {:induction false} CallFolds(r: Row, call: Call, values: seq<(string, Cell)>, key: string)
    requires call.accumulate && key !in RESERVED_KEYS
    ensures MergedAll(r, call, values).SlotOf(key)
         == FoldedFrom(r.SlotOf(key), SamplesOf(values, key, call.weight), ReductionOf(call, key))
  {
    hide Accumulated;
    if values != [] {
      var n := |values| - 1;
      CallFolds(r, call, values[..n], key);
      var before, samples := MergedAll(r, call, values[..n]), SamplesOf(values[..n], key, call.weight);
      SlotMerged(before, call, values[n].0, values[n].1, key);
      if values[n].0 == key {
        assert (samples + [Sample(values[n].1, call.weight)])[..|samples|] == samples;
      } else {
        assert samples + [] == samples;
      }
    }
  }

  lemma SlotMerged(r: Row, call: Call, key: string, value: Cell, other: string)
    requires call.accumulate && other !in RESERVED_KEYS
    ensures Merged(r, call, key, value).SlotOf(other)
         == if key == other then Accumulated(r.SlotOf(other), value, ReductionOf(call, other), call.weight)
            else r.SlotOf(other)
  {
    hide Averaged, Larger, Added;
    AccumulatedIsThere(r.SlotOf(key), value, ReductionOf(call, key), call.weight);
  }

  lemma AccumulatedIsThere(s: Slot, value: Cell, reduction: Option<Reduction>, weight: Float)
    ensures Accumulated(s, value, reduction, weight).value.Some?
  {
  }

  /** Calls that accumulate into one open row, all reducing a metric the same way. */
  predicate Accumulating(calls: seq<Call>, step: int, key: string, reduction: Option<Reduction>) {
    forall i :: 0 <= i < |calls| ==>
      calls[i].accumulate && !calls[i].commit && (calls[i].step.None? || calls[i].step == Some(step))
      && ReductionOf(calls[i], key) == reduction
  }

  function AllSamples(calls: seq<Call>, key: string): seq<Sample> {
    if calls == [] then []
    else
      var last := calls[|calls| - 1];
      AllSamples(calls[..|calls| - 1], key) + SamplesOf(last.values, key, last.weight)
  }

  /** The open row holds each metric folded from everything accumulated since it was opened. */
  lemma {:induction false} OpenRowFolds(r: Row, calls: seq<Call>, step: int, key: string, reduction: Option<Reduction>)
    requires r.open == Some(step) && r.SlotOf(key) == EMPTY && key !in RESERVED_KEYS
    requires Accumulating(calls, step, key, reduction)
    ensures Rows(r, calls).open == Some(step)
    ensures Rows(r, calls).SlotOf(key) == Folded(AllSamples(calls, key), reduction)
  {
    hide Accumulated;
    if calls != [] {
      var n := |calls| - 1;
      var init, call := calls[..n], calls[n];
      OpenRowFolds(r, init, step, key, reduction);
      var before := Rows(r, init);
      MergedKeepsSteps(before, call, call.values);
      CallFolds(before, call, call.values, key);
      FoldedOn(AllSamples(init, key), SamplesOf(call.values, key, call.weight), reduction);
    }
  }

  // ---------------------------------------------------------------- what the open row shows after all calls

  /** After any accumulating calls the stored mean times the stored weight is the sum of weight
      times value over everything accumulated. */
  lemma OpenMean(r: Row, calls: seq<Call>, step: int, key: string)
    requires r.open == Some(step) && r.SlotOf(key) == EMPTY && key !in RESERVED_KEYS
    requires Accumulating(calls, step, key, Some(Mean))
    requires AllSamples(calls, key) != [] && AllFinite(AllSamples(calls, key))
    ensures var after, samples := Rows(r, calls), AllSamples(calls, key);
      && key in after.data && key in after.weights
      && Balances(Slot(Some(after.data[key]), Some(after.weights[key])), Weights(samples), Weighted(samples))
  {
    hide Folded, Weights, Weighted, Balances, AllSamples, Rows, AllFinite;
    OpenRowFolds(r, calls, step, key, Some(Mean));
    var slot, samples := Rows(r, calls).SlotOf(key), AllSamples(calls, key);
    MeanIsWeighted(samples);
    BalancesMeans(slot, Weights(samples), Weighted(samples));
  }

  lemma BalancesMeans(s: Slot, weights: real, total: real)
    requires Balances(s, weights, total)
    ensures s.value.Some? && s.weight.Some?
  {
  }

  /** The stored maximum is one of the values accumulated, and none of them exceeds it. */
  lemma OpenMax(r: Row, calls: seq<Call>, step: int, key: string)
    requires r.open == Some(step) && r.SlotOf(key) == EMPTY && key !in RESERVED_KEYS
    requires Accumulating(calls, step, key, Some(Max))
    requires AllSamples(calls, key) != [] && AllFinite(AllSamples(calls, key))
    ensures var after, samples := Rows(r, calls), AllSamples(calls, key);
      && key in after.data && (exists i :: 0 <= i < |samples| && samples[i].value == after.data[key])
      && forall i :: 0 <= i < |samples| ==> ValueOf(samples[i]) <= Numeric(after.data[key]).value.r
  {
    hide Folded;
    OpenRowFolds(r, calls, step, key, Some(Max));
    MaxIsLargest(AllSamples(calls, key));
  }

  /** The stored sum is the sum of everything accumulated, exact for integers. */
  lemma OpenSum(r: Row, calls: seq<Call>, step: int, key: string, reduction: Option<Reduction>)
    requires r.open == Some(step) && r.SlotOf(key) == EMPTY && key !in RESERVED_KEYS
    requires reduction in {None, Some(Sum)} && Accumulating(calls, step, key, reduction)
    requires AllSamples(calls, key) != []
    ensures var after, samples := Rows(r, calls), AllSamples(calls, key);
      && (AllWhole(samples) ==> key in after.data && after.data[key] == Whole(WholeSum(samples)))
      && (AllFinite(samples) ==> key in after.data && Numeric(after.data[key]) == Some(Finite(RealSum(samples))))
  {
    hide Folded;
    var samples := AllSamples(calls, key);
    OpenRowFolds(r, calls, step, key, reduction);
    if AllWhole(samples) { WholeSumIsExact(samples); }
    if AllFinite(samples) { SumIsTotal(samples); }
  }

  // ---------------------------------------------------------------- what calls do to the row

  /** Calls that set metrics of one open row. */
  predicate Setting(calls: seq<Call>, step: int) {
    forall i :: 0 <= i < |calls| ==>
      !calls[i].accumulate && !calls[i].commit && (calls[i].step.None? || calls[i].step == Some(step))
  }

  /** The later value wins: a metric is the last one given to it, and forgets its weight. */
  lemma {:induction false} LastWins(r: Row, calls: seq<Call>, step: int, key: string)
    requires r.open == Some(step) && key !in RESERVED_KEYS && Setting(calls, step)
    ensures Rows(r, calls).open == Some(step)
    ensures var after, samples := Rows(r, calls), AllSamples(calls, key);
      if samples == [] then after.SlotOf(key) == r.SlotOf(key)
      else key in after.data && after.data[key] == samples[|samples| - 1].value && key !in after.weights
  {
    hide Ingested, MergedAll, SamplesOf;
    if calls != [] {
      var n := |calls| - 1;
      var init, call := calls[..n], calls[n];
      LastWins(r, init, step, key);
      SetsOnly(Rows(r, init), call, step);
      LastOfCall(Rows(r, init), call, call.values, key);
      var a, b := AllSamples(init, key), SamplesOf(call.values, key, call.weight);
      assert b == [] ==> a + b == a;
    }
  }

  lemma SetsOnly(r: Row, call: Call, step: int)
    requires r.open == Some(step) && Setting([call], step)
    ensures Ingested(r, call) == MergedAll(r, call, call.values) && Ingested(r, call).open == Some(step)
  {
    hide MergedAll;
    assert Setting([call], step) && [call][0] == call;
    MergedKeepsSteps(r, call, call.values);
  }

  lemma {:induction false} LastOfCall(r: Row, call: Call, values: seq<(string, Cell)>, key: string)
    requires !call.accumulate && key !in RESERVED_KEYS
    ensures var after, samples := MergedAll(r, call, values), SamplesOf(values, key, call.weight);
      if samples == [] then after.SlotOf(key) == r.SlotOf(key)
      else key in after.data && after.data[key] == samples[|samples| - 1].value && key !in after.weights
  {
    if values != [] { LastOfCall(r, call, values[..|values| - 1], key); }
  }

  /** What one call does to rows: a step before the last one is refused under the monotonic policy;
      otherwise the row of another step closes as it is, and the row of this step closes too if the
      call commits it. */
  lemma CallMeans(r: Row, call: Call)
    ensures var after, rows := Ingested(r, call), Emitted(r, call);
      if !r.allow && call.step.Some? && call.step.value < BeforeStep(r, call.step.value) then
        after == r && rows == [] && Resolved(r, call) == None
        && Warned(r, call) == [Dropped(call.step.value, BeforeStep(r, call.step.value))]
      else
        var step := if call.step.Some? then call.step.value else if r.open.Some? then r.open.value else r.next;
        var other := r.open.Some? && r.open.value != step;
        && Resolved(r, call) == Some(step)
        && (other ==> rows != [] && rows[0] == Record(r.open.value, r.time, r.data))
        && |rows| == (if other then 1 else 0) + (if call.commit then 1 else 0)
        && (call.commit ==>
              && rows[|rows| - 1].step == step && rows[|rows| - 1].time == (if r.open == Some(step) then r.time else call.now)
              && after.open == None && after.last == Some(step) && after.next == step + 1)
        && (!call.commit ==>
              && after.open == Some(step) && after.time == (if r.open == Some(step) then r.time else call.now)
              && after.last == (if other then r.open else r.last) && after.next == (if other then r.open.value + 1 else r.next))
  {
    hide MergedAll, AllWarnings;
    MergedKeepsSteps(Turned(r, Target(r, call.step), call.now), call, call.values);
  }

  /** The step that a new one must reach: the open row's, or else the last one closed. */
  function BeforeStep(r: Row, step: int): int {
    if r.open.Some? then r.open.value else if r.last.Some? then r.last.value else step
  }

  /** The row of a new step starts empty, and holds just the metrics given. */
  lemma {:induction false} MergedHolds(r: Row, call: Call, values: seq<(string, Cell)>, key: string)
    ensures key in MergedAll(r, call, values).data <==>
      key in r.data || (key !in RESERVED_KEYS && exists i :: 0 <= i < |values| && values[i].0 == key)
  {
    hide Accumulated;
    if values != [] {
      var n := |values| - 1;
      var init, last := values[..n], values[n];
      MergedHolds(r, call, init, key);
      MergedKey(MergedAll(r, call, init), call, last.0, last.1, key);
      assert (exists i :: 0 <= i < |values| && values[i].0 == key) <==>
        (exists i :: 0 <= i < |init| && init[i].0 == key) || last.0 == key by { GivenPush(values, key); }
    }
  }

  lemma GivenPush(values: seq<(string, Cell)>, key: string)
    requires values != []
    ensures var n := |values| - 1;
      (exists i :: 0 <= i < |values| && values[i].0 == key) <==>
      (exists i :: 0 <= i < n && values[..n][i].0 == key) || values[n].0 == key
  {
    var n := |values| - 1;
    if exists i :: 0 <= i < n && values[..n][i].0 == key {
      var i :| 0 <= i < n && values[..n][i].0 == key;
      assert values[i].0 == key;
    }
    if exists i :: 0 <= i < |values| && values[i].0 == key {
      var i :| 0 <= i < |values| && values[i].0 == key;
      assert i < n ==> values[..n][i].0 == key;
    }
  }

  lemma MergedKey(r: Row, call: Call, key: string, value: Cell, other: string)
    ensures other in Merged(r, call, key, value).data <==> other in r.data || (other == key && key !in RESERVED_KEYS)
  {
    hide Averaged, Larger, Added;
    AccumulatedIsThere(r.SlotOf(key), value, if key in call.reductions then Some(call.reductions[key]) else None, call.weight);
  }

  /** Reserved keys are warned of, and metrics given twice to a row that does not accumulate. */
  lemma {:induction false} WarningsMean(r: Row, call: Call, values: seq<(string, Cell)>, key: string)
    ensures Reserved(key) in AllWarnings(r, call, values) <==>
      key in RESERVED_KEYS && exists i :: 0 <= i < |values| && values[i].0 == key
    ensures Twice(key) in AllWarnings(r, call, values) <==>
      !call.accumulate && key !in RESERVED_KEYS
      && exists i: nat :: GivenAgain(r, values, key, i)
  {
    hide Merged;
    if values != [] {
      var n := |values| - 1;
      var init, last := values[..n], values[n];
      WarningsMean(r, call, init, key);
      MergedHolds(r, call, init, key);
      GivenPush(values, key);
      TwicePush(r, values, key);
    }
  }

  ghost predicate GivenAgain(r: Row, values: seq<(string, Cell)>, key: string, i: nat) {
    i < |values| && values[i].0 == key && (key in r.data || exists j :: 0 <= j < i && values[j].0 == key)
  }

  lemma TwicePush(r: Row, values: seq<(string, Cell)>, key: string)
    requires values != []
    ensures var n := |values| - 1; var init := values[..n];
      (exists i: nat :: GivenAgain(r, values, key, i)) <==>
      (exists i: nat :: GivenAgain(r, init, key, i))
      || (values[n].0 == key && (key in r.data || exists j :: 0 <= j < n && init[j].0 == key))
  {
    var n := |values| - 1;
    var init := values[..n];
    forall i: nat | i < n ensures GivenAgain(r, init, key, i) <==> GivenAgain(r, values, key, i) { GivenBefore(r, values, key, i); }
    assert GivenAgain(r, values, key, n) <==>
      values[n].0 == key && (key in r.data || exists j :: 0 <= j < n && init[j].0 == key) by {
      if exists j :: 0 <= j < n && values[j].0 == key {
        var j :| 0 <= j < n && values[j].0 == key;
        assert init[j].0 == key;
      }
      if exists j :: 0 <= j < n && init[j].0 == key {
        var j :| 0 <= j < n && init[j].0 == key;
        assert values[j].0 == key;
      }
    }
  }

  lemma GivenBefore(r: Row, values: seq<(string, Cell)>, key: string, i: nat)
    requires i < |values| - 1
    ensures GivenAgain(r, values[..|values| - 1], key, i) <==> GivenAgain(r, values, key, i)
  {
    var init := values[..|values| - 1];
    assert forall j :: 0 <= j <= i ==> init[j] == values[j];
  }
}
