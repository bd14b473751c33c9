/** The writer's running account of its log: line count, order flags and sparse anchors. */
module Tracker {
  import opened OrderedMap
  import opened Records
  import opened Results
  import opened LogRows
  import opened LogReader

  const MAX_ANCHORS: nat := 4096

  datatype Track = Track(lines: nat, next: nat, every: nat, index: seq<Anchor>,
                         last: Option<int>, max: Option<int>, sorted: bool, duplicates: bool)

  function Fresh(every: nat): Track {
    Track(0, 0, if every < 1 then 1 else every, [], None, None, true, false)
  }

  /** `iter().step_by(2)`. */
  function Halved(index: seq<Anchor>): seq<Anchor> {
    if index == [] then [] else if |index| == 1 then index else [index[0]] + Halved(index[2..])
  }

  function Anchored(t: Track, step: int, offset: nat): Track {
    if t.lines < t.next then t
    else
      var index := t.index + [Anchor(step, t.lines, offset)];
      if |index| > MAX_ANCHORS then
        var kept := Halved(index);
        t.(index := kept, every := 2 * t.every, next := kept[|kept| - 1].line + 2 * t.every)
      else t.(index := index, next := t.lines + t.every)
  }

  /** `Writer::track`. */
  function Tracked(t: Track, step: Option<int>, offset: nat): Track {
    match step
    case None => t.(lines := t.lines + 1)
    case Some(s) =>
      var a := Anchored(t, s, offset);
      a.(lines := t.lines + 1,
         last := Some(s),
         max := if t.max.None? || s > t.max.value then Some(s) else t.max,
         sorted := t.sorted && !(t.last.Some? && s < t.last.value),
         duplicates := t.duplicates || (t.last.Some? && s == t.last.value))
  }

  predicate Spaced(index: seq<Anchor>, every: nat) {
    forall i :: 0 <= i < |index| - 1 ==> index[i].line + every <= index[i + 1].line
  }

  /** Anchors exactly `every` lines apart, the first on line 0. */
  predicate Regular(index: seq<Anchor>, every: nat) {
    && (index != [] ==> index[0].line == 0)
    && (forall i :: 0 <= i < |index| - 1 ==> index[i].line + every == index[i + 1].line)
  }

  ghost predicate MaxOf(recs: seq<Record>, max: Option<int>) {
    if recs == [] then max == None
    else max.Some? && Has(recs, max.value) && forall i :: 0 <= i < |recs| ==> recs[i].key <= max.value
  }

  /** Steps never go back, and some step follows itself. */
  ghost predicate Orderly(recs: seq<Record>, sorted: bool, duplicates: bool) {
    && (sorted <==> forall i :: 0 <= i < |recs| - 1 ==> recs[i].key <= recs[i + 1].key)
    && (duplicates <==> exists i :: 0 <= i < |recs| - 1 && recs[i].key == recs[i + 1].key)
  }

  lemma OrderlyPush(recs: seq<Record>, rec: Record, sorted: bool, duplicates: bool)
    requires Orderly(recs, sorted, duplicates)
    ensures Orderly(recs + [rec],
      sorted && (recs != [] ==> recs[|recs| - 1].key <= rec.key),
      duplicates || (recs != [] && recs[|recs| - 1].key == rec.key))
  {
    var all := recs + [rec];
    assert all[|recs|] == rec && forall i :: 0 <= i < |recs| ==> all[i] == recs[i];
    if recs != [] { assert all[|recs| - 1].key == recs[|recs| - 1].key && all[|recs| - 1 + 1] == rec; }
    if exists i :: 0 <= i < |recs| - 1 && recs[i].key == recs[i + 1].key {
      var i :| 0 <= i < |recs| - 1 && recs[i].key == recs[i + 1].key;
      assert all[i].key == all[i + 1].key;
    }
  }

  /** What the account says about the rows of the log. */
  ghost predicate Describes(parse: Parser, rows: seq<RawRow>, t: Track) {
    var recs := Parsed(parse, rows);
    && t.lines == |rows| && t.every > 0
    && SoundIndex(parse, rows, t.index)
    && |t.index| <= MAX_ANCHORS
    && Spaced(t.index, t.every)
    && t.next == (if t.index == [] then 0 else t.index[|t.index| - 1].line + t.every)
    && t.last == (if recs == [] then None else Some(recs[|recs| - 1].key))
    && MaxOf(recs, t.max)
    && Orderly(recs, t.sorted, t.duplicates) && (t.sorted && !t.duplicates <==> Ascending(recs))
    && (|recs| == |rows| ==> Regular(t.index, t.every) && t.lines <= t.next && (rows != [] ==> t.index != []))
  }

  function StepOf(parse: Parser, row: RawRow): Option<int> {
    match parse(row.bytes) case None => None case Some(rec) => Some(rec.key)
  }

  lemma {:induction false} HalvedAt(index: seq<Anchor>, i: nat)
    requires 2 * i < |index|
    ensures i < |Halved(index)| && Halved(index)[i] == index[2 * i]
  {
    if i > 0 { HalvedAt(index[2..], i - 1); }
  }

  lemma {:induction false} HalvedSize(index: seq<Anchor>)
    ensures |Halved(index)| == (|index| + 1) / 2
  {
    if |index| > 1 { HalvedSize(index[2..]); }
  }

  lemma HalvedMeans(index: seq<Anchor>)
    ensures |Halved(index)| == (|index| + 1) / 2
    ensures forall i :: 0 <= i < |Halved(index)| ==> 2 * i < |index| && Halved(index)[i] == index[2 * i]
  {
    hide Halved;
    HalvedSize(index);
    forall i | 0 <= i < |Halved(index)|
      ensures 2 * i < |index| && Halved(index)[i] == index[2 * i]
    {
      HalvedAt(index, i);
    }
  }

  /** Thinning an odd number of anchors keeps the last one and doubles the spacing. */
  lemma HalvedSpacing(index: seq<Anchor>, every: nat)
    requires |index| % 2 == 1
    ensures var h := Halved(index);
      && h[|h| - 1] == index[|index| - 1]
      && (forall a :: a in h ==> a in index)
      && (Spaced(index, every) ==> Spaced(h, 2 * every))
      && (Regular(index, every) ==> Regular(h, 2 * every))
  {
    hide Halved;
    HalvedMeans(index);
    var h := Halved(index);
    forall i | 0 <= i < |h| - 1
      ensures Spaced(index, every) ==> h[i].line + 2 * every <= h[i + 1].line
      ensures Regular(index, every) ==> h[i].line + 2 * every == h[i + 1].line
    {
      assert h[i] == index[2 * i] && h[i + 1] == index[2 * (i + 1)];
      var mid := index[2 * i + 1];
    }
    assert h[|h| - 1] == index[2 * (|h| - 1)];
    assert h[0] == index[2 * 0];
  }

  lemma AnchoredSpacing(t: Track, step: int, offset: nat)
    requires t.every > 0 && |t.index| <= MAX_ANCHORS
    requires Spaced(t.index, t.every)
    requires t.next == (if t.index == [] then 0 else t.index[|t.index| - 1].line + t.every)
    ensures var a := Anchored(t, step, offset);
      && a.every > 0 && |a.index| <= MAX_ANCHORS && Spaced(a.index, a.every)
      && a.next == (if a.index == [] then 0 else a.index[|a.index| - 1].line + a.every)
      && (forall x :: x in a.index ==> x in t.index || x == Anchor(step, t.lines, offset))
      && (Regular(t.index, t.every) && t.lines <= t.next ==>
            Regular(a.index, a.every) && t.lines + 1 <= a.next && a.index != [])
  {
    hide Spaced, Regular, Halved;
    if t.lines >= t.next {
      var a := Anchor(step, t.lines, offset);
      var index := t.index + [a];
      SpacedPush(t.index, t.every, a);
      if |index| > MAX_ANCHORS {
        HalvedSpacing(index, t.every);
        HalvedMeans(index);
      }
    }
  }

  lemma SpacedPush(index: seq<Anchor>, every: nat, a: Anchor)
    requires Spaced(index, every)
    requires (if index == [] then 0 else index[|index| - 1].line + every) <= a.line
    ensures Spaced(index + [a], every)
    ensures Regular(index, every) && (if index == [] then 0 else index[|index| - 1].line + every) == a.line ==>
      Regular(index + [a], every)
  {
  }

  /** Tracking a row keeps the account right, thinning included. */
  lemma TrackedDescribes(parse: Parser, rows: seq<RawRow>, t: Track, row: RawRow)
    requires Describes(parse, rows, t)
    ensures Describes(parse, rows + [row], Tracked(t, StepOf(parse, row), row.offset))
  {
    hide Anchored, Parsed, Spaced, Regular, Orderly;
    var recs, all := Parsed(parse, rows), rows + [row];
    ParsedConcat(parse, rows, [row]);
    ParsedOne(parse, row);
    ParsedSize(parse, rows);
    forall a | SoundAnchor(parse, rows, a)
      ensures SoundAnchor(parse, all, a)
    {
      assert all[a.line] == rows[a.line];
    }
    match parse(row.bytes)
    case None =>
      assert recs + [] == recs;
    case Some(rec) =>
      AnchoredSpacing(t, rec.key, row.offset);
      AscendingPush(recs, rec);
      OrderlyPush(recs, rec, t.sorted, t.duplicates);
      assert all[t.lines] == row;
      assert SoundAnchor(parse, all, Anchor(rec.key, t.lines, row.offset));
      MaxPush(recs, rec, t.max);
  }

  lemma {:induction false} ParsedSize(parse: Parser, rows: seq<RawRow>)
    ensures |Parsed(parse, rows)| <= |rows|
  {
    if rows != [] { ParsedSize(parse, rows[1..]); }
  }

  lemma MaxPush(recs: seq<Record>, rec: Record, max: Option<int>)
    requires MaxOf(recs, max)
    ensures MaxOf(recs + [rec], if max.None? || rec.key > max.value then Some(rec.key) else max)
  {
    var all := recs + [rec];
    assert all[|recs|] == rec;
    if recs != [] && rec.key <= max.value {
      var i :| 0 <= i < |recs| && recs[i].key == max.value;
      assert all[i] == recs[i];
    }
  }

  /** On a clean log a look-up starts fewer than `every` lines before its target. */
  lemma SeekIsShort(parse: Parser, rows: seq<RawRow>, t: Track, line: nat)
    requires Describes(parse, rows, t) && |Parsed(parse, rows)| == |rows| && line < |rows|
    ensures exists a :: a in t.index && a.line <= line < a.line + t.every
  {
    var i := Nearest(t.index, t.every, line);
    assert t.index[i] in t.index;
  }

  lemma Nearest(index: seq<Anchor>, every: nat, line: nat) returns (i: nat)
    requires index != [] && every > 0 && Regular(index, every)
    requires line < index[|index| - 1].line + every
    ensures i < |index| && index[i].line <= line < index[i].line + every
  {
    i := |index| - 1;
    while index[i].line > line
      invariant i < |index| && line < index[i].line + every
    {
      assert index[i - 1].line + every == index[i].line;
      i := i - 1;
    }
  }
}
