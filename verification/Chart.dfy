/** Bounded downsampling of a run's rows for a chart: per bucket the first and last row, the
    extremes of every metric, and a row for every gap. */
module Chart {
  import opened OrderedMap
  import opened Results

  /** A plottable row: its number, its place on the axis, and each metric's finite value if any. */
  datatype Point = Point(at: nat, x: real, ys: seq<Option<real>>)

  /** A row as read: nothing if its place on the axis cannot be shown. */
  type Row = Option<Sample>

  datatype Sample = Sample(x: real, ys: seq<Option<real>>)

  // ---------------------------------------------------------------- what a selection must keep

  ghost predicate Before(kept: seq<Point>, q: Point) { exists p :: p in kept && p.at <= q.at }

  ghost predicate Behind(kept: seq<Point>, q: Point) { exists p :: p in kept && p.at >= q.at }

  ghost predicate Lower(kept: seq<Point>, m: nat, v: real) {
    exists p :: p in kept && m < |p.ys| && p.ys[m].Some? && p.ys[m].value <= v
  }

  ghost predicate Upper(kept: seq<Point>, m: nat, v: real) {
    exists p :: p in kept && m < |p.ys| && p.ys[m].Some? && p.ys[m].value >= v
  }

  ghost predicate Gap(kept: seq<Point>, m: nat) { exists p :: p in kept && m < |p.ys| && p.ys[m].None? }

  /** Something no later and something no earlier, and for each metric something at most and at
      least as large, or a gap where there is none. */
  ghost predicate Represented(kept: seq<Point>, q: Point) {
    && Before(kept, q) && Behind(kept, q)
    && forall m: nat :: m < |q.ys| ==>
         if q.ys[m].Some? then Lower(kept, m, q.ys[m].value) && Upper(kept, m, q.ys[m].value) else Gap(kept, m)
  }

  ghost predicate InRowOrder(points: seq<Point>) { forall i, j :: 0 <= i < j < |points| ==> points[i].at < points[j].at }

  // ---------------------------------------------------------------- one bucket

  datatype Extremes = Extremes(min: Point, max: Point)

  /** The extremes of one metric among some points. */
  ghost predicate Extreme(pushed: seq<Point>, m: nat, e: Option<Extremes>) {
    if e.None? then forall p :: p in pushed && m < |p.ys| ==> p.ys[m].None?
    else
      var (low, high) := (e.value.min, e.value.max);
      && low in pushed && high in pushed && m < |low.ys| && m < |high.ys| && low.ys[m].Some? && high.ys[m].Some?
      && forall p :: p in pushed && m < |p.ys| && p.ys[m].Some? ==>
           low.ys[m].value <= p.ys[m].value <= high.ys[m].value
  }

  ghost predicate Missing(pushed: seq<Point>, m: nat, p: Option<Point>) {
    if p.None? then forall q :: q in pushed && m < |q.ys| ==> q.ys[m].Some?
    else p.value in pushed && m < |p.value.ys| && p.value.ys[m].None?
  }

  class Bucket {
    const metrics: nat
    var points: seq<Entry<Point>>
    var extrema: seq<Option<Extremes>>
    var missing: seq<Option<Point>>
    var last: Option<Point>
    ghost var pushed: seq<Point>

    ghost predicate Valid()
      reads this
    {
      && InRowOrder(pushed) && (forall p :: p in pushed ==> |p.ys| == metrics)
      && |extrema| == metrics && |missing| == metrics
      && points == (if pushed == [] then [] else [Entry(pushed[0].at, pushed[0])])
      && last == (if pushed == [] then None else Some(pushed[|pushed| - 1]))
      && (forall m :: 0 <= m < metrics ==> Extreme(pushed, m, extrema[m]) && Missing(pushed, m, missing[m]))
    }

    constructor (metrics: nat)
      ensures Valid() && pushed == [] && this.metrics == metrics
    {
      this.metrics := metrics;
      points, last, pushed := [], None, [];
      extrema := seq(metrics, i => None);
      missing := seq(metrics, i => None);
    }

    method Push(point: Point)
      requires Valid() && |point.ys| == metrics && (pushed != [] ==> pushed[|pushed| - 1].at < point.at)
      modifies this
      ensures Valid() && pushed == old(pushed) + [point]
    {
      hide Extreme, Missing, InRowOrder;
      ghost var before := pushed;
      PushedInOrder(before, point);
      if points == [] { points := Put(points, point.at, point); }
      var m := 0;
      while m < metrics
        invariant 0 <= m <= metrics && |extrema| == metrics && |missing| == metrics
        invariant forall k :: 0 <= k < m ==> Extreme(before + [point], k, extrema[k]) && Missing(before + [point], k, missing[k])
        invariant forall k :: m <= k < metrics ==> Extreme(before, k, extrema[k]) && Missing(before, k, missing[k])
        modifies this`extrema, this`missing
      {
        PushMetric(m, point, before);
        m := m + 1;
      }
      last := Some(point);
      pushed := pushed + [point];
      assert pushed[..|before|] == before;
    }

    method PushMetric(m: nat, point: Point, ghost before: seq<Point>)
      requires m < |extrema| == |missing| && m < |point.ys|
      requires Extreme(before, m, extrema[m]) && Missing(before, m, missing[m])
      modifies this`extrema, this`missing
      ensures |extrema| == |missing| == old(|extrema|)
      ensures Extreme(before + [point], m, extrema[m]) && Missing(before + [point], m, missing[m])
      ensures forall k :: 0 <= k < |extrema| && k != m ==> extrema[k] == old(extrema[k]) && missing[k] == old(missing[k])
    {
      hide Extreme, Missing;
      ExtremeMeans(before, m, extrema[m]);
      ExtremeNext(before, m, extrema[m], missing[m], point);
      if point.ys[m].Some? {
        var value := point.ys[m].value;
        if extrema[m].Some? {
          var e := extrema[m].value;
          var low := if value < e.min.ys[m].value then point else e.min;
          var high := if value > e.max.ys[m].value then point else e.max;
          extrema := extrema[m := Some(Extremes(low, high))];
        } else {
          extrema := extrema[m := Some(Extremes(point, point))];
        }
      } else if missing[m].None? {
        missing := missing[m := Some(point)];
      }
    }

    /** The selected points, in row order. */
    method Finish() returns (kept: seq<Point>)
      requires Valid()
      ensures InRowOrder(kept) && |kept| <= 3 * metrics + 2
      ensures forall p :: p in kept ==> p in pushed
      ensures forall q :: q in pushed ==> Represented(kept, q)
    {
      hide Extreme, Missing, Represented, Selects, Holds, InRowOrder;
      var all := points;
      AloneSelects(pushed);
      if last.Some? { all := Insert(pushed, all, last.value); }
      all := SelectExtremes(all);
      all := SelectGaps(all);
      kept := Values(all);
      ValuesInOrder(pushed, all);
      forall q | q in pushed
        ensures Represented(kept, q)
      {
        Stands(pushed, all, kept, extrema, missing, q);
      }
    }

    method SelectExtremes(all: seq<Entry<Point>>) returns (more: seq<Entry<Point>>)
      requires Valid() && Selects(pushed, all)
      ensures Selects(pushed, more) && |more| <= |all| + 2 * metrics && Keeps(all, more)
      ensures HoldsExtremes(more, extrema, metrics)
    {
      hide Extreme, Missing, Selects, Holds, InRowOrder;
      more := all;
      var m := 0;
      while m < metrics
        invariant 0 <= m <= metrics && Selects(pushed, more) && |more| <= |all| + 2 * m
        invariant Keeps(all, more) && HoldsExtremes(more, extrema, m)
      {
        if extrema[m].Some? {
          ExtremeMeans(pushed, m, extrema[m]);
          more := Insert(pushed, more, extrema[m].value.min);
          more := Insert(pushed, more, extrema[m].value.max);
        }
        m := m + 1;
      }
    }

    method SelectGaps(all: seq<Entry<Point>>) returns (more: seq<Entry<Point>>)
      requires Valid() && Selects(pushed, all)
      ensures Selects(pushed, more) && |more| <= |all| + metrics && Keeps(all, more)
      ensures HoldsGaps(more, missing, metrics)
    {
      hide Extreme, Missing, Selects, Holds, InRowOrder;
      more := all;
      var m := 0;
      while m < metrics
        invariant 0 <= m <= metrics && Selects(pushed, more) && |more| <= |all| + m
        invariant Keeps(all, more) && HoldsGaps(more, missing, m)
      {
        if missing[m].Some? {
          MissingMeans(pushed, m, missing[m]);
          more := Insert(pushed, more, missing[m].value);
        }
        m := m + 1;
      }
    }
  }

  /** `points.insert(p.at, p)` of a point of this bucket. */
  method Insert(ghost pushed: seq<Point>, all: seq<Entry<Point>>, p: Point) returns (more: seq<Entry<Point>>)
    requires InRowOrder(pushed) && Selects(pushed, all) && p in pushed
    ensures Selects(pushed, more) && |more| <= |all| + 1 && Holds(more, p) && Keeps(all, more)
  {
    more := Put(all, p.at, p);
    SelectNext(pushed, all, p);
  }

  lemma PushedInOrder(before: seq<Point>, point: Point)
    requires InRowOrder(before) && (before != [] ==> before[|before| - 1].at < point.at)
    ensures InRowOrder(before + [point])
    ensures forall p :: p in before + [point] <==> p in before || p == point
  {
  }

  /** A selection of points, keyed by their row numbers. */
  ghost predicate Selects(pushed: seq<Point>, all: seq<Entry<Point>>) {
    Ascending(all) && forall e :: e in all ==> e.value in pushed && e.key == e.value.at
  }

  ghost predicate Holds(all: seq<Entry<Point>>, p: Point) { Entry(p.at, p) in all }

  ghost predicate Keeps(all: seq<Entry<Point>>, more: seq<Entry<Point>>) {
    forall q :: Holds(all, q) ==> Holds(more, q)
  }

  ghost predicate HoldsExtremes(all: seq<Entry<Point>>, extrema: seq<Option<Extremes>>, n: nat) {
    forall k :: 0 <= k < n && k < |extrema| && extrema[k].Some? ==>
      Holds(all, extrema[k].value.min) && Holds(all, extrema[k].value.max)
  }

  ghost predicate HoldsGaps(all: seq<Entry<Point>>, missing: seq<Option<Point>>, n: nat) {
    forall k :: 0 <= k < n && k < |missing| && missing[k].Some? ==> Holds(all, missing[k].value)
  }

  function Values(all: seq<Entry<Point>>): (s: seq<Point>)
    ensures |s| == |all| && forall i :: 0 <= i < |s| ==> s[i] == all[i].value
  {
    seq(|all|, i requires 0 <= i < |all| => all[i].value)
  }

  lemma AloneSelects(pushed: seq<Point>)
    ensures pushed != [] ==> Selects(pushed, [Entry(pushed[0].at, pushed[0])]) && Holds([Entry(pushed[0].at, pushed[0])], pushed[0])
    ensures Selects(pushed, [])
  {
  }

  lemma SelectNext(pushed: seq<Point>, all: seq<Entry<Point>>, p: Point)
    requires InRowOrder(pushed) && Selects(pushed, all) && p in pushed
    ensures var more := Put(all, p.at, p);
      Selects(pushed, more) && |more| <= |all| + 1 && Holds(more, p) && Keeps(all, more)
  {
    hide Put;
    var more := Put(all, p.at, p);
    PutKeeps(all, p.at, p);
    PutEntries(all, p.at, p, Entry(p.at, p));
    forall e
      ensures e in more <==> e == Entry(p.at, p) || (e in all && e.key != p.at)
    {
      PutEntries(all, p.at, p, e);
    }
    forall q | Holds(all, q)
      ensures Holds(more, q)
    {
      if q.at == p.at { SameRow(pushed, p, q); }
    }
  }

  lemma SameRow(pushed: seq<Point>, p: Point, q: Point)
    requires InRowOrder(pushed) && p in pushed && q in pushed && p.at == q.at
    ensures p == q
  {
  }

  lemma ExtremeMeans(pushed: seq<Point>, m: nat, e: Option<Extremes>)
    requires Extreme(pushed, m, e)
    ensures e.Some? ==>
      && e.value.min in pushed && e.value.max in pushed
      && m < |e.value.min.ys| && m < |e.value.max.ys| && e.value.min.ys[m].Some? && e.value.max.ys[m].Some?
  {
  }

  lemma MissingMeans(pushed: seq<Point>, m: nat, p: Option<Point>)
    requires Missing(pushed, m, p)
    ensures p.Some? ==> p.value in pushed
  {
  }

  lemma ExtremeNext(before: seq<Point>, m: nat, e: Option<Extremes>, gap: Option<Point>, point: Point)
    requires Extreme(before, m, e) && Missing(before, m, gap) && m < |point.ys|
    ensures point.ys[m].Some? ==>
      && (e.None? ==> Extreme(before + [point], m, Some(Extremes(point, point))))
      && (e.Some? ==>
            var v := point.ys[m].value;
            m < |e.value.min.ys| && m < |e.value.max.ys| && e.value.min.ys[m].Some? && e.value.max.ys[m].Some?
            && Extreme(before + [point], m,
                 Some(Extremes(if v < e.value.min.ys[m].value then point else e.value.min,
                               if v > e.value.max.ys[m].value then point else e.value.max))))
      && Missing(before + [point], m, gap)
    ensures point.ys[m].None? ==>
      && Extreme(before + [point], m, e)
      && Missing(before + [point], m, if gap.None? then Some(point) else gap)
  {
    var all := before + [point];
    assert forall p :: p in all <==> p in before || p == point;
  }

  lemma ValuesInOrder(pushed: seq<Point>, all: seq<Entry<Point>>)
    requires Selects(pushed, all)
    ensures InRowOrder(Values(all)) && forall p :: p in Values(all) ==> p in pushed
    ensures forall p :: Holds(all, p) ==> p in Values(all)
  {
    var s := Values(all);
    assert forall i :: 0 <= i < |all| ==> all[i] in all;
    forall p | Holds(all, p)
      ensures p in s
    {
      var i :| 0 <= i < |all| && all[i] == Entry(p.at, p);
      assert s[i] == p;
    }
  }

  lemma Stands(pushed: seq<Point>, all: seq<Entry<Point>>, kept: seq<Point>, extrema: seq<Option<Extremes>>,
               missing: seq<Option<Point>>, q: Point)
    requires InRowOrder(pushed) && q in pushed && |q.ys| == |extrema| == |missing|
    requires forall p :: Holds(all, p) ==> p in kept
    requires Holds(all, pushed[0]) && Holds(all, pushed[|pushed| - 1])
    requires forall m :: 0 <= m < |extrema| ==> Extreme(pushed, m, extrema[m]) && Missing(pushed, m, missing[m])
    requires HoldsExtremes(all, extrema, |extrema|) && HoldsGaps(all, missing, |missing|)
    ensures Represented(kept, q)
  {
    hide Holds;
    var i :| 0 <= i < |pushed| && pushed[i] == q;
    assert pushed[0] in kept && pushed[|pushed| - 1] in kept;
    forall m: nat | m < |q.ys|
      ensures if q.ys[m].Some? then Lower(kept, m, q.ys[m].value) && Upper(kept, m, q.ys[m].value) else Gap(kept, m)
    {
      assert Extreme(pushed, m, extrema[m]) && Missing(pushed, m, missing[m]);
      if q.ys[m].Some? {
        assert extrema[m].value.min in kept && extrema[m].value.max in kept;
      } else {
        assert missing[m].value in kept;
      }
    }
  }

  // ---------------------------------------------------------------- the chart

  predicate Shaped(rows: seq<Row>, metrics: nat) {
    forall i :: 0 <= i < |rows| && rows[i].Some? ==> |rows[i].value.ys| == metrics
  }

  function PointOf(rows: seq<Row>, i: nat): Point
    requires i < |rows| && rows[i].Some?
  {
    Point(i, rows[i].value.x, rows[i].value.ys)
  }

  predicate Plots(rows: seq<Row>, p: Point) { p.at < |rows| && rows[p.at].Some? && p == PointOf(rows, p.at) }

  /** Rows are spread evenly over the buckets. */
  function BucketOf(at: nat, buckets: nat, total: nat): nat
    requires total > 0
  {
    at * buckets / total
  }

  /** Points of one bucket, next to each other in the chart, represent a row of that bucket. */
  ghost predicate RepresentedWithin(points: seq<Point>, q: Point, buckets: nat, total: nat)
    requires total > 0
  {
    exists lo, hi :: SlicePresents(points, lo, hi, q, buckets, total)
  }

  ghost predicate SlicePresents(points: seq<Point>, lo: int, hi: int, q: Point, buckets: nat, total: nat)
    requires total > 0
  {
    && 0 <= lo <= hi <= |points| && Represented(points[lo..hi], q)
    && forall k :: lo <= k < hi ==> BucketOf(points[k].at, buckets, total) == BucketOf(q.at, buckets, total)
  }

  function Buckets(metrics: nat, maxPoints: nat): nat {
    if maxPoints / (3 * metrics + 2) < 1 then 1 else maxPoints / (3 * metrics + 2)
  }

  function Unplotted(rows: seq<Row>): nat {
    if rows == [] then 0 else Unplotted(rows[..|rows| - 1]) + if rows[|rows| - 1].None? then 1 else 0
  }

  /** Everything the chart of some rows promises. */
  ghost predicate Charts(rows: seq<Row>, points: seq<Point>, buckets: nat) {
    && InRowOrder(points) && (forall p :: p in points ==> Plots(rows, p))
    && forall i: nat :: i < |rows| && rows[i].Some? ==> RepresentedWithin(points, PointOf(rows, i), buckets, |rows|)
  }

  /** `chart`: the rows bucket by bucket. */
  method Downsample(rows: seq<Row>, metrics: nat, maxPoints: nat)
    returns (r: Result<seq<Point>, string>, badAxis: nat)
    requires Shaped(rows, metrics)
    ensures r.Ok? <==> metrics <= 12 && 64 <= maxPoints <= 10000
    ensures r.Ok? ==>
      && |r.value| <= maxPoints && badAxis == Unplotted(rows)
      && Charts(rows, r.value, Buckets(metrics, maxPoints))
  {
    hide Represented, RepresentedWithin, BucketOf, Unplotted, Bucket.Valid, Gathering, Room, Charts, Buckets, InRowOrder;
    badAxis := 0;
    if metrics > 12 { return Err("Select at most twelve metrics"), 0; }
    if !(64 <= maxPoints <= 10000) { return Err("max_points must be between 64 and 10000"), 0; }
    var total := |rows|;
    var buckets := Buckets(metrics, maxPoints);
    var bucket := new Bucket(metrics);
    var points: seq<Point>, bucketAt: nat, at: nat := [], 0, 0;
    NoneUnplotted();
    NothingGathered(rows, metrics, maxPoints);
    while at < total
      invariant 0 <= at <= total && fresh(bucket) && bucket.Valid() && bucket.metrics == metrics
      invariant Gathering(rows, points, bucket.pushed, bucketAt, at, buckets)
      invariant |points| <= Room(metrics, bucketAt) && bucketAt < buckets
      invariant bucketAt == if at == 0 then 0 else BucketOf(at - 1, buckets, total)
      invariant badAxis == Unplotted(rows[..at])
    {
      var next := BucketAt(at, buckets, total);
      if next != bucketAt {
        var kept := bucket.Finish();
        Flushed(rows, points, bucket.pushed, kept, bucketAt, next, at, buckets);
        RoomGrows(metrics, bucketAt, next);
        points := points + kept;
        bucket := new Bucket(metrics);
        bucketAt := next;
      }
      assert rows[..at + 1] == rows[..at] + [rows[at]];
      UnplottedPush(rows[..at], rows[at]);
      GatheringNext(rows, points, bucket.pushed, bucketAt, at, buckets);
      if rows[at].Some? {
        var sample := rows[at].value;
        bucket.Push(Point(at, sample.x, sample.ys));
      } else {
        badAxis := badAxis + 1;
      }
      at := at + 1;
    }
    assert rows[..at] == rows;
    var kept := bucket.Finish();
    Flushed(rows, points, bucket.pushed, kept, bucketAt, bucketAt + 1, at, buckets);
    RoomEnough(metrics, maxPoints, bucketAt);
    r := Ok(points + kept);
    AllGathered(rows, points + kept, bucketAt + 1, buckets);
  }

  method BucketAt(at: nat, buckets: nat, total: nat) returns (next: nat)
    requires at < total && buckets > 0
    ensures next == BucketOf(at, buckets, total) < buckets
    ensures at > 0 ==> BucketOf(at - 1, buckets, total) <= next
  {
    BucketRange(at, buckets, total);
    next := at * buckets / (if total < 1 then 1 else total);
  }

  function Room(metrics: nat, buckets: nat): nat { (3 * metrics + 2) * buckets }

  lemma RoomGrows(metrics: nat, a: nat, b: nat)
    requires a < b
    ensures Room(metrics, a) + (3 * metrics + 2) <= Room(metrics, b)
  {
    Stretch(3 * metrics + 2, a, b);
  }

  lemma {:induction false} Stretch(k: nat, a: nat, b: nat)
    requires a < b
    ensures k * a + k <= k * b
    decreases b
  {
    assert k * b == k * (b - 1) + k;
    if b > a + 1 { Stretch(k, a, b - 1); }
  }

  /** There are as many buckets as the points allowed leave room for, and at least one. */
  lemma MostBuckets(metrics: nat, maxPoints: nat)
    ensures var buckets := Buckets(metrics, maxPoints);
      if maxPoints < 3 * metrics + 2 then buckets == 1
      else Room(metrics, buckets) <= maxPoints < Room(metrics, buckets + 1)
  {
    var k := 3 * metrics + 2;
    Quotient(maxPoints, k);
    assert k * (maxPoints / k + 1) == k * (maxPoints / k) + k;
  }

  lemma Quotient(n: nat, k: nat)
    requires k > 0
    ensures k * (n / k) <= n < k * (n / k) + k && (n / k < 1 <==> n < k)
  {
    assert n == k * (n / k) + n % k;
  }

  /** The rows of a bucket are an equal share of all rows, to the row. */
  lemma BucketShare(at: nat, bucket: nat, buckets: nat, total: nat)
    requires total > 0
    ensures BucketOf(at, buckets, total) == bucket <==> bucket * total <= at * buckets < bucket * total + total
  {
    var n, b := at * buckets, BucketOf(at, buckets, total);
    Quotient(n, total);
    if b < bucket { Stretch(total, b, bucket); }
    if bucket < b { Stretch(total, bucket, b); }
  }

  lemma RoomEnough(metrics: nat, maxPoints: nat, bucketAt: nat)
    requires metrics <= 12 && maxPoints >= 64 && bucketAt < Buckets(metrics, maxPoints)
    ensures Room(metrics, bucketAt) + (3 * metrics + 2) <= maxPoints
  {
    var k, b := 3 * metrics + 2, Buckets(metrics, maxPoints);
    assert k * b <= maxPoints;
    RoomGrows(metrics, bucketAt, b);
  }

  lemma NoneUnplotted()
    ensures Unplotted([]) == 0
  {
  }

  lemma NothingGathered(rows: seq<Row>, metrics: nat, maxPoints: nat)
    ensures Gathering(rows, [], [], 0, 0, Buckets(metrics, maxPoints)) && Buckets(metrics, maxPoints) > 0
  {
  }

  lemma UnplottedPush(rows: seq<Row>, row: Row)
    ensures Unplotted(rows + [row]) == Unplotted(rows) + if row.None? then 1 else 0
  {
    assert (rows + [row])[..|rows|] == rows;
  }

  /** The state of the loop: finished buckets are in the chart, the current one is being filled. */
  ghost predicate Gathering(rows: seq<Row>, points: seq<Point>, pushed: seq<Point>, bucketAt: nat, at: nat, buckets: nat)
    requires at <= |rows|
  {
    && InRowOrder(points) && InRowOrder(pushed)
    && (forall p :: p in points ==> Plots(rows, p) && p.at < at && BucketOf(p.at, buckets, |rows|) < bucketAt)
    && (forall p :: p in pushed ==> Plots(rows, p) && p.at < at && BucketOf(p.at, buckets, |rows|) == bucketAt)
    && (forall i: nat :: i < at && rows[i].Some? ==> Covered(rows, points, pushed, i, buckets))
  }

  ghost predicate Covered(rows: seq<Row>, points: seq<Point>, pushed: seq<Point>, i: nat, buckets: nat)
    requires i < |rows| && rows[i].Some?
  {
    PointOf(rows, i) in pushed || RepresentedWithin(points, PointOf(rows, i), buckets, |rows|)
  }

  lemma BucketRange(at: nat, buckets: nat, total: nat)
    requires at < total && buckets > 0
    ensures BucketOf(at, buckets, total) < buckets
    ensures at > 0 ==> BucketOf(at - 1, buckets, total) <= BucketOf(at, buckets, total)
  {
    Below(at * buckets, buckets, total);
    if at > 0 {
      assert (at - 1) * buckets == at * buckets - buckets;
      QuotientGrows((at - 1) * buckets, at * buckets, total);
    }
  }

  lemma Below(a: nat, buckets: nat, total: nat)
    requires total > 0 && a < total * buckets
    ensures a / total < buckets
  {
    var x := a / total;
    assert a == total * x + a % total;
    assert total * (buckets - x) == total * buckets - total * x;
    Positive(total, buckets - x);
  }

  lemma QuotientGrows(a: nat, b: nat, total: nat)
    requires a <= b && total > 0
    ensures a / total <= b / total
  {
    var x, y := a / total, b / total;
    assert a == total * x + a % total && b == total * y + b % total;
    assert total * (y - x + 1) == total * y - total * x + total;
    Positive(total, y - x + 1);
  }

  lemma Positive(total: nat, z: int)
    requires total > 0 && total * z > 0
    ensures z > 0
  {
  }

  lemma WithinStill(points: seq<Point>, more: seq<Point>, q: Point, buckets: nat, total: nat)
    requires total > 0 && RepresentedWithin(points, q, buckets, total)
    ensures RepresentedWithin(points + more, q, buckets, total)
  {
    hide Represented;
    var lo, hi :| SlicePresents(points, lo, hi, q, buckets, total);
    assert (points + more)[lo..hi] == points[lo..hi];
    assert SlicePresents(points + more, lo, hi, q, buckets, total);
  }

  lemma WithinKept(points: seq<Point>, kept: seq<Point>, q: Point, buckets: nat, total: nat)
    requires total > 0 && Represented(kept, q)
    requires forall p :: p in kept ==> BucketOf(p.at, buckets, total) == BucketOf(q.at, buckets, total)
    ensures RepresentedWithin(points + kept, q, buckets, total)
  {
    hide Represented, BucketOf;
    var lo, hi := |points|, |points + kept|;
    assert (points + kept)[lo..hi] == kept;
    forall k | lo <= k < hi
      ensures BucketOf((points + kept)[k].at, buckets, total) == BucketOf(q.at, buckets, total)
    {
      assert (points + kept)[k] == kept[k - lo] && kept[k - lo] in kept;
    }
    assert SlicePresents(points + kept, lo, hi, q, buckets, total);
  }

  /** Flushing a bucket into the chart. */
  lemma Flushed(rows: seq<Row>, points: seq<Point>, pushed: seq<Point>, kept: seq<Point>, bucketAt: nat, next: nat,
                at: nat, buckets: nat)
    requires at <= |rows| && Gathering(rows, points, pushed, bucketAt, at, buckets) && bucketAt < next
    requires InRowOrder(kept) && (forall p :: p in kept ==> p in pushed)
    requires forall q :: q in pushed ==> Represented(kept, q)
    ensures Gathering(rows, points + kept, [], next, at, buckets)
  {
    hide Represented, RepresentedWithin, BucketOf;
    var all := points + kept;
    forall i, j | 0 <= i < j < |all|
      ensures all[i].at < all[j].at
    {
      if i < |points| <= j {
        assert points[i] in points && kept[j - |points|] in kept;
        EarlierBucket(points[i].at, kept[j - |points|].at, buckets, |rows|);
      }
    }
    forall i: nat | i < at && rows[i].Some?
      ensures Covered(rows, all, [], i, buckets)
    {
      assert Covered(rows, points, pushed, i, buckets);
      var q := PointOf(rows, i);
      if q in pushed {
        WithinKept(points, kept, q, buckets, |rows|);
      } else {
        WithinStill(points, kept, q, buckets, |rows|);
      }
    }
  }

  /** Rows of an earlier bucket are earlier rows. */
  lemma EarlierBucket(a: nat, b: nat, buckets: nat, total: nat)
    requires total > 0 && BucketOf(a, buckets, total) < BucketOf(b, buckets, total)
    ensures a < b
  {
    if a >= b {
      assert a * buckets >= b * buckets;
      QuotientGrows(b * buckets, a * buckets, total);
    }
  }

  /** One more row of the current bucket. */
  lemma GatheringNext(rows: seq<Row>, points: seq<Point>, pushed: seq<Point>, bucketAt: nat, at: nat, buckets: nat)
    requires at < |rows| && Gathering(rows, points, pushed, bucketAt, at, buckets)
    requires BucketOf(at, buckets, |rows|) == bucketAt
    ensures rows[at].None? ==> Gathering(rows, points, pushed, bucketAt, at + 1, buckets)
    ensures rows[at].Some? ==> Gathering(rows, points, pushed + [PointOf(rows, at)], bucketAt, at + 1, buckets)
    ensures pushed != [] ==> pushed[|pushed| - 1].at < at
  {
    hide Represented, RepresentedWithin, BucketOf;
    if pushed != [] { assert pushed[|pushed| - 1] in pushed; }
    if rows[at].Some? {
      var more := pushed + [PointOf(rows, at)];
      forall p | p in more
        ensures Plots(rows, p) && p.at < at + 1 && BucketOf(p.at, buckets, |rows|) == bucketAt
      {
        if p !in pushed { assert p == PointOf(rows, at); }
      }
      assert forall k :: 0 <= k < |pushed| ==> pushed[k] in pushed;
      forall i: nat | i < at + 1 && rows[i].Some?
        ensures Covered(rows, points, more, i, buckets)
      {
        if i < at { assert Covered(rows, points, pushed, i, buckets); }
      }
    } else {
      forall i: nat | i < at + 1 && rows[i].Some?
        ensures Covered(rows, points, pushed, i, buckets)
      {
        assert Covered(rows, points, pushed, i, buckets);
      }
    }
  }

  lemma AllGathered(rows: seq<Row>, points: seq<Point>, bucketAt: nat, buckets: nat)
    requires Gathering(rows, points, [], bucketAt, |rows|, buckets)
    ensures Charts(rows, points, buckets)
  {
    hide Represented, RepresentedWithin, BucketOf;
    forall i: nat | i < |rows| && rows[i].Some?
      ensures RepresentedWithin(points, PointOf(rows, i), buckets, |rows|)
    {
      assert Covered(rows, points, [], i, buckets);
    }
  }

  // ---------------------------------------------------------------- what a chart keeps

  /** The points that represent a row, all of its bucket. */
  lemma SliceOf(rows: seq<Row>, points: seq<Point>, buckets: nat, i: nat) returns (slice: seq<Point>)
    requires Charts(rows, points, buckets) && i < |rows| && rows[i].Some?
    ensures Represented(slice, PointOf(rows, i))
    ensures forall p :: p in slice ==>
      p in points && Plots(rows, p) && BucketOf(p.at, buckets, |rows|) == BucketOf(i, buckets, |rows|)
  {
    hide BucketOf, Represented;
    var q := PointOf(rows, i);
    assert RepresentedWithin(points, q, buckets, |rows|);
    var lo, hi :| SlicePresents(points, lo, hi, q, buckets, |rows|);
    slice := points[lo..hi];
    forall p | p in slice
      ensures p in points && BucketOf(p.at, buckets, |rows|) == BucketOf(i, buckets, |rows|)
    {
      var k :| 0 <= k < hi - lo && slice[k] == p;
      assert points[lo + k] == p;
    }
  }

  /** The first and the last plottable row are in the chart. */
  lemma EndsKept(rows: seq<Row>, points: seq<Point>, buckets: nat, i: nat)
    requires Charts(rows, points, buckets) && i < |rows| && rows[i].Some?
    ensures (forall k :: 0 <= k < i ==> rows[k].None?) ==> PointOf(rows, i) in points
    ensures (forall k :: i < k < |rows| ==> rows[k].None?) ==> PointOf(rows, i) in points
  {
    hide BucketOf, Charts, RepresentedWithin;
    var slice := SliceOf(rows, points, buckets, i);
    var p :| p in slice && p.at <= i;
    var q :| q in slice && q.at >= i;
  }

  /** No value of a metric lies outside what the chart shows of it, and what it shows are values
      of rows; so it shows the metric's global minimum and maximum. */
  lemma ExtremesKept(rows: seq<Row>, points: seq<Point>, buckets: nat, i: nat, m: nat)
    requires Charts(rows, points, buckets) && i < |rows| && rows[i].Some?
    requires m < |rows[i].value.ys| && rows[i].value.ys[m].Some?
    ensures AtMost(rows, m, rows[i].value.ys[m].value) ==> Shows(points, m, rows[i].value.ys[m].value)
    ensures AtLeast(rows, m, rows[i].value.ys[m].value) ==> Shows(points, m, rows[i].value.ys[m].value)
  {
    hide BucketOf, Charts, RepresentedWithin;
    var v := rows[i].value.ys[m].value;
    var slice := SliceOf(rows, points, buckets, i);
    assert Lower(slice, m, v) && Upper(slice, m, v);
    var low :| low in slice && m < |low.ys| && low.ys[m].Some? && low.ys[m].value <= v;
    var high :| high in slice && m < |high.ys| && high.ys[m].Some? && high.ys[m].value >= v;
    assert Plots(rows, low) && Plots(rows, high);
  }

  ghost predicate Shows(points: seq<Point>, m: nat, v: real) { exists p :: p in points && m < |p.ys| && p.ys[m] == Some(v) }

  /** Every value of the metric is at most, or at least, this one. */
  ghost predicate AtMost(rows: seq<Row>, m: nat, v: real) {
    forall k :: 0 <= k < |rows| && rows[k].Some? && m < |rows[k].value.ys| && rows[k].value.ys[m].Some? ==>
      rows[k].value.ys[m].value <= v
  }

  ghost predicate AtLeast(rows: seq<Row>, m: nat, v: real) {
    forall k :: 0 <= k < |rows| && rows[k].Some? && m < |rows[k].value.ys| && rows[k].value.ys[m].Some? ==>
      rows[k].value.ys[m].value >= v
  }

  /** Every bucket with a missing value of a metric shows a gap of that metric. */
  lemma GapsKept(rows: seq<Row>, points: seq<Point>, buckets: nat, i: nat, m: nat)
    requires Charts(rows, points, buckets) && i < |rows| && rows[i].Some?
    requires m < |rows[i].value.ys| && rows[i].value.ys[m].None?
    ensures exists p :: p in points && m < |p.ys| && p.ys[m].None?
                        && BucketOf(p.at, buckets, |rows|) == BucketOf(i, buckets, |rows|)
  {
    hide BucketOf, Charts, RepresentedWithin;
    var slice := SliceOf(rows, points, buckets, i);
    assert Gap(slice, m);
    var p :| p in slice && m < |p.ys| && p.ys[m].None?;
  }
}
