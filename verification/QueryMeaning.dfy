/** What a query's answer holds, step by step and field by field. */
module QueryMeaning {
  import opened OrderedMap
  import opened Records
  import opened Results

  // ---------------------------------------------------------------- one step's fields

  /** The last row that sets this field of this step. */
  ghost predicate SetsLast(rows: seq<Record>, step: int, field: string, i: nat) {
    && i < |rows| && rows[i].key == step && field in rows[i].value
    && forall j :: i < j < |rows| && rows[j].key == step ==> field !in rows[j].value
  }

  /** The fields are those that rows of this step set, each as the last such row sets it. */
  ghost predicate Entire(rows: seq<Record>, step: int, fields: Fields) {
    && (forall field :: field in fields ==> exists i: nat :: SetsLast(rows, step, field, i) && fields[field] == rows[i].value[field])
    && (forall i, field :: 0 <= i < |rows| && rows[i].key == step && field in rows[i].value ==> field in fields)
  }

  lemma {:induction false} PatchedEntire(rows: seq<Record>, step: int)
    ensures Entire(rows, step, Patched(rows, step))
  {
    if rows != [] {
      var init, last := rows[..|rows| - 1], rows[|rows| - 1];
      PatchedEntire(init, step);
      EntirePush(init, last, step, Patched(init, step));
      assert init + [last] == rows;
    }
  }

  lemma EntirePush(rows: seq<Record>, last: Record, step: int, fields: Fields)
    requires Entire(rows, step, fields)
    ensures Entire(rows + [last], step, fields + if last.key == step then last.value else map[])
  {
    var all, more := rows + [last], fields + if last.key == step then last.value else map[];
    forall field | field in more
      ensures exists i: nat :: SetsLast(all, step, field, i) && more[field] == all[i].value[field]
    {
      if last.key == step && field in last.value {
        assert SetsLast(all, step, field, |rows|);
      } else {
        var i: nat :| SetsLast(rows, step, field, i) && fields[field] == rows[i].value[field];
        assert SetsLast(all, step, field, i);
      }
    }
  }

  // ---------------------------------------------------------------- which steps

  predicate Shown(start: Option<int>, end: Option<int>, step: int) {
    (start.Some? ==> start.value <= step) && (end.Some? ==> step < end.value)
  }

  /** Fewer than `count` other steps were written after this one was last written. */
  ghost predicate Fresh(rows: seq<Record>, step: int, count: nat) {
    exists i: nat :: LastAt(rows, step, i) && |Steps(rows[i + 1..])| < count
  }

  ghost predicate LastAt(rows: seq<Record>, step: int, i: nat) {
    i < |rows| && rows[i].key == step && forall j :: i < j < |rows| ==> rows[j].key != step
  }

  /** The answer to a query: ascending steps, each with all its fields. With a range, the steps in
      it, or the largest `count` of them; without one all steps, or the `count` written last. */
  ghost predicate Answers(result: seq<Record>, rows: seq<Record>, count: Option<nat>, start: Option<int>, end: Option<int>,
                          ranged: bool)
  {
    && (forall i, j :: 0 <= i < j < |result| ==> result[i].key < result[j].key)
    && (forall i :: 0 <= i < |result| ==> Entire(rows, result[i].key, result[i].value))
    && (count.None? ==> forall k :: Has(result, k) <==> Has(rows, k) && Shown(start, end, k))
    && (count.Some? && ranged ==> Largest(result, rows, count.value, start, end))
    && (count.Some? && !ranged ==> forall k :: Has(result, k) <==> Fresh(rows, k, count.value))
  }

  ghost predicate Largest(result: seq<Record>, rows: seq<Record>, count: nat, start: Option<int>, end: Option<int>) {
    && |result| <= count
    && (forall k :: Has(result, k) ==> Has(rows, k) && Shown(start, end, k))
    && (forall k :: Has(rows, k) && Shown(start, end, k) && !Has(result, k) ==>
          |result| == count && forall i :: 0 <= i < |result| ==> k < result[i].key)
  }

  lemma {:induction false} LoggedIffHas(rows: seq<Record>, step: int)
    ensures Logged(rows, step) <==> Has(rows, step)
  {
    if rows != [] {
      var init, last := rows[..|rows| - 1], rows[|rows| - 1];
      LoggedIffHas(init, step);
      HasPush(init, last, step);
      assert init + [last] == rows;
    }
  }

  lemma HasPush(rows: seq<Record>, r: Record, step: int)
    ensures Has(rows + [r], step) <==> Has(rows, step) || r.key == step
  {
    var all := rows + [r];
    if Has(rows, step) {
      var i :| 0 <= i < |rows| && rows[i].key == step;
      assert all[i].key == step;
    }
    assert all[|rows|] == r;
  }

  lemma RangedNothing(start: Option<int>, end: Option<int>)
    ensures Ranged([], start, end) == []
  {
  }

  lemma RangedNext(rows: seq<Record>, start: Option<int>, end: Option<int>)
    requires rows != []
    ensures var kept, last := Ranged(rows[..|rows| - 1], start, end), rows[|rows| - 1];
      Ranged(rows, start, end) == if Shown(start, end, last.key) then kept + [last] else kept
  {
    var kept := Ranged(rows[..|rows| - 1], start, end);
    assert kept + [] == kept;
  }

  /** Steps in range keep all their rows. */
  lemma {:induction false} RangedKeeps(rows: seq<Record>, start: Option<int>, end: Option<int>, step: int)
    ensures Shown(start, end, step) ==> Patched(Ranged(rows, start, end), step) == Patched(rows, step)
    ensures Logged(Ranged(rows, start, end), step) <==> Logged(rows, step) && Shown(start, end, step)
  {
    hide Ranged, Patched, Logged;
    PatchedNone(step);
    if rows == [] {
      RangedNothing(start, end);
    } else {
      var init, last := rows[..|rows| - 1], rows[|rows| - 1];
      var kept := Ranged(init, start, end);
      RangedKeeps(init, start, end, step);
      RangedNext(rows, start, end);
      assert init + [last] == rows;
      PatchedPush(init, last, step);
      PatchedPush(kept, last, step);
      assert Patched(init, step) + map[] == Patched(init, step);
    }
  }

  lemma {:induction false} KeepKeeps(rows: seq<Record>, steps: set<int>, step: int)
    ensures step in steps ==> Patched(Keep(rows, steps), step) == Patched(rows, step)
    ensures Logged(Keep(rows, steps), step) <==> Logged(rows, step) && step in steps
  {
    PatchedNone(step);
    if rows != [] {
      var init, last := rows[..|rows| - 1], rows[|rows| - 1];
      var kept := Keep(init, steps);
      KeepKeeps(init, steps, step);
      PatchedPush(kept, last, step);
      assert kept + [] == kept && Patched(init, step) + map[] == Patched(init, step);
    }
  }

  ghost predicate FreshOn(rows: seq<Record>, step: int, count: nat, seen: set<int>, i: nat) {
    LastAt(rows, step, i) && |seen + Steps(rows[i + 1..])| < count
  }

  /** The steps chosen are those written last, by how many others were written since. */
  lemma {:induction false} RecentFresh(rows: seq<Record>, count: nat, seen: set<int>, step: int)
    requires step !in seen
    ensures step in Recent(rows, count, seen) <==> exists i: nat :: FreshOn(rows, step, count, seen, i)
  {
    hide LastAt, Steps, FreshOn;
    if rows == [] {
      forall i: nat ensures !FreshOn(rows, step, count, seen, i) { NeverFresh(rows, step, count, seen, i); }
    } else {
      var n := |rows| - 1;
      var init, last := rows[..n], rows[n];
      if |seen| >= count {
        forall i: nat ensures !FreshOn(rows, step, count, seen, i) { NeverFresh(rows, step, count, seen, i); }
      } else if last.key == step {
        RecentMeans(init, count, seen + {step});
        FreshAtEnd(rows, step, count, seen);
      } else {
        RecentFresh(init, count, seen + {last.key}, step);
        forall i: nat
          ensures FreshOn(rows, step, count, seen, i) <==> FreshOn(init, step, count, seen + {last.key}, i)
        {
          FreshInit(rows, step, count, seen, i);
        }
      }
    }
  }

  lemma NeverFresh(rows: seq<Record>, step: int, count: nat, seen: set<int>, i: nat)
    requires rows == [] || |seen| >= count
    ensures !FreshOn(rows, step, count, seen, i)
  {
    if rows != [] && i < |rows| { Grows(seen, Steps(rows[i + 1..])); }
  }

  lemma FreshAtEnd(rows: seq<Record>, step: int, count: nat, seen: set<int>)
    requires rows != [] && rows[|rows| - 1].key == step && |seen| < count
    ensures FreshOn(rows, step, count, seen, |rows| - 1)
  {
    assert rows[|rows|..] == [] && Steps([]) == {} && seen + {} == seen;
  }

  lemma FreshInit(rows: seq<Record>, step: int, count: nat, seen: set<int>, i: nat)
    requires rows != [] && rows[|rows| - 1].key != step
    ensures var n := |rows| - 1;
      FreshOn(rows, step, count, seen, i) <==> FreshOn(rows[..n], step, count, seen + {rows[n].key}, i)
  {
    hide Steps;
    var n := |rows| - 1;
    var init, last := rows[..n], rows[n];
    LastAtInit(rows, step, i);
    if LastAt(init, step, i) {
      assert rows[i + 1..] == init[i + 1..] + [last];
      StepsPush(init[i + 1..], last);
      assert seen + (Steps(init[i + 1..]) + {last.key}) == (seen + {last.key}) + Steps(init[i + 1..]);
    }
  }

  lemma Grows(a: set<int>, b: set<int>)
    ensures |a + b| >= |a|
  {
    assert a + b == a + (b - a);
  }

  lemma LastAtInit(rows: seq<Record>, step: int, i: nat)
    requires rows != [] && rows[|rows| - 1].key != step
    ensures LastAt(rows, step, i) <==> LastAt(rows[..|rows| - 1], step, i)
  {
  }

  // ---------------------------------------------------------------- the answer

  /** Merging rows that hold all of their steps. */
  lemma MergedMeans(kept: seq<Record>, rows: seq<Record>)
    requires forall k :: Logged(kept, k) ==> Patched(kept, k) == Patched(rows, k)
    ensures var m := MergeAll(kept);
      && Ascending(m) && (forall i :: 0 <= i < |m| ==> Entire(rows, m[i].key, m[i].value))
      && (forall k :: Has(m, k) <==> Logged(kept, k))
  {
    hide MergeAll, Logged, Patched, Entire, Has, Contains, Get;
    var m := MergeAll(kept);
    MergeAllMeans(kept, 0);
    forall k
      ensures Has(m, k) <==> Logged(kept, k)
    {
      MergeAllMeans(kept, k);
      ContainsIffHas(m, k);
    }
    forall i | 0 <= i < |m|
      ensures Entire(rows, m[i].key, m[i].value)
    {
      var k := m[i].key;
      GetAt(m, i);
      MergeAllMeans(kept, k);
      PatchedEntire(rows, k);
    }
  }

  /** What the composed specification computes is that answer. */
  lemma AnswerAnswers(rows: seq<Record>, count: Option<nat>, start: Option<int>, end: Option<int>, ranged: bool)
    requires !ranged ==> start.None? && end.None?
    ensures Answers(Answer(rows, count, start, end, ranged), rows, count, start, end, ranged)
  {
    hide MergeAll, Ranged, Keep, Recent, LastN, Entire, Fresh, Logged, Patched, Has, Largest;
    if count == Some(0) {
      NothingAnswers(rows, start, end);
    } else if ranged {
      var kept := Ranged(rows, start, end);
      RangedWholly(rows, start, end);
      MergedMeans(kept, rows);
      if count.None? { NoLimit(MergeAll(kept)); } else { LastIsLargest(MergeAll(kept), rows, count.value, start, end); }
    } else if count.None? {
      MergedMeans(rows, rows);
      forall k ensures Logged(rows, k) <==> Has(rows, k) { LoggedIffHas(rows, k); }
    } else {
      var kept := Keep(rows, Recent(rows, count.value, {}));
      RecentAll(rows, count.value);
      MergedMeans(kept, rows);
    }
  }

  lemma RangedWholly(rows: seq<Record>, start: Option<int>, end: Option<int>)
    ensures var kept := Ranged(rows, start, end);
      forall k :: (Logged(kept, k) <==> Has(rows, k) && Shown(start, end, k))
               && (Logged(kept, k) ==> Patched(kept, k) == Patched(rows, k))
  {
    hide Ranged, Logged, Patched, Has;
    var kept := Ranged(rows, start, end);
    forall k
      ensures Logged(kept, k) <==> Has(rows, k) && Shown(start, end, k)
      ensures Logged(kept, k) ==> Patched(kept, k) == Patched(rows, k)
    {
      RangedKeeps(rows, start, end, k);
      LoggedIffHas(rows, k);
    }
  }

  lemma RecentAll(rows: seq<Record>, count: nat)
    ensures var kept := Keep(rows, Recent(rows, count, {}));
      forall k :: (Logged(kept, k) <==> Fresh(rows, k, count)) && (Logged(kept, k) ==> Patched(kept, k) == Patched(rows, k))
  {
    hide Keep, Recent, Logged, Patched, FreshOn, Fresh;
    var steps := Recent(rows, count, {});
    forall k
      ensures Logged(Keep(rows, steps), k) <==> Fresh(rows, k, count)
      ensures Logged(Keep(rows, steps), k) ==> Patched(Keep(rows, steps), k) == Patched(rows, k)
    {
      KeepKeeps(rows, steps, k);
      RecentFresh(rows, count, {}, k);
      FreshFromNothing(rows, k, count);
      RecentMeans(rows, count, {});
      if k in steps { StepLogged(rows, k); }
    }
  }

  lemma FreshFromNothing(rows: seq<Record>, step: int, count: nat)
    ensures Fresh(rows, step, count) <==> exists i: nat :: FreshOn(rows, step, count, {}, i)
  {
    hide Steps;
    forall i: nat
      ensures FreshOn(rows, step, count, {}, i) <==> LastAt(rows, step, i) && |Steps(rows[i + 1..])| < count
    {
      if LastAt(rows, step, i) { assert {} + Steps(rows[i + 1..]) == Steps(rows[i + 1..]); }
    }
  }

  lemma StepLogged(rows: seq<Record>, k: int)
    requires k in Steps(rows)
    ensures Logged(rows, k)
  {
    LoggedIffHas(rows, k);
  }

  lemma NothingAnswers(rows: seq<Record>, start: Option<int>, end: Option<int>)
    ensures Answers([], rows, Some(0), start, end, true) && Answers([], rows, Some(0), start, end, false)
  {
  }

  lemma NoLimit(m: seq<Record>)
    ensures LastN(m, None) == m
  {
  }

  /** How many elements a limit drops. */
  function Dropped(n: nat, limit: Option<nat>): (d: nat)
    ensures d <= n
  {
    if limit.None? || n <= limit.value then 0 else n - limit.value
  }

  lemma LastNDrops<T>(s: seq<T>, limit: Option<nat>)
    ensures LastN(s, limit) == s[Dropped(|s|, limit)..]
  {
  }

  lemma LastIsLargest(m: seq<Record>, rows: seq<Record>, count: nat, start: Option<int>, end: Option<int>)
    requires Ascending(m) && forall k :: Has(m, k) <==> Has(rows, k) && Shown(start, end, k)
    requires forall i :: 0 <= i < |m| ==> Entire(rows, m[i].key, m[i].value)
    ensures Answers(LastN(m, Some(count)), rows, Some(count), start, end, true)
  {
    hide Entire, LastN, Largest, Shown, Has;
    var d := Dropped(|m|, Some(count));
    LastNDrops(m, Some(count));
    var s := m[d..];
    SuffixLargest(m, rows, count, start, end, d);
    assert forall i :: 0 <= i < |s| ==> s[i] == m[d + i];
  }

  lemma SuffixLargest(m: seq<Record>, rows: seq<Record>, count: nat, start: Option<int>, end: Option<int>, d: nat)
    requires Ascending(m) && forall k :: Has(m, k) <==> Has(rows, k) && Shown(start, end, k)
    requires d <= |m| && |m| - d <= count && (d > 0 ==> |m| - d == count)
    ensures Largest(m[d..], rows, count, start, end)
  {
    hide Shown, Ascending;
    var s := m[d..];
    forall k
      ensures Has(s, k) ==> Has(m, k)
      ensures Has(m, k) && !Has(s, k) ==> d > 0 && forall i :: 0 <= i < |s| ==> k < s[i].key
    {
      SuffixHas(m, d, k);
    }
  }

  lemma SuffixHas(m: seq<Record>, d: nat, k: int)
    requires Ascending(m) && d <= |m|
    ensures Has(m[d..], k) ==> Has(m, k)
    ensures Has(m, k) && !Has(m[d..], k) ==> d > 0 && forall i :: 0 <= i < |m| - d ==> k < m[d..][i].key
  {
    var s := m[d..];
    if Has(s, k) {
      var i :| 0 <= i < |s| && s[i].key == k;
      assert m[d + i].key == k;
    }
    if Has(m, k) {
      var i :| 0 <= i < |m| && m[i].key == k;
      if i >= d { assert s[i - d].key == k; }
    }
  }

  // ---------------------------------------------------------------- without merging

  /** The rows in range as they are, in row order; with a limit the last of them. */
  ghost predicate Excerpt(result: seq<Record>, rows: seq<Record>, limit: Option<nat>, start: Option<int>, end: Option<int>) {
    exists at: seq<nat> :: Excerpted(result, rows, limit, start, end, at)
  }

  ghost predicate Excerpted(result: seq<Record>, rows: seq<Record>, limit: Option<nat>, start: Option<int>, end: Option<int>,
                            at: seq<nat>)
  {
    && (limit.Some? ==> |at| <= limit.value)
    && Climbing(at) && Quotes(result, rows, start, end, at) && OnlyEarlierMissing(rows, limit, start, end, at)
  }

  predicate Climbing(at: seq<nat>) { forall i, j :: 0 <= i < j < |at| ==> at[i] < at[j] }

  predicate Quotes(result: seq<Record>, rows: seq<Record>, start: Option<int>, end: Option<int>, at: seq<nat>) {
    && |at| == |result|
    && forall i :: 0 <= i < |at| ==> at[i] < |rows| && rows[at[i]] == result[i] && Shown(start, end, result[i].key)
  }

  predicate OnlyEarlierMissing(rows: seq<Record>, limit: Option<nat>, start: Option<int>, end: Option<int>, at: seq<nat>) {
    forall n: nat :: n < |rows| && Shown(start, end, rows[n].key) && n !in at ==>
      limit == Some(|at|) && forall i :: 0 <= i < |at| ==> n < at[i]
  }

  lemma {:induction false} RangedExcerpt(rows: seq<Record>, start: Option<int>, end: Option<int>) returns (at: seq<nat>)
    ensures Excerpted(Ranged(rows, start, end), rows, None, start, end, at)
  {
    hide Excerpted;
    if rows == [] {
      at := [];
      NothingExcerpted(None, start, end);
    } else {
      var n := |rows| - 1;
      var init, last := rows[..n], rows[n];
      var before := RangedExcerpt(init, start, end);
      at := if Shown(start, end, last.key) then before + [n] else before;
      ExcerptPush(Ranged(init, start, end), init, last, start, end, before);
      assert init + [last] == rows && Ranged(init, start, end) + [] == Ranged(init, start, end);
    }
  }

  lemma NothingExcerpted(limit: Option<nat>, start: Option<int>, end: Option<int>)
    ensures Excerpted([], [], limit, start, end, [])
  {
  }

  lemma ExcerptPush(kept: seq<Record>, init: seq<Record>, last: Record, start: Option<int>, end: Option<int>, at: seq<nat>)
    requires Excerpted(kept, init, None, start, end, at)
    ensures if Shown(start, end, last.key) then Excerpted(kept + [last], init + [last], None, start, end, at + [|init|])
            else Excerpted(kept, init + [last], None, start, end, at)
  {
    hide Shown;
    var rows := init + [last];
    assert rows[|init|] == last && forall i :: 0 <= i < |init| ==> rows[i] == init[i];
    if Shown(start, end, last.key) {
      var more := at + [|init|];
      forall n: nat | n < |rows| && Shown(start, end, rows[n].key)
        ensures n in more
      {
        if n == |init| { assert more[|at|] == n; } else { assert n in at; }
      }
    }
  }

  lemma ExcerptLast(kept: seq<Record>, rows: seq<Record>, limit: Option<nat>, start: Option<int>, end: Option<int>, at: seq<nat>)
    requires Excerpted(kept, rows, None, start, end, at)
    ensures Excerpted(LastN(kept, limit), rows, limit, start, end, LastN(at, limit))
  {
    hide LastN, Shown, Climbing, Quotes, OnlyEarlierMissing;
    var d := Dropped(|at|, limit);
    QuotesSize(kept, rows, start, end, at);
    LastNDrops(kept, limit);
    LastNDrops(at, limit);
    QuotesSuffix(kept, rows, start, end, at, d);
    MissingSuffix(rows, limit, start, end, at, d);
  }

  lemma QuotesSize(kept: seq<Record>, rows: seq<Record>, start: Option<int>, end: Option<int>, at: seq<nat>)
    requires Quotes(kept, rows, start, end, at)
    ensures |kept| == |at|
  {
  }

  lemma QuotesSuffix(kept: seq<Record>, rows: seq<Record>, start: Option<int>, end: Option<int>, at: seq<nat>, d: nat)
    requires Quotes(kept, rows, start, end, at) && Climbing(at) && d <= |at| == |kept|
    ensures Quotes(kept[d..], rows, start, end, at[d..]) && Climbing(at[d..])
  {
    hide Shown;
  }

  lemma MissingSuffix(rows: seq<Record>, limit: Option<nat>, start: Option<int>, end: Option<int>, at: seq<nat>, d: nat)
    requires OnlyEarlierMissing(rows, None, start, end, at) && Climbing(at) && d <= |at|
    requires d > 0 ==> limit == Some(|at| - d)
    ensures OnlyEarlierMissing(rows, limit, start, end, at[d..])
  {
    hide Shown;
    var last := at[d..];
    forall n: nat | n < |rows| && Shown(start, end, rows[n].key) && n !in last
      ensures limit == Some(|last|) && forall i :: 0 <= i < |last| ==> n < last[i]
    {
      BeforeSuffix(at, d, n);
    }
  }

  lemma BeforeSuffix(at: seq<nat>, d: nat, n: nat)
    requires d <= |at| && n in at && forall i, j :: 0 <= i < j < |at| ==> at[i] < at[j]
    ensures n !in at[d..] ==> d > 0 && forall i :: 0 <= i < |at| - d ==> n < at[d..][i]
  {
    var i :| 0 <= i < |at| && at[i] == n;
    if i >= d { assert at[d..][i - d] == n; }
  }

  /** The in-range rows, cut to the last ones, are that excerpt. */
  lemma RangedAnswers(rows: seq<Record>, limit: Option<nat>, start: Option<int>, end: Option<int>)
    ensures Excerpt(LastN(Ranged(rows, start, end), limit), rows, limit, start, end)
  {
    hide Excerpted, Ranged, LastN;
    var at := RangedExcerpt(rows, start, end);
    ExcerptLast(Ranged(rows, start, end), rows, limit, start, end, at);
  }

  lemma NoExcerpt(rows: seq<Record>, start: Option<int>, end: Option<int>)
    ensures Excerpt([], rows, Some(0), start, end)
  {
    assert Excerpted([], rows, Some(0), start, end, []);
  }
}
