/** What a history query means on a plain list of rows: patches of one step merge in
    row order, and results come out in step order. */
module Records {
  import opened OrderedMap
  import opened Results

  type Fields = map<string, string>

  /** One logged row: its step, and the fields it sets. */
  type Record = Entry<Fields>

  // ---------------------------------------------------------------- merging

  /** `entry(step).or_default().merge(record)`. */
  function Upsert(m: seq<Record>, r: Record): seq<Record> {
    Put(m, r.key, (if Contains(m, r.key) then Get(m, r.key) else map[]) + r.value)
  }

  function MergeAll(rows: seq<Record>): seq<Record> {
    if rows == [] then [] else Upsert(MergeAll(rows[..|rows| - 1]), rows[|rows| - 1])
  }

  /** The fields of one step, later rows overriding earlier ones. */
  function Patched(rows: seq<Record>, step: int): Fields {
    if rows == [] then map[]
    else
      var last := rows[|rows| - 1];
      Patched(rows[..|rows| - 1], step) + (if last.key == step then last.value else map[])
  }

  predicate Logged(rows: seq<Record>, step: int) {
    rows != [] && (rows[|rows| - 1].key == step || Logged(rows[..|rows| - 1], step))
  }

  /** A merged list is the set of logged steps in order, each fully patched. */
  lemma {:induction false} MergeAllMeans(rows: seq<Record>, step: int)
    ensures Ascending(MergeAll(rows))
    ensures Contains(MergeAll(rows), step) <==> Logged(rows, step)
    ensures Logged(rows, step) ==> Get(MergeAll(rows), step) == Patched(rows, step)
    ensures !Logged(rows, step) ==> Patched(rows, step) == map[]
  {
    hide Put, Get, Contains;
    if rows == [] {
      assert !Contains<Fields>([], step) by { NothingIn(step); }
    } else {
      var init, last := rows[..|rows| - 1], rows[|rows| - 1];
      MergeAllMeans(init, step);
      MergeAllMeans(init, last.key);
      var v := (if Contains(MergeAll(init), last.key) then Get(MergeAll(init), last.key) else map[]) + last.value;
      PutKeeps(MergeAll(init), last.key, v);
      PutGet(MergeAll(init), last.key, v, step);
      assert Patched(init, step) + map[] == Patched(init, step);
    }
  }

  lemma NothingIn(step: int)
    ensures !Contains<Fields>([], step)
  {
  }

  lemma {:induction false} PatchedConcat(a: seq<Record>, b: seq<Record>, step: int)
    ensures Patched(a + b, step) == Patched(a, step) + Patched(b, step)
    ensures Logged(a + b, step) <==> Logged(a, step) || Logged(b, step)
  {
    PatchedNone(step);
    hide Patched, Logged;
    if b == [] {
      assert a + b == a;
      assert Patched(a, step) + map[] == Patched(a, step);
    } else {
      var init, last := b[..|b| - 1], b[|b| - 1];
      PatchedConcat(a, init, step);
      PatchedPush(a + init, last, step);
      PatchedPush(init, last, step);
      assert (a + init) + [last] == a + b && init + [last] == b;
      PlusAssociates(Patched(a, step), Patched(init, step), if last.key == step then last.value else map[]);
    }
  }

  lemma PatchedNone(step: int)
    ensures Patched([], step) == map[] && !Logged([], step)
  {
  }

  lemma PatchedPush(rows: seq<Record>, r: Record, step: int)
    ensures Patched(rows + [r], step) == Patched(rows, step) + (if r.key == step then r.value else map[])
    ensures Logged(rows + [r], step) <==> Logged(rows, step) || r.key == step
  {
    assert (rows + [r])[..|rows|] == rows;
  }

  lemma PlusAssociates(a: Fields, b: Fields, c: Fields)
    ensures (a + b) + c == a + (b + c)
  {
  }

  /** Lists that patch every step alike merge alike. */
  lemma MergeDetermined(a: seq<Record>, b: seq<Record>)
    requires forall k :: Logged(a, k) <==> Logged(b, k)
    requires forall k :: Logged(a, k) ==> Patched(a, k) == Patched(b, k)
    ensures MergeAll(a) == MergeAll(b)
  {
    hide MergeAll, Logged, Patched, Get, Contains;
    forall k
      ensures Contains(MergeAll(a), k) <==> Contains(MergeAll(b), k)
      ensures Contains(MergeAll(a), k) ==> Get(MergeAll(a), k) == Get(MergeAll(b), k)
    {
      MergeAllMeans(a, k);
      MergeAllMeans(b, k);
      assert Logged(a, k) <==> Logged(b, k);
    }
    MergeAllMeans(a, 0);
    MergeAllMeans(b, 0);
    SameLookups(MergeAll(a), MergeAll(b));
  }

  lemma {:induction false} AscendingPatched(m: seq<Record>, step: int)
    requires Ascending(m)
    ensures Logged(m, step) <==> Contains(m, step)
    ensures Contains(m, step) ==> Patched(m, step) == Get(m, step)
    ensures !Contains(m, step) ==> Patched(m, step) == map[]
  {
    hide Patched, Logged, Get, Contains;
    if m == [] {
      PatchedNone(step);
      NothingIn(step);
    } else {
      var rest := m[1..];
      AscendingPatched(rest, step);
      assert m == [m[0]] + rest;
      PatchedConcat([m[0]], rest, step);
      PatchedNone(step);
      PatchedPush([], m[0], step);
      assert [] + [m[0]] == [m[0]];
      LookupStep(m, step);
      assert map[] + m[0].value == m[0].value && m[0].value + map[] == m[0].value;
      assert forall f: Fields :: map[] + f == f;
    }
  }

  lemma LookupStep(m: seq<Record>, step: int)
    requires m != [] && Ascending(m)
    ensures m[0].key == step ==> Contains(m, step) && Get(m, step) == m[0].value && !Contains(m[1..], step)
    ensures m[0].key != step ==> (Contains(m, step) <==> Contains(m[1..], step))
    ensures m[0].key != step && Contains(m, step) ==> Get(m, step) == Get(m[1..], step)
  {
    ContainsIffHas(m[1..], step);
  }

  /** Merging part of the rows first changes nothing. */
  lemma MergeMerged(a: seq<Record>, b: seq<Record>)
    ensures MergeAll(MergeAll(a) + b) == MergeAll(a + b)
  {
    hide MergeAll, Logged, Patched, Get, Contains;
    forall k
      ensures Logged(MergeAll(a) + b, k) <==> Logged(a + b, k)
      ensures Patched(MergeAll(a) + b, k) == Patched(a + b, k)
    {
      PatchedConcat(MergeAll(a), b, k);
      PatchedConcat(a, b, k);
      MergeAllMeans(a, k);
      AscendingPatched(MergeAll(a), k);
    }
    MergeDetermined(MergeAll(a) + b, a + b);
  }

  /** Strictly ascending rows are their own merge. */
  lemma MergeAscending(rows: seq<Record>)
    requires Ascending(rows)
    ensures MergeAll(rows) == rows
  {
    hide MergeAll, Logged, Patched, Get, Contains;
    forall k
      ensures Contains(MergeAll(rows), k) <==> Contains(rows, k)
      ensures Contains(MergeAll(rows), k) ==> Get(MergeAll(rows), k) == Get(rows, k)
    {
      MergeAllMeans(rows, k);
      AscendingPatched(rows, k);
    }
    MergeAllMeans(rows, 0);
    SameLookups(MergeAll(rows), rows);
  }

  // ---------------------------------------------------------------- selecting

  predicate InRange(step: int, start: Option<int>, end: Option<int>) {
    && (start.Some? ==> step >= start.value)
    && (end.Some? ==> step < end.value)
  }

  function Ranged(rows: seq<Record>, start: Option<int>, end: Option<int>): seq<Record> {
    if rows == [] then []
    else
      Ranged(rows[..|rows| - 1], start, end)
      + (if InRange(rows[|rows| - 1].key, start, end) then [rows[|rows| - 1]] else [])
  }

  function LastN<T>(s: seq<T>, count: Option<nat>): seq<T> {
    if count.None? || |s| <= count.value then s else s[|s| - count.value..]
  }

  function Steps(rows: seq<Record>): set<int> { set i | 0 <= i < |rows| :: rows[i].key }

  function Keep(rows: seq<Record>, steps: set<int>): seq<Record> {
    if rows == [] then []
    else Keep(rows[..|rows| - 1], steps) + (if rows[|rows| - 1].key in steps then [rows[|rows| - 1]] else [])
  }

  /** The `count` most recently written distinct steps, on top of those in `seen`. */
  function Recent(rows: seq<Record>, count: nat, seen: set<int>): set<int> {
    if rows == [] || |seen| >= count then seen
    else Recent(rows[..|rows| - 1], count, seen + {rows[|rows| - 1].key})
  }

  /** The answer to a query, from every row ever admitted and the open row. */
  function Answer(rows: seq<Record>, count: Option<nat>, start: Option<int>, end: Option<int>, ranged: bool)
    : seq<Record>
  {
    if count == Some(0) then []
    else if ranged then LastN(MergeAll(Ranged(rows, start, end)), count)
    else if count.None? then MergeAll(rows)
    else MergeAll(Keep(rows, Recent(rows, count.value, {})))
  }

  lemma {:induction false} RangedConcat(a: seq<Record>, b: seq<Record>, start: Option<int>, end: Option<int>)
    ensures Ranged(a + b, start, end) == Ranged(a, start, end) + Ranged(b, start, end)
  {
    if b == [] {
      assert a + b == a;
    } else {
      RangedConcat(a, b[..|b| - 1], start, end);
      assert (a + b)[..|a + b| - 1] == a + b[..|b| - 1];
    }
  }

  lemma {:induction false} KeepConcat(a: seq<Record>, b: seq<Record>, steps: set<int>)
    ensures Keep(a + b, steps) == Keep(a, steps) + Keep(b, steps)
  {
    if b == [] {
      assert a + b == a;
    } else {
      KeepConcat(a, b[..|b| - 1], steps);
      assert (a + b)[..|a + b| - 1] == a + b[..|b| - 1];
    }
  }

  lemma {:induction false} RecentConcat(a: seq<Record>, b: seq<Record>, count: nat, seen: set<int>)
    ensures Recent(a + b, count, seen) == Recent(a, count, Recent(b, count, seen))
  {
    if b == [] {
      assert a + b == a;
    } else if |seen| < count {
      RecentConcat(a, b[..|b| - 1], count, seen + {b[|b| - 1].key});
      assert (a + b)[..|a + b| - 1] == a + b[..|b| - 1];
    }
  }

  lemma {:induction false} RecentMeans(rows: seq<Record>, count: nat, seen: set<int>)
    ensures seen <= Recent(rows, count, seen) <= seen + Steps(rows)
    ensures |seen| <= count ==> |Recent(rows, count, seen)| <= count
    ensures |seen + Steps(rows)| <= count ==> Recent(rows, count, seen) == seen + Steps(rows)
  {
    if rows != [] {
      var init, last := rows[..|rows| - 1], rows[|rows| - 1];
      StepsPush(init, last);
      assert init + [last] == rows;
      if |seen| < count {
        RecentMeans(init, count, seen + {last.key});
        assert seen + {last.key} + Steps(init) == seen + Steps(rows);
      } else if |seen + Steps(rows)| <= count {
        Saturated(seen, seen + Steps(rows));
      }
    }
  }

  lemma StepsPush(rows: seq<Record>, r: Record)
    ensures Steps(rows + [r]) == Steps(rows) + {r.key}
  {
    var all := rows + [r];
    assert all[|rows|] == r;
    forall i | 0 <= i < |rows|
      ensures rows[i].key in Steps(all)
    {
      assert all[i] == rows[i];
    }
  }

  lemma Saturated(a: set<int>, b: set<int>)
    requires a <= b && |b| <= |a|
    ensures a == b
  {
    assert b == a + (b - a);
    assert |b| == |a| + |b - a|;
  }

  /** On strictly ascending rows, the latest steps are the last rows. */
  lemma {:induction false} KeepRecentAscending(rows: seq<Record>, count: nat, seen: set<int>)
    requires Ascending(rows) && |seen| <= count
    requires forall k, i :: k in seen && 0 <= i < |rows| ==> rows[i].key < k
    ensures Keep(rows, Recent(rows, count, seen)) == LastN(rows, Some(count - |seen|))
  {
    hide LastN, Steps;
    if rows == [] {
      LastNNone(rows, Some(count - |seen|));
    } else {
      var init, last := rows[..|rows| - 1], rows[|rows| - 1];
      if |seen| >= count {
        LastNNone(rows, Some(0));
        KeepNone(rows, seen);
      } else {
        var more := seen + {last.key};
        assert last.key !in seen;
        assert |more| == |seen| + 1;
        assert Ascending(init) by { assert forall i :: 0 <= i < |init| ==> init[i] == rows[i]; }
        KeepRecentAscending(init, count, more);
        RecentMeans(init, count, more);
        LastNSnoc(init, last, count - |seen| - 1);
        assert init + [last] == rows;
      }
    }
  }

  lemma LastNSnoc<T>(s: seq<T>, x: T, count: nat)
    ensures LastN(s + [x], Some(count + 1)) == LastN(s, Some(count)) + [x]
  {
  }

  lemma {:induction false} KeepNone(rows: seq<Record>, steps: set<int>)
    requires forall i :: 0 <= i < |rows| ==> rows[i].key !in steps
    ensures Keep(rows, steps) == []
  {
    if rows != [] { KeepNone(rows[..|rows| - 1], steps); }
  }

  lemma {:induction false} KeepAll(rows: seq<Record>, steps: set<int>)
    requires Steps(rows) <= steps
    ensures Keep(rows, steps) == rows
  {
    if rows != [] {
      StepsPush(rows[..|rows| - 1], rows[|rows| - 1]);
      assert rows[..|rows| - 1] + [rows[|rows| - 1]] == rows;
      KeepAll(rows[..|rows| - 1], steps);
    }
  }

  lemma {:induction false} RangedMeans(rows: seq<Record>, start: Option<int>, end: Option<int>)
    ensures Ascending(rows) ==> Ascending(Ranged(rows, start, end))
    ensures forall r :: r in Ranged(rows, start, end) <==> r in rows && InRange(r.key, start, end)
  {
    hide Ascending, InRange;
    if rows == [] {
      NothingAscends();
    } else {
      var init, last := rows[..|rows| - 1], rows[|rows| - 1];
      RangedMeans(init, start, end);
      assert rows == init + [last] && Ranged(init, start, end) + [] == Ranged(init, start, end);
      if Ascending(rows) {
        InitAscends(init, last);
        AscendingEnd(Ranged(init, start, end), last);
      }
    }
  }

  lemma NothingAscends()
    ensures Ascending<Record>([])
  {
  }

  lemma InitAscends(init: seq<Record>, last: Record)
    requires Ascending(init + [last])
    ensures Ascending(init) && forall r :: r in init ==> r.key < last.key
  {
    var all := init + [last];
    assert forall i :: 0 <= i < |init| ==> all[i] == init[i];
    assert all[|init|] == last;
  }

  lemma AscendingEnd(init: seq<Record>, last: Record)
    requires Ascending(init) && forall r :: r in init ==> r.key < last.key
    ensures Ascending(init + [last])
  {
  }

  lemma {:induction false} RangedNone(rows: seq<Record>, start: Option<int>, end: Option<int>)
    requires forall i :: 0 <= i < |rows| ==> !InRange(rows[i].key, start, end)
    ensures Ranged(rows, start, end) == []
  {
    if rows != [] { RangedNone(rows[..|rows| - 1], start, end); }
  }

  lemma {:induction false} RangedAll(rows: seq<Record>)
    ensures Ranged(rows, None, None) == rows
  {
    if rows != [] { RangedAll(rows[..|rows| - 1]); }
  }

  lemma LastNNone<T>(s: seq<T>, count: Option<nat>)
    requires s == [] || count == Some(0)
    ensures LastN(s, count) == []
  {
  }

  lemma LastNConcat<T>(a: seq<T>, b: seq<T>, count: nat)
    ensures |b| >= count ==> LastN(a + b, Some(count)) == LastN(b, Some(count))
    ensures |b| <= count ==> LastN(a + b, Some(count)) == LastN(a, Some(count - |b|)) + b
  {
  }
}
