/** Why partial answers add up: a query answered from the older rows on disk, the cached
    rows and the open row is the answer over all of them. */
module HistoryAnswers {
  import opened OrderedMap
  import opened Records
  import opened Results

  /** The last stage of `collect`: select the newest steps, merge, trim. */
  function Combined(records: seq<Record>, count: Option<nat>, ranged: bool, merge: bool): seq<Record> {
    var kept := if !ranged && count.Some? then Keep(records, Recent(records, count.value, {})) else records;
    var merged := if merge then MergeAll(kept) else kept;
    if ranged then LastN(merged, count) else merged
  }

  /** Ascending rows answer a tail query with their last rows. */
  lemma TailAscending(rows: seq<Record>, count: nat)
    requires Ascending(rows) && count > 0
    ensures Answer(rows, Some(count), None, None, false) == LastN(rows, Some(count))
    ensures Combined(rows, Some(count), false, false) == LastN(rows, Some(count))
  {
    KeepRecentAscending(rows, count, {});
    LastNAscending(rows, Some(count));
    MergeAscending(LastN(rows, Some(count)));
  }

  lemma LastNAscending(rows: seq<Record>, count: Option<nat>)
    requires Ascending(rows)
    ensures Ascending(LastN(rows, count))
  {
  }

  lemma SuffixAscending(a: seq<Record>, b: seq<Record>)
    requires Ascending(a + b)
    ensures Ascending(a) && Ascending(b)
  {
    assert forall i :: 0 <= i < |a| ==> (a + b)[i] == a[i];
    assert forall i :: 0 <= i < |b| ==> (a + b)[|a| + i] == b[i];
  }

  /** In-range rows from disk and cache, merged or not. */
  lemma RangedParts(past: seq<Record>, newer: seq<Record>, live: seq<Record>, count: Option<nat>,
                    start: Option<int>, end: Option<int>, merge: bool)
    requires count != Some(0)
    requires !merge ==> Ascending(past + newer + live)
    ensures var older := Ranged(past, start, end);
      Combined((if merge then MergeAll(older) else older) + Ranged(newer, start, end) + Ranged(live, start, end),
               count, true, merge)
      == Answer(past + newer + live, count, start, end, true)
  {
    hide Ranged, MergeAll, LastN;
    var all := past + newer + live;
    RangedConcat(past, newer, start, end);
    RangedConcat(past + newer, live, start, end);
    var a, b, c := Ranged(past, start, end), Ranged(newer, start, end), Ranged(live, start, end);
    assert a + b + c == a + (b + c);
    if merge {
      MergeMerged(a, b + c);
      assert MergeAll(a) + b + c == MergeAll(a) + (b + c);
    } else {
      RangedMeans(all, start, end);
      MergeAscending(Ranged(all, start, end));
    }
  }

  /** A tail query over ascending rows, its older part read up to the number still missing. */
  lemma TailParts(past: seq<Record>, newer: seq<Record>, live: seq<Record>, count: nat, missing: nat)
    requires count > 0 && Ascending(past + newer + live)
    requires missing == if count < |newer| + |live| then 0 else count - (|newer| + |live|)
    ensures Combined(LastN(past, Some(missing)) + newer + live, Some(count), false, false)
         == Answer(past + newer + live, Some(count), None, None, false)
  {
    hide Combined, Answer, LastN, Ascending;
    var all, top := past + newer + live, newer + live;
    var kept := LastN(past, Some(missing));
    var rest := LastNRest(past, missing);
    var cut := kept + top;
    assert kept + newer + live == cut;
    assert all == past + top == rest + cut;
    SuffixAscending(rest, cut);
    TailAscending(all, count);
    TailAscending(cut, count);
    if rest != [] { LastNConcat(rest, cut, count); } else { assert all == cut; }
  }

  lemma LastNRest(past: seq<Record>, missing: nat) returns (rest: seq<Record>)
    ensures past == rest + LastN(past, Some(missing))
    ensures rest != [] ==> |LastN(past, Some(missing))| == missing
  {
    rest := past[..|past| - |LastN(past, Some(missing))|];
  }

  /** A tail query with patches: the steps chosen from open row, cache and disk in turn, the
      older rows of these steps merged first. */
  lemma TailMerged(past: seq<Record>, newer: seq<Record>, live: seq<Record>, count: nat, chosen: set<int>)
    requires count > 0
    requires chosen == Recent(past, count, Recent(newer, count, Recent(live, count, {})))
    ensures Combined(MergeAll(Keep(past, chosen)) + newer + live, Some(count), false, true)
         == Answer(past + newer + live, Some(count), None, None, false)
  {
    hide Recent, Keep, MergeAll;
    var all, top := past + newer + live, newer + live;
    var older := MergeAll(Keep(past, chosen));
    RecentConcat(past, newer, count, Recent(live, count, {}));
    RecentConcat(past + newer, live, count, {});
    RecentConcat(newer, live, count, {});
    assert chosen == Recent(all, count, {});
    assert older + newer + live == older + top && all == past + top;
    SameChoice(past, top, count, chosen);
    KeepConcat(older, top, chosen);
    MergedWithin(past, chosen);
    KeepAll(older, chosen);
    KeepConcat(past, top, chosen);
    MergeMerged(Keep(past, chosen), Keep(top, chosen));
  }

  lemma MergedWithin(past: seq<Record>, chosen: set<int>)
    ensures Steps(MergeAll(Keep(past, chosen))) == Steps(past) * chosen
  {
    hide MergeAll, Get;
    var kept := Keep(past, chosen);
    var m := MergeAll(kept);
    forall k
      ensures k in Steps(m) <==> k in Steps(past) && k in chosen
    {
      MergeAllMeans(kept, k);
      ContainsIffHas(m, k);
      LoggedIffStep(kept, k);
      KeepSteps(past, chosen);
      if k in Steps(m) {
        var i :| 0 <= i < |m| && m[i].key == k;
        assert Has(m, k);
      }
      if Has(m, k) {
        var i :| 0 <= i < |m| && m[i].key == k;
      }
    }
  }

  lemma {:induction false} LoggedIffStep(rows: seq<Record>, k: int)
    ensures Logged(rows, k) <==> k in Steps(rows)
  {
    if rows != [] {
      LoggedIffStep(rows[..|rows| - 1], k);
      StepsPush(rows[..|rows| - 1], rows[|rows| - 1]);
      assert rows == rows[..|rows| - 1] + [rows[|rows| - 1]];
    }
  }

  lemma {:induction false} KeepSteps(rows: seq<Record>, chosen: set<int>)
    ensures Steps(Keep(rows, chosen)) == Steps(rows) * chosen
  {
    if rows != [] {
      var init, last := rows[..|rows| - 1], rows[|rows| - 1];
      KeepSteps(init, chosen);
      StepsPush(init, last);
      StepsPush(Keep(init, chosen), last);
      assert rows == init + [last];
      assert Keep(init, chosen) + [] == Keep(init, chosen);
    }
  }

  /** Choosing again among the merged rows makes the same choice. */
  lemma SameChoice(past: seq<Record>, top: seq<Record>, count: nat, chosen: set<int>)
    requires count > 0 && chosen == Recent(past + top, count, {})
    ensures Recent(MergeAll(Keep(past, chosen)) + top, count, {}) == chosen
  {
    hide MergeAll, Keep, Steps;
    var older := MergeAll(Keep(past, chosen));
    var seen := Recent(top, count, {});
    RecentConcat(past, top, count, {});
    RecentConcat(older, top, count, {});
    RecentMeans(top, count, {});
    RecentMeans(past, count, seen);
    MergedWithin(past, chosen);
    assert seen + Steps(older) == chosen;
    RecentMeans(older, count, seen);
  }

  /** Everything, merged or already ascending. */
  lemma AllParts(rows: seq<Record>, merge: bool)
    requires !merge ==> Ascending(rows)
    ensures Combined(rows, None, false, merge) == Answer(rows, None, None, None, false)
  {
    if !merge { MergeAscending(rows); }
  }

  /** What `collect` asks of the rows before the cache, given what it already has. */
  function OlderPart(past: seq<Record>, newer: seq<Record>, live: seq<Record>, count: Option<nat>,
                     start: Option<int>, end: Option<int>, ranged: bool, merge: bool): seq<Record>
  {
    if ranged then if merge then MergeAll(Ranged(past, start, end)) else Ranged(past, start, end)
    else if count.None? then past
    else if merge then
      MergeAll(Keep(past, Recent(past, count.value, Recent(newer, count.value, Recent(live, count.value, {})))))
    else LastN(past, Some(Missing(count.value, |newer| + |live|)))
  }

  function Missing(count: nat, have: nat): nat { if count < have then 0 else count - have }

  /** Which of the cached rows are taken, and when that alone is enough. */
  ghost predicate Picked(past: seq<Record>, cached: seq<Record>, newer: seq<Record>, complete: bool, count: Option<nat>,
                         start: Option<int>, end: Option<int>, ranged: bool, merge: bool)
  {
    if ranged then
      newer == Ranged(cached, start, end) && (complete ==> Ranged(past, start, end) == [])
    else
      || (newer == cached && (complete ==> past == []))
      || (complete && !merge && count.Some? && |newer| == count.value <= |cached|
          && newer == cached[|cached| - count.value..])
  }

  /** Whatever was picked and whatever was read from disk, the parts make the answer. */
  lemma PartsAnswer(past: seq<Record>, cached: seq<Record>, newer: seq<Record>, live: seq<Record>, complete: bool,
                    count: Option<nat>, start: Option<int>, end: Option<int>, ranged: bool, merge: bool)
    requires count != Some(0) && (!ranged ==> start.None? && end.None?)
    requires !merge ==> Ascending(past + cached + live)
    requires Picked(past, cached, newer, complete, count, start, end, ranged, merge)
    ensures var open := if ranged then Ranged(live, start, end) else live;
      var older := if complete then [] else OlderPart(past, newer, live, count, start, end, ranged, merge);
      && Combined(older + newer + open, count, ranged, merge) == Answer(past + cached + live, count, start, end, ranged)
      && (complete && !merge ==>
            LastN(newer + open, count) == Answer(past + cached + live, count, start, end, ranged))
  {
    hide MergeAll, Ranged, Keep, Recent, Combined, Answer;
    var older := if complete then [] else OlderPart(past, newer, live, count, start, end, ranged, merge);
    if ranged {
      if complete { NothingMerged(); }
      RangedParts(past, cached, live, count, start, end, merge);
      if !merge { RangedPlain(older + newer + Ranged(live, start, end), count); }
      assert [] + newer == newer;
    } else if newer == cached && (complete ==> past == []) {
      assert complete ==> [] + cached == cached;
      if count.None? {
        AllParts(past + cached + live, merge);
        if !merge { PlainAll(past + cached + live); }
      } else if merge {
        if complete { NothingMerged(); NothingRecent(count.value, Recent(newer, count.value, Recent(live, count.value, {}))); }
        TailMerged(past, cached, live, count.value,
                   Recent(past, count.value, Recent(newer, count.value, Recent(live, count.value, {}))));
      } else {
        TailParts(past, cached, live, count.value, Missing(count.value, |newer| + |live|));
        if complete { WholeTail(cached, live, count.value, Missing(count.value, |newer| + |live|)); }
      }
    } else {
      CutTail(past, cached, newer, live, count.value);
    }
  }

  lemma WholeTail(cached: seq<Record>, live: seq<Record>, count: nat, missing: nat)
    requires count > 0 && Ascending([] + cached + live)
    ensures LastN<Record>([], Some(missing)) == []
    ensures [] + cached + live == cached + live
    ensures LastN(cached + live, Some(count)) == Answer([] + cached + live, Some(count), None, None, false)
  {
    hide Answer;
    LastNNone<Record>([], Some(missing));
    assert [] + cached + live == cached + live;
    TailAscending(cached + live, count);
  }

  lemma CutTail(past: seq<Record>, cached: seq<Record>, newer: seq<Record>, live: seq<Record>, count: nat)
    requires count > 0 && Ascending(past + cached + live)
    requires |newer| == count <= |cached| && newer == cached[|cached| - count..]
    ensures LastN(newer + live, Some(count)) == Answer(past + cached + live, Some(count), None, None, false)
    ensures Combined([] + newer + live, Some(count), false, false)
         == Answer(past + cached + live, Some(count), None, None, false)
  {
    hide Answer, Combined, LastN, Ascending;
    var rest := past + cached[..|cached| - count];
    var all, cut := past + cached + live, newer + live;
    assert all == rest + cut;
    SuffixAscending(rest, cut);
    TailAscending(all, count);
    TailAscending(cut, count);
    LastNConcat(rest, cut, count);
    assert [] + newer == newer;
  }

  lemma NothingMerged()
    ensures MergeAll([]) == []
    ensures forall steps: set<int> :: Keep([], steps) == []
    ensures Ranged([], None, None) == []
  {
  }

  lemma NothingRecent(count: nat, seen: set<int>)
    ensures Recent([], count, seen) == seen
  {
  }

  lemma RangedPlain(rows: seq<Record>, count: Option<nat>)
    ensures Combined(rows, count, true, false) == LastN(rows, count)
  {
  }

  lemma PlainAll(rows: seq<Record>)
    ensures Combined(rows, None, false, false) == rows == LastN(rows, None)
  {
  }

  lemma NoAnswer(rows: seq<Record>, start: Option<int>, end: Option<int>, ranged: bool)
    ensures Answer(rows, Some(0), start, end, ranged) == []
  {
  }
}
