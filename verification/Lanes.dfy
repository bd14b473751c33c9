/** Trace lanes: an online packer that gives each span, in start order, a lane in which
    spans only ever nest or follow one another. */
module Lanes {
  import opened Results
  import opened Decimals

  /** A nesting depth as decimal text, or unknown. */
  type Depth = Option<string>

  /** A span in a lane's stack of open spans. */
  datatype Entry = Entry(end: real, depth: Depth)

  /** An end time and the lane it belongs to. */
  datatype Mark = Mark(end: real, lane: nat)

  datatype Placed = Placed(start: real, end: real, depth: Depth, lane: nat)

  // ---------------------------------------------------------------- depths

  /** The preceding code point; depth texts are ASCII. */
  function Previous(c: char): char
    requires c > '0'
  {
    if c == '\U{E000}' then '\U{D7FF}' else (c as int - 1) as char
  }

  /** One less, borrowing from the right; the width stays. */
  function Borrow(s: string): (r: string)
    ensures |r| == |s|
  {
    if s == "" then ""
    else
      var n := |s| - 1;
      if s[n] > '0' then s[..n] + [Previous(s[n])] else Borrow(s[..n]) + "9"
  }

  function Decremented(depth: string): string {
    if depth == "0" then "-1"
    else
      var digits := TrimZeros(Borrow(depth));
      if digits == "" then "0" else digits
  }

  /** `decrement`, digit by digit in place. */
  method Decrement(depth: string) returns (r: string)
    ensures r == Decremented(depth)
  {
    if depth == "0" { return "-1"; }
    var bytes, i := depth, |depth|;
    assert depth[..i] == depth && bytes[i..] == "";
    while i > 0
      invariant 0 <= i <= |depth| == |bytes| && bytes[..i] == depth[..i]
      invariant Borrow(depth[..i]) + bytes[i..] == Borrow(depth)
      decreases i
    {
      i := i - 1;
      assert depth[..i + 1][..i] == depth[..i] && bytes[i] == bytes[..i + 1][i] == depth[i];
      if bytes[i] > '0' {
        bytes := bytes[i := Previous(bytes[i])];
        assert bytes == Borrow(depth[..i + 1]) + bytes[i + 1..];
        break;
      }
      bytes := bytes[i := '9'];
      assert Borrow(depth[..i + 1]) + bytes[i + 1..] == Borrow(depth[..i]) + bytes[i..];
    }
    assert bytes == Borrow(depth);
    r := TrimZeros(bytes);
    if r == "" { r := "0"; }
  }

  lemma {:induction false} BorrowValue(s: string)
    requires IsDigits(s) && Natural(s) > 0
    ensures IsDigits(Borrow(s)) && Natural(Borrow(s)) == Natural(s) - 1
  {
    hide Natural;
    if s == "" {
      NaturalNone();
    } else {
      var n := |s| - 1;
      var init, c := s[..n], s[n];
      assert s == init + [c];
      NaturalPush(init, c);
      NaturalBound(init);
      if c > '0' {
        NaturalPush(init, Previous(c));
      } else {
        BorrowValue(init);
        NaturalPush(Borrow(init), '9');
      }
    }
  }

  lemma NaturalNone()
    ensures Natural("") == 0
  {
  }

  lemma {:induction false} BorrowBehindSign(n: string)
    requires IsDigits(n) && Natural(n) > 0
    ensures Borrow("-" + n) == "-" + Borrow(n)
  {
    if n == "" {
      NaturalNone();
    } else {
      var k := |n| - 1;
      assert ("-" + n)[..k + 1] == "-" + n[..k];
      assert n == n[..k] + [n[k]];
      NaturalPush(n[..k], n[k]);
      NaturalBound(n[..k]);
      if n[k] <= '0' { BorrowBehindSign(n[..k]); }
    }
  }

  /** The decremented text denotes one less exactly for depths that are not negative. */
  lemma DecrementExact(depth: string)
    requires Canonical(depth)
    ensures Canonical(Decremented(depth)) && Value(Decremented(depth)) == Value(depth) - 1 <==> !Negative(depth)
  {
    hide Natural, Borrow;
    if Negative(depth) {
      var n := depth[1..];
      assert depth == "-" + n;
      PositiveMagnitude(n);
      BorrowBehindSign(n);
      BorrowValue(n);
      var r := "-" + Borrow(n);
      assert Decremented(depth) == r && r[1..] == Borrow(n);
    } else if depth == "0" {
      MinusOne();
    } else {
      PositiveMagnitude(depth);
      BorrowValue(depth);
      TrimmedValue(Borrow(depth));
      NaturalNone();
      MinusOne();
    }
  }

  lemma PositiveMagnitude(n: string)
    requires CanonicalNat(n) && n != "0"
    ensures Natural(n) > 0
  {
    LeadingTerm(n);
    if |n| == 1 { assert n == [n[0]]; }
    ShiftGrows(1, Digit(n[0]), |n| - 1);
    NaturalBound(n[1..]);
  }

  lemma MinusOne()
    ensures Canonical("-1") && Value("-1") == -1 && Value("0") == 0
  {
    assert "-1"[1..] == "1" && "1"[1..] == "" && "0"[1..] == "";
  }

  function ParentDepth(depth: Depth): Depth {
    match depth case None => None case Some(d) => Some(Decremented(d))
  }

  // ---------------------------------------------------------------- stacks and their index

  function Top(s: seq<Entry>): Entry
    requires s != []
  {
    s[|s| - 1]
  }

  /** What is left of a stack when the spans that end by `start` have been popped. */
  function Live(s: seq<Entry>, start: real): (r: seq<Entry>)
    ensures r <= s
  {
    if s == [] || Top(s).end > start then s else Live(s[..|s| - 1], start)
  }

  /** Ends never grow towards the top, and each span sits on one of the depth above it. */
  ghost predicate Nests(s: seq<Entry>) {
    && (forall j, k :: 0 <= j < k < |s| ==> s[k].end <= s[j].end)
    && (forall k :: 0 < k < |s| ==> s[k - 1].depth == ParentDepth(s[k].depth))
  }

  ghost predicate AllNest(stacks: seq<seq<Entry>>) {
    forall l :: 0 <= l < |stacks| ==> Nests(stacks[l])
  }

  lemma {:induction false} LiveMeans(s: seq<Entry>, start: real)
    requires Nests(s)
    ensures Nests(Live(s, start))
    ensures forall e :: e in Live(s, start) <==> e in s && e.end > start
  {
    if s != [] && Top(s).end <= start {
      var n := |s| - 1;
      LiveMeans(s[..n], start);
      assert forall e :: e in s <==> e in s[..n] || e == s[n];
    }
  }

  /** `available` lists exactly the tops of the lanes that are in use, except of those in `but`. */
  ghost predicate Indexed(stacks: seq<seq<Entry>>, available: map<Depth, set<Mark>>, but: set<nat>) {
    && (forall d :: d in available ==> available[d] != {})
    && (forall d, m :: d in available && m in available[d] ==>
          m.lane < |stacks| && m.lane !in but && stacks[m.lane] != [] && Top(stacks[m.lane]) == Entry(m.end, d))
    && (forall l :: 0 <= l < |stacks| && l !in but && stacks[l] != [] ==>
          Top(stacks[l]).depth in available && Mark(Top(stacks[l]).end, l) in available[Top(stacks[l]).depth])
  }

  /** The heap of end times knows every open span. */
  ghost predicate Scheduled(stacks: seq<seq<Entry>>, ends: seq<Mark>) {
    forall l, e :: 0 <= l < |stacks| && e in stacks[l] ==> Mark(e.end, l) in ends
  }

  /** ... and nothing else, apart from spans that have ended. */
  ghost predicate Justified(stacks: seq<seq<Entry>>, ends: seq<Mark>, start: Option<real>) {
    forall m :: m in ends ==>
      m.lane < |stacks| && ((start.Some? && m.end <= start.value) || exists e :: e in stacks[m.lane] && e.end == m.end)
  }

  ghost predicate Sorted(ends: seq<Mark>) {
    forall i, j :: 0 <= i < j < |ends| ==> ends[i].end <= ends[j].end
  }

  /** Pushing on the heap, kept as an ascending list. */
  function Scheduling(ends: seq<Mark>, m: Mark): (r: seq<Mark>)
    ensures multiset(r) == multiset(ends) + multiset{m}
    ensures forall x :: x in r <==> x in ends || x == m
  {
    if ends == [] then [m]
    else if m.end < ends[0].end || (m.end == ends[0].end && m.lane < ends[0].lane) then [m] + ends
    else
      assert ends == [ends[0]] + ends[1..];
      [ends[0]] + Scheduling(ends[1..], m)
  }

  lemma {:induction false} SchedulingSorts(ends: seq<Mark>, m: Mark)
    requires Sorted(ends)
    ensures Sorted(Scheduling(ends, m))
  {
    hide Sorted;
    SortedParts(ends);
    if ends == [] {
      SortedCons(m, []);
      assert [m] + [] == [m];
    } else if m.end < ends[0].end || (m.end == ends[0].end && m.lane < ends[0].lane) {
      SortedCons(m, ends);
    } else {
      SchedulingSorts(ends[1..], m);
      SortedCons(ends[0], Scheduling(ends[1..], m));
    }
  }

  lemma SortedCons(m: Mark, rest: seq<Mark>)
    requires Sorted(rest) && forall x :: x in rest ==> m.end <= x.end
    ensures Sorted([m] + rest)
  {
  }

  lemma SortedParts(ends: seq<Mark>)
    requires Sorted(ends)
    ensures ends != [] ==> Sorted(ends[1..])
    ensures forall x :: x in ends ==> ends[0].end <= x.end
    ensures Sorted([])
  {
  }

  function Idle(stacks: seq<seq<Entry>>): set<nat> { set l: nat | l < |stacks| && stacks[l] == [] }

  /** `remove_top` on the index. */
  function Unlisted(available: map<Depth, set<Mark>>, top: Entry, lane: nat): map<Depth, set<Mark>>
    requires top.depth in available
  {
    var left := available[top.depth] - {Mark(top.end, lane)};
    if left == {} then available - {top.depth} else available[top.depth := left]
  }

  /** `add_top` on the index. */
  function Relisted(available: map<Depth, set<Mark>>, top: Entry, lane: nat): map<Depth, set<Mark>> {
    available[top.depth := (if top.depth in available then available[top.depth] else {}) + {Mark(top.end, lane)}]
  }

  lemma UnlistedIndexes(stacks: seq<seq<Entry>>, available: map<Depth, set<Mark>>, lane: nat)
    requires Indexed(stacks, available, {}) && lane < |stacks| && stacks[lane] != []
    ensures Top(stacks[lane]).depth in available
    ensures Indexed(stacks, Unlisted(available, Top(stacks[lane]), lane), {lane})
  {
    var top := Top(stacks[lane]);
    var after := Unlisted(available, top, lane);
    forall l | 0 <= l < |stacks| && l != lane && stacks[l] != []
      ensures Top(stacks[l]).depth in after && Mark(Top(stacks[l]).end, l) in after[Top(stacks[l]).depth]
    {
      var m := Mark(Top(stacks[l]).end, l);
      assert m in available[Top(stacks[l]).depth];
      if Top(stacks[l]).depth == top.depth { assert m in available[top.depth] - {Mark(top.end, lane)}; }
    }
  }

  lemma RelistedIndexes(stacks: seq<seq<Entry>>, available: map<Depth, set<Mark>>, lane: nat)
    requires Indexed(stacks, available, {lane}) && lane < |stacks| && stacks[lane] != []
    ensures Indexed(stacks, Relisted(available, Top(stacks[lane]), lane), {})
  {
  }

  lemma ChangedBut(stacks: seq<seq<Entry>>, available: map<Depth, set<Mark>>, lane: nat, s: seq<Entry>)
    requires Indexed(stacks, available, {lane}) && lane < |stacks|
    ensures Indexed(stacks[lane := s], available, {lane})
    ensures s == [] ==> Indexed(stacks[lane := s], available, {})
  {
  }

  lemma IdleChanges(stacks: seq<seq<Entry>>, lane: nat, s: seq<Entry>)
    requires lane < |stacks| && stacks[lane] != []
    ensures Idle(stacks[lane := s]) == if s == [] then Idle(stacks) + {lane} else Idle(stacks)
  {
  }

  lemma JustifiedLater(stacks: seq<seq<Entry>>, ends: seq<Mark>, start: real)
    requires Justified(stacks, ends, None)
    ensures Justified(stacks, ends, Some(start))
  {
  }

  /** Taking the next end off the heap and popping that lane keeps the heap right. */
  lemma EndPopped(stacks: seq<seq<Entry>>, ends: seq<Mark>, start: real)
    requires ends != [] && ends[0].end <= start
    requires AllNest(stacks) && Sorted(ends) && Scheduled(stacks, ends) && Justified(stacks, ends, Some(start))
    ensures ends[0].lane < |stacks|
    ensures var lane := ends[0].lane; var live := Live(stacks[lane], start); var after := stacks[lane := live];
      && AllNest(after) && Sorted(ends[1..]) && Scheduled(after, ends[1..]) && Justified(after, ends[1..], Some(start))
      && Live(live, start) == live
      && (stacks[lane] == [] || Top(stacks[lane]).end > start ==> live == stacks[lane])
  {
    hide Live, Nests, Sorted, Scheduled, Justified;
    SortedParts(ends);
    assert ends[0].lane < |stacks| by { HeadHasLane(stacks, ends, start); }
    LiveMeans(stacks[ends[0].lane], start);
    LiveTwice(stacks[ends[0].lane], start);
    HeadDropped(stacks, ends, start, Live(stacks[ends[0].lane], start));
  }

  lemma HeadHasLane(stacks: seq<seq<Entry>>, ends: seq<Mark>, start: real)
    requires ends != [] && Justified(stacks, ends, Some(start))
    ensures ends[0].lane < |stacks|
  {
    assert ends[0] in ends;
  }

  lemma HeadDropped(stacks: seq<seq<Entry>>, ends: seq<Mark>, start: real, live: seq<Entry>)
    requires ends != [] && ends[0].end <= start && ends[0].lane < |stacks|
    requires Scheduled(stacks, ends) && Justified(stacks, ends, Some(start))
    requires forall e :: e in live <==> e in stacks[ends[0].lane] && e.end > start
    ensures var after := stacks[ends[0].lane := live]; Scheduled(after, ends[1..]) && Justified(after, ends[1..], Some(start))
  {
    var after := stacks[ends[0].lane := live];
    assert ends == [ends[0]] + ends[1..];
    forall l: nat, e: Entry | l < |after| && e in after[l]
      ensures Mark(e.end, l) in ends[1..]
    {
      assert e in stacks[l];
      assert Mark(e.end, l) in ends;
    }
    forall m: Mark | m in ends[1..] && m.end > start
      ensures m.lane < |after| && exists e: Entry :: e in after[m.lane] && e.end == m.end
    {
      assert m in ends;
      var e :| e in stacks[m.lane] && e.end == m.end;
      assert e in after[m.lane];
    }
  }

  lemma {:induction false} LiveTwice(s: seq<Entry>, start: real)
    ensures Live(Live(s, start), start) == Live(s, start)
    ensures s == [] || Top(s).end > start ==> Live(s, start) == s
  {
    if s != [] && Top(s).end <= start { LiveTwice(s[..|s| - 1], start); }
  }

  lemma AllExpired(stacks: seq<seq<Entry>>, ends: seq<Mark>, start: real)
    requires AllNest(stacks) && Sorted(ends) && Scheduled(stacks, ends) && Justified(stacks, ends, Some(start))
    requires ends == [] || ends[0].end > start
    ensures Justified(stacks, ends, None)
    ensures forall l, e :: 0 <= l < |stacks| && e in stacks[l] ==> e.end > start
    ensures forall l :: 0 <= l < |stacks| ==> Live(stacks[l], start) == stacks[l]
  {
    hide Nests;
    assert forall m :: m in ends ==> m.end >= ends[0].end;
    forall l | 0 <= l < |stacks|
      ensures Live(stacks[l], start) == stacks[l]
      ensures forall e :: e in stacks[l] ==> e.end > start
    {
      LiveTwice(stacks[l], start);
      forall e | e in stacks[l]
        ensures e.end > start
      {
        assert Mark(e.end, l) in ends;
      }
      if stacks[l] != [] { assert Top(stacks[l]) in stacks[l]; }
    }
  }

  // ---------------------------------------------------------------- which lane a span gets

  /** The first of an index entry: the latest end, then the lowest lane. */
  predicate First(m: Mark, marks: set<Mark>) {
    m in marks && forall x :: x in marks ==> x.end < m.end || (x.end == m.end && m.lane <= x.lane)
  }

  lemma {:induction false} FirstExists(marks: set<Mark>) returns (m: Mark)
    requires marks != {}
    ensures First(m, marks)
  {
    var x :| x in marks;
    if marks == {x} {
      m := x;
    } else {
      var y := FirstExists(marks - {x});
      m := if y.end > x.end || (y.end == x.end && y.lane <= x.lane) then y else x;
    }
  }

  lemma {:induction false} LeastExists(lanes: set<nat>) returns (l: nat)
    requires lanes != {}
    ensures l in lanes && forall x :: x in lanes ==> l <= x
  {
    var x :| x in lanes;
    if lanes == {x} {
      l := x;
    } else {
      var y := LeastExists(lanes - {x});
      assert forall z :: z in lanes ==> z == x || z in lanes - {x};
      l := if y <= x then y else x;
    }
  }

  /** A lane whose top may be the parent: of the depth above, and the latest such end. */
  ghost predicate Parent(stacks: seq<seq<Entry>>, depth: Depth, l: nat) {
    && OfDepth(stacks, depth, l)
    && forall k: nat :: OfDepth(stacks, depth, k) ==>
         Top(stacks[k]).end < Top(stacks[l]).end || (Top(stacks[k]).end == Top(stacks[l]).end && l <= k)
  }

  ghost predicate OfDepth(stacks: seq<seq<Entry>>, depth: Depth, l: nat) {
    l < |stacks| && stacks[l] != [] && Top(stacks[l]).depth == ParentDepth(depth)
  }

  ghost predicate Encloses(stacks: seq<seq<Entry>>, end: real, depth: Depth, l: nat) {
    Parent(stacks, depth, l) && Top(stacks[l]).end >= end
  }

  ghost predicate Empty(stacks: seq<seq<Entry>>, l: nat) { l < |stacks| && stacks[l] == [] }

  /** The rule of choice: the lower of the first free lane and the parent's lane, or a new one. */
  ghost predicate Chosen(stacks: seq<seq<Entry>>, end: real, depth: Depth, lane: nat) {
    || (Empty(stacks, lane) && (forall l: nat :: Empty(stacks, l) ==> lane <= l)
        && forall l: nat :: Encloses(stacks, end, depth, l) ==> lane < l)
    || (Encloses(stacks, end, depth, lane) && forall l: nat :: Empty(stacks, l) ==> lane < l)
    || (lane == |stacks| && (forall l: nat :: !Empty(stacks, l)) && forall l: nat :: !Encloses(stacks, end, depth, l))
  }

  /** The best parent according to the index is the best parent. */
  lemma IndexedParent(stacks: seq<seq<Entry>>, available: map<Depth, set<Mark>>, depth: Depth)
    requires Indexed(stacks, available, {})
    ensures ParentDepth(depth) !in available ==> forall l: nat :: !OfDepth(stacks, depth, l)
    ensures ParentDepth(depth) in available ==>
      available[ParentDepth(depth)] != {}
      && forall m :: First(m, available[ParentDepth(depth)]) ==>
           Parent(stacks, depth, m.lane) && m.end == Top(stacks[m.lane]).end
  {
    var d := ParentDepth(depth);
    if d in available {
      forall m | First(m, available[d])
        ensures Parent(stacks, depth, m.lane) && m.end == Top(stacks[m.lane]).end
      {
        forall k: nat | OfDepth(stacks, depth, k)
          ensures Top(stacks[k]).end < m.end || (Top(stacks[k]).end == m.end && m.lane <= k)
        {
          assert Mark(Top(stacks[k]).end, k) in available[d];
        }
      }
    }
  }

  /** The stacks, with one more empty lane if it is not there yet. */
  function Opened(stacks: seq<seq<Entry>>, lane: nat): (r: seq<seq<Entry>>)
    requires lane <= |stacks|
    ensures lane < |r|
  {
    if lane < |stacks| then stacks else stacks + [[]]
  }

  function Seated(stacks: seq<seq<Entry>>, lane: nat, entry: Entry): seq<seq<Entry>>
    requires lane <= |stacks|
  {
    var all := Opened(stacks, lane);
    all[lane := all[lane] + [entry]]
  }

  lemma OpenedKeeps(stacks: seq<seq<Entry>>, available: map<Depth, set<Mark>>, ends: seq<Mark>, lane: nat)
    requires lane <= |stacks|
    requires AllNest(stacks) && Indexed(stacks, available, {}) && Scheduled(stacks, ends) && Justified(stacks, ends, None)
    ensures var all := Opened(stacks, lane);
      && AllNest(all) && Indexed(all, available, {}) && Scheduled(all, ends) && Justified(all, ends, None)
      && Idle(all) - {lane} == Idle(stacks) - {lane}
      && (all[lane] != [] ==> lane !in Idle(stacks))
      && (lane == |stacks| ==> all[lane] == [])
  {
    hide AllNest, Scheduled, Justified, Indexed, Idle;
    if lane == |stacks| {
      OpenedSchedules(stacks, ends);
      OpenedIndexed(stacks, available);
      OpenedNests(stacks);
    }
    OpenedIdle(stacks, lane);
  }

  lemma OpenedNests(stacks: seq<seq<Entry>>)
    requires AllNest(stacks)
    ensures AllNest(stacks + [[]])
  {
    hide Nests;
    assert Nests([]) by { EmptyNests(); }
  }

  lemma EmptyNests()
    ensures Nests([])
  {
  }

  lemma OpenedIndexed(stacks: seq<seq<Entry>>, available: map<Depth, set<Mark>>)
    requires Indexed(stacks, available, {})
    ensures Indexed(stacks + [[]], available, {})
  {
    var all := stacks + [[]];
    assert forall l :: 0 <= l < |stacks| ==> all[l] == stacks[l];
    assert all[|stacks|] == [];
  }

  lemma OpenedIdle(stacks: seq<seq<Entry>>, lane: nat)
    requires lane <= |stacks|
    ensures var all := Opened(stacks, lane);
      Idle(all) - {lane} == Idle(stacks) - {lane} && (all[lane] != [] ==> lane !in Idle(stacks))
  {
    if lane == |stacks| {
      var all := stacks + [[]];
      assert forall l :: 0 <= l < |stacks| ==> all[l] == stacks[l];
    }
  }

  lemma OpenedSchedules(stacks: seq<seq<Entry>>, ends: seq<Mark>)
    requires Scheduled(stacks, ends) && Justified(stacks, ends, None)
    ensures Scheduled(stacks + [[]], ends) && Justified(stacks + [[]], ends, None)
  {
    var all := stacks + [[]];
    forall m | m in ends
      ensures m.lane < |all| && exists e: Entry :: e in all[m.lane] && e.end == m.end
    {
      var e :| e in stacks[m.lane] && e.end == m.end;
      assert e in all[m.lane];
    }
  }

  lemma SeatedIs(stacks: seq<seq<Entry>>, lane: nat, entry: Entry)
    requires lane <= |stacks|
    ensures Seated(stacks, lane, entry) == Opened(stacks, lane)[lane := Opened(stacks, lane)[lane] + [entry]]
  {
  }

  lemma SeatedNests(stacks: seq<seq<Entry>>, lane: nat, entry: Entry)
    requires AllNest(stacks) && lane < |stacks|
    requires stacks[lane] != [] ==>
      Top(stacks[lane]).end >= entry.end && Top(stacks[lane]).depth == ParentDepth(entry.depth)
    ensures AllNest(stacks[lane := stacks[lane] + [entry]])
  {
    hide ParentDepth;
    var s := stacks[lane];
    assert Nests(s);
    assert Nests(s + [entry]);
  }

  lemma SeatedSchedules(stacks: seq<seq<Entry>>, ends: seq<Mark>, lane: nat, entry: Entry)
    requires Scheduled(stacks, ends) && Justified(stacks, ends, None) && lane < |stacks|
    ensures var after, marks := stacks[lane := stacks[lane] + [entry]], Scheduling(ends, Mark(entry.end, lane));
      Scheduled(after, marks) && Justified(after, marks, None)
  {
    hide Scheduling;
    var after, marks := stacks[lane := stacks[lane] + [entry]], Scheduling(ends, Mark(entry.end, lane));
    forall m | m in marks
      ensures m.lane < |after| && exists e: Entry :: e in after[m.lane] && e.end == m.end
    {
      if m == Mark(entry.end, lane) {
        assert entry in after[lane];
      } else {
        var e :| e in stacks[m.lane] && e.end == m.end;
        assert e in after[m.lane];
      }
    }
  }

  lemma SeatedIdle(stacks: seq<seq<Entry>>, lane: nat, entry: Entry)
    requires lane < |stacks|
    ensures Idle(stacks[lane := stacks[lane] + [entry]]) == Idle(stacks) - {lane}
  {
  }

  lemma EmptyUnlisted(stacks: seq<seq<Entry>>, available: map<Depth, set<Mark>>, lane: nat)
    requires Indexed(stacks, available, {}) && lane < |stacks| && stacks[lane] == []
    ensures Indexed(stacks, available, {lane})
  {
  }

  function LiveAll(stacks: seq<seq<Entry>>, start: real): seq<seq<Entry>> {
    seq(|stacks|, l requires 0 <= l < |stacks| => Live(stacks[l], start))
  }

  // ---------------------------------------------------------------- the spans placed so far

  ghost predicate InOrder(placed: seq<Placed>) {
    forall i, j :: 0 <= i < j < |placed| ==> placed[i].start <= placed[j].start
  }

  /** Every span is in its lane's stack until it has ended; every stacked span was placed. */
  ghost predicate Chronicled(stacks: seq<seq<Entry>>, placed: seq<Placed>, clock: real) {
    && (forall p :: p in placed ==>
          p.lane < |stacks| && p.start <= clock && (p.end <= clock || Entry(p.end, p.depth) in stacks[p.lane]))
    && (forall l: nat, e :: l < |stacks| && e in stacks[l] ==> Stems(placed, l, e))
  }

  ghost predicate Stems(placed: seq<Placed>, lane: nat, e: Entry) {
    exists p :: p in placed && p.lane == lane && p.end == e.end && p.depth == e.depth
  }

  ghost predicate Clocked(placed: seq<Placed>, clock: real) {
    InOrder(placed) && placed != [] ==> clock == placed[|placed| - 1].start
  }

  /** Spans of one lane nest or follow one another; each sits on the span of the depth above. */
  ghost predicate Packed(placed: seq<Placed>, lanes: nat) {
    && (forall j :: 0 <= j < |placed| ==> Sits(placed[..j], placed[j]))
    && lanes <= Peak(placed)
  }

  ghost predicate Sits(earlier: seq<Placed>, p: Placed) {
    || (forall q :: q in earlier && q.lane == p.lane ==> q.end <= p.start)
    || exists q :: q in earlier && SitsOn(earlier, p, q)
  }

  ghost predicate SitsOn(earlier: seq<Placed>, p: Placed, q: Placed) {
    && q.lane == p.lane && q.end > p.start && q.end >= p.end && q.depth == ParentDepth(p.depth)
    && forall o :: o in earlier && o.lane == p.lane && o.end > p.start ==> q.end <= o.end
  }

  /** Two spans of one lane are disjoint, or the later one lies within the earlier one. */
  lemma DisjointOrNested(placed: seq<Placed>, lanes: nat, i: nat, j: nat)
    requires InOrder(placed) && Packed(placed, lanes) && i < j < |placed| && placed[i].lane == placed[j].lane
    ensures placed[i].end <= placed[j].start || (placed[i].start <= placed[j].start && placed[j].end <= placed[i].end)
  {
    var earlier := placed[..j];
    assert Sits(earlier, placed[j]);
    assert earlier[i] == placed[i];
    if placed[i].end > placed[j].start {
      var q :| q in earlier && SitsOn(earlier, placed[j], q);
      assert q.end <= placed[i].end;
    }
  }

  /** A span of known depth sits on a span of depth one less, one of unknown depth on another such. */
  lemma SitsOneDeeper(earlier: seq<Placed>, p: Placed, q: Placed)
    requires SitsOn(earlier, p, q)
    requires p.depth.Some? ==> Canonical(p.depth.value) && !Negative(p.depth.value)
    ensures p.depth.None? ==> q.depth.None?
    ensures p.depth.Some? ==>
      q.depth.Some? && Canonical(q.depth.value) && Value(q.depth.value) == Value(p.depth.value) - 1
  {
    if p.depth.Some? { DecrementExact(p.depth.value); }
  }

  /** The indices of the spans still open at a time. */
  function OpenAt(placed: seq<Placed>, time: real): set<nat> {
    set i: nat | i < |placed| && placed[i].end > time
  }

  /** The largest number of spans open at once when a span was placed, that span included. */
  function Peak(placed: seq<Placed>): nat {
    if placed == [] then 0
    else
      var before, p := placed[..|placed| - 1], placed[|placed| - 1];
      if |OpenAt(before, p.start)| + 1 > Peak(before) then |OpenAt(before, p.start)| + 1 else Peak(before)
  }

  lemma Choice(stacks: seq<seq<Entry>>, free: set<nat>, parent: Option<nat>, end: real, depth: Depth, lane: nat)
    requires free == Idle(stacks)
    requires parent.Some? ==> Encloses(stacks, end, depth, parent.value)
    requires forall l: nat :: Encloses(stacks, end, depth, l) ==> parent == Some(l)
    requires
      || (lane in free && (forall l :: l in free ==> lane <= l) && (parent.Some? ==> lane < parent.value))
      || (parent == Some(lane) && forall l :: l in free ==> lane <= l)
      || (free == {} && parent.None? && lane == |stacks|)
    ensures Chosen(stacks, end, depth, lane) && lane <= |stacks|
    ensures lane < |stacks| && stacks[lane] != [] ==>
      Top(stacks[lane]).end >= end && Top(stacks[lane]).depth == ParentDepth(depth)
  {
    hide Parent, ParentDepth;
    if parent.Some? { EnclosingTop(stacks, end, depth, parent.value); }
    assert forall l: nat :: Empty(stacks, l) <==> l in free;
  }

  lemma EnclosingTop(stacks: seq<seq<Entry>>, end: real, depth: Depth, lane: nat)
    requires Encloses(stacks, end, depth, lane)
    ensures lane < |stacks| && stacks[lane] != []
    ensures Top(stacks[lane]).end >= end && Top(stacks[lane]).depth == ParentDepth(depth)
  {
  }

  lemma ExpiredChronicle(stacks: seq<seq<Entry>>, placed: seq<Placed>, clock: real, start: real, now: real)
    requires AllNest(stacks) && Chronicled(stacks, placed, clock)
    requires now >= start && (placed != [] ==> now >= clock)
    ensures Chronicled(LiveAll(stacks, start), placed, now)
  {
    hide Live, Nests;
    var live := LiveAll(stacks, start);
    forall l | 0 <= l < |stacks|
      ensures forall e :: e in live[l] <==> e in stacks[l] && e.end > start
    {
      LiveMeans(stacks[l], start);
    }
  }

  lemma SeatedChronicle(stacks: seq<seq<Entry>>, placed: seq<Placed>, clock: real, p: Placed)
    requires Chronicled(stacks, placed, clock) && p.start <= clock && p.lane <= |stacks|
    ensures Chronicled(Seated(stacks, p.lane, Entry(p.end, p.depth)), placed + [p], clock)
  {
    var after, all := Seated(stacks, p.lane, Entry(p.end, p.depth)), placed + [p];
    forall l: nat, e: Entry | l < |after| && e in after[l]
      ensures Stems(all, l, e)
    {
      if l < |stacks| && e in stacks[l] {
        assert Stems(placed, l, e);
        var q :| q in placed && q.lane == l && q.end == e.end && q.depth == e.depth;
        assert q in all;
      } else {
        assert p in all;
      }
    }
  }

  /** In start order, the chosen lane lets the span nest or follow. */
  lemma SitsNow(stacks: seq<seq<Entry>>, placed: seq<Placed>, p: Placed)
    requires AllNest(stacks) && Chronicled(stacks, placed, p.start) && p.lane <= |stacks|
    requires p.lane < |stacks| && stacks[p.lane] != [] ==>
      Top(stacks[p.lane]).end >= p.end && Top(stacks[p.lane]).depth == ParentDepth(p.depth)
    requires forall l, e :: 0 <= l < |stacks| && e in stacks[l] ==> e.end > p.start
    ensures Sits(placed, p)
  {
    hide ParentDepth;
    if p.lane < |stacks| && stacks[p.lane] != [] {
      var s := stacks[p.lane];
      var top := Top(s);
      assert top in s;
      assert Stems(placed, p.lane, top);
      var q :| q in placed && q.lane == p.lane && q.end == top.end && q.depth == top.depth;
      assert Nests(s);
      forall o | o in placed && o.lane == p.lane && o.end > p.start
        ensures q.end <= o.end
      {
        assert Entry(o.end, o.depth) in s;
      }
      assert SitsOn(placed, p, q);
    }
  }

  ghost predicate Holds(placed: seq<Placed>, spans: set<nat>, lane: nat) {
    exists i :: i in spans && i < |placed| && placed[i].lane == lane
  }

  /** If every lane holds an open span, there are at least as many open spans as lanes. */
  lemma {:induction false} LanesCovered(placed: seq<Placed>, spans: set<nat>, lanes: nat)
    requires forall i :: i in spans ==> i < |placed|
    requires forall l: nat :: l < lanes ==> Holds(placed, spans, l)
    ensures lanes <= |spans|
  {
    if lanes > 0 {
      assert Holds(placed, spans, lanes - 1);
      var i :| i in spans && i < |placed| && placed[i].lane == lanes - 1;
      var own := set k | k in spans && placed[k].lane == lanes - 1;
      forall l: nat | l < lanes - 1
        ensures Holds(placed, spans - own, l)
      {
        assert Holds(placed, spans, l);
        var k :| k in spans && k < |placed| && placed[k].lane == l;
        assert k in spans - own;
      }
      LanesCovered(placed, spans - own, lanes - 1);
      assert i in own && spans == (spans - own) + own;
      assert |spans| == |spans - own| + |own|;
      assert own != {};
    }
  }

  lemma NewLaneNeeded(stacks: seq<seq<Entry>>, placed: seq<Placed>, clock: real, start: real)
    requires Chronicled(stacks, placed, clock)
    requires forall l: nat :: !Empty(stacks, l)
    requires forall l, e :: 0 <= l < |stacks| && e in stacks[l] ==> e.end > start
    ensures |stacks| <= |OpenAt(placed, start)|
  {
    var spans := OpenAt(placed, start);
    forall l: nat | l < |stacks|
      ensures Holds(placed, spans, l)
    {
      assert !Empty(stacks, l);
      assert Top(stacks[l]) in stacks[l];
      assert Stems(placed, l, Top(stacks[l]));
      var p :| p in placed && p.lane == l && p.end == Top(stacks[l]).end && p.depth == Top(stacks[l]).depth;
      var i :| 0 <= i < |placed| && placed[i] == p;
      assert i in spans;
    }
    LanesCovered(placed, spans, |stacks|);
  }

  /** Every lane below holds a span that is still open. */
  ghost predicate Lowest(earlier: seq<Placed>, p: Placed) {
    forall l: nat :: l < p.lane ==> OpenIn(earlier, l, p.start)
  }

  ghost predicate OpenIn(placed: seq<Placed>, lane: nat, time: real) {
    exists q :: q in placed && q.lane == lane && q.end > time
  }

  lemma LowestLane(stacks: seq<seq<Entry>>, placed: seq<Placed>, clock: real, p: Placed)
    requires Chronicled(stacks, placed, clock)
    requires Chosen(stacks, p.end, p.depth, p.lane) && p.lane <= |stacks|
    requires forall l, e :: 0 <= l < |stacks| && e in stacks[l] ==> e.end > p.start
    ensures Lowest(placed, p)
  {
    hide Encloses;
    forall l: nat | l < p.lane
      ensures OpenIn(placed, l, p.start)
    {
      assert !Empty(stacks, l);
      assert Top(stacks[l]) in stacks[l];
      assert Stems(placed, l, Top(stacks[l]));
    }
  }

  lemma PackedPush(placed: seq<Placed>, lanes: nat, p: Placed, grown: nat)
    requires Packed(placed, lanes) && Sits(placed, p)
    requires grown <= lanes || grown <= |OpenAt(placed, p.start)| + 1
    ensures Packed(placed + [p], grown)
  {
    hide Sits, OpenAt;
    var all := placed + [p];
    assert all[..|placed|] == placed;
    forall j | 0 <= j < |all|
      ensures Sits(all[..j], all[j])
    {
      if j < |placed| { assert all[..j] == placed[..j]; }
    }
  }

  /** Placing one more span in the chosen lane keeps the history in order. */
  lemma PlacedNext(stacks: seq<seq<Entry>>, placed: seq<Placed>, clock: real, now: real,
                   start: real, end: real, depth: Depth, lane: nat)
    requires AllNest(stacks) && Chronicled(stacks, placed, now) && Clocked(placed, clock)
    requires now == if placed == [] || start > clock then start else clock
    requires InOrder(placed) ==> Packed(placed, |stacks|)
    requires Chosen(stacks, end, depth, lane) && lane <= |stacks|
    requires lane < |stacks| && stacks[lane] != [] ==>
      Top(stacks[lane]).end >= end && Top(stacks[lane]).depth == ParentDepth(depth)
    requires forall l, e :: 0 <= l < |stacks| && e in stacks[l] ==> e.end > start
    ensures var p := Placed(start, end, depth, lane); var after := Seated(stacks, lane, Entry(end, depth));
      && Chronicled(after, placed + [p], now) && Clocked(placed + [p], now)
      && (InOrder(placed + [p]) ==> Packed(placed + [p], |after|))
  {
    hide AllNest, Chronicled, Packed, ParentDepth, Encloses, OpenAt;
    var p := Placed(start, end, depth, lane);
    SeatedChronicle(stacks, placed, now, p);
    if InOrder(placed + [p]) {
      var all := placed + [p];
      assert all[|placed|] == p && forall i :: 0 <= i < |placed| ==> all[i] == placed[i];
      assert now == start;
      SitsNow(stacks, placed, p);
      if lane == |stacks| { NewLaneNeeded(stacks, placed, now, start); }
      PackedPush(placed, |stacks|, p, if lane == |stacks| then |stacks| + 1 else |stacks|);
    }
  }

  class LanePool {
    const maxEnd: real
    var stacks: seq<seq<Entry>>
    var ends: seq<Mark>
    var free: set<nat>
    var available: map<Depth, set<Mark>>

    ghost predicate Consistent()
      reads this`stacks, this`ends, this`free, this`available
    {
      && AllNest(stacks) && Indexed(stacks, available, {}) && free == Idle(stacks)
      && Sorted(ends) && Scheduled(stacks, ends) && Justified(stacks, ends, None)
    }

    method RemoveTop(lane: nat)
      requires Indexed(stacks, available, {}) && lane < |stacks| && stacks[lane] != []
      modifies this`available
      ensures Indexed(stacks, available, {lane})
    {
      UnlistedIndexes(stacks, available, lane);
      available := Unlisted(available, Top(stacks[lane]), lane);
    }

    method AddTop(lane: nat)
      requires Indexed(stacks, available, {lane}) && lane < |stacks| && stacks[lane] != []
      modifies this`available
      ensures Indexed(stacks, available, {})
    {
      RelistedIndexes(stacks, available, lane);
      available := Relisted(available, Top(stacks[lane]), lane);
    }

    /** One lane whose top has ended: pop what has ended, free the lane or list its new top. */
    method Retire(lane: nat, start: real)
      requires Indexed(stacks, available, {}) && free == Idle(stacks) && lane < |stacks| && stacks[lane] != []
      modifies this`stacks, this`free, this`available
      ensures stacks == old(stacks)[lane := Live(old(stacks)[lane], start)]
      ensures Indexed(stacks, available, {}) && free == Idle(stacks)
    {
      hide Indexed;
      RemoveTop(lane);
      ghost var before := stacks;
      while stacks[lane] != [] && Top(stacks[lane]).end <= start
        invariant |stacks| == |before| && stacks == before[lane := stacks[lane]]
        invariant Live(stacks[lane], start) == Live(before[lane], start)
        modifies this`stacks
        decreases |stacks[lane]|
      {
        stacks := stacks[lane := stacks[lane][..|stacks[lane]| - 1]];
      }
      ChangedBut(before, available, lane, stacks[lane]);
      IdleChanges(before, lane, stacks[lane]);
      if stacks[lane] == [] {
        free := free + {lane};
      } else {
        AddTop(lane);
      }
    }

    /** The lanes of every span that has ended by `start` are given back. */
    method Expire(start: real)
      requires Consistent()
      modifies this`stacks, this`ends, this`free, this`available
      ensures Consistent()
      ensures |stacks| == |old(stacks)| && forall l :: 0 <= l < |stacks| ==> stacks[l] == Live(old(stacks)[l], start)
      ensures forall l, e :: 0 <= l < |stacks| && e in stacks[l] ==> e.end > start
    {
      hide Indexed, AllNest, Sorted, Scheduled, Justified, Idle, Live;
      ghost var before := stacks;
      JustifiedLater(stacks, ends, start);
      while ends != [] && ends[0].end <= start
        invariant |stacks| == |before| && AllNest(stacks) && Indexed(stacks, available, {}) && free == Idle(stacks)
        invariant Sorted(ends) && Scheduled(stacks, ends) && Justified(stacks, ends, Some(start))
        invariant forall l :: 0 <= l < |stacks| ==> Live(stacks[l], start) == Live(before[l], start)
        decreases |ends|
      {
        var lane := ends[0].lane;
        EndPopped(stacks, ends, start);
        ends := ends[1..];
        if stacks[lane] == [] || Top(stacks[lane]).end > start {
          assert stacks[lane := stacks[lane]] == stacks;
          continue;
        }
        Retire(lane, start);
      }
      AllExpired(stacks, ends, start);
    }

    /** The lane a span may be nested in, if any. */
    method ParentLane(end: real, depth: Depth) returns (parent: Option<nat>)
      requires Consistent()
      ensures parent.Some? ==> Encloses(stacks, end, depth, parent.value)
      ensures forall l: nat :: Encloses(stacks, end, depth, l) ==> parent == Some(l)
    {
      hide AllNest, Sorted, Scheduled, Justified, First, Indexed;
      var up: Depth := None;
      if depth.Some? {
        var less := Decrement(depth.value);
        up := Some(less);
      }
      IndexedParent(stacks, available, depth);
      if up in available {
        ghost var some := FirstExists(available[up]);
        var m :| m in available[up] && First(m, available[up]);
        if m.end >= end { return Some(m.lane); }
      }
      return None;
    }

    /** Put a span on top of a lane that is free, encloses it, or is new. */
    method Seat(lane: nat, entry: Entry)
      requires Consistent() && lane <= |stacks|
      requires lane < |stacks| && stacks[lane] != [] ==>
        Top(stacks[lane]).end >= entry.end && Top(stacks[lane]).depth == ParentDepth(entry.depth)
      modifies this`stacks, this`ends, this`free, this`available
      ensures Consistent()
      ensures stacks == Seated(old(stacks), lane, entry)
    {
      hide AllNest, Sorted, Scheduled, Justified, Indexed, Idle, Seated, Scheduling;
      ghost var before, was := stacks, ends;
      OpenedKeeps(stacks, available, ends, lane);
      if lane == |stacks| { stacks := stacks + [[]]; }
      ghost var all := stacks;
      SeatedNests(all, lane, entry);
      SeatedSchedules(all, ends, lane, entry);
      SeatedIdle(all, lane, entry);
      SchedulingSorts(ends, Mark(entry.end, lane));
      if stacks[lane] == [] {
        EmptyUnlisted(all, available, lane);
        free := free - {lane};
      } else {
        RemoveTop(lane);
        assert free == free - {lane};
      }
      ChangedBut(all, available, lane, all[lane] + [entry]);
      stacks := stacks[lane := stacks[lane] + [entry]];
      AddTop(lane);
      ends := Scheduling(ends, Mark(entry.end, lane));
      SeatedIs(before, lane, entry);
    }

    // ------------------------------------------------------------ placing a span

    ghost var placed: seq<Placed>
    ghost var clock: real

    ghost predicate Valid()
      reads this
    {
      Consistent() && Chronicled(stacks, placed, clock) && Clocked(placed, clock) && (InOrder(placed) ==> Packed(placed, |stacks|))
    }

    constructor (maxEnd: real)
      ensures Valid() && stacks == [] && placed == [] && this.maxEnd == maxEnd
    {
      this.maxEnd := maxEnd;
      stacks, ends, free, available, placed, clock := [], [], {}, map[], [], 0.0;
    }

    /** `place_inner`: the lane of a span, or an error when its end is out of range. */
    method Place(start: real, duration: real, depth: Depth) returns (r: Result<nat, string>)
      requires Valid()
      modifies this
      ensures Valid()
      ensures r.Err? <==> !(-maxEnd <= start + duration * 1000.0 <= maxEnd)
      ensures r.Err? ==> stacks == old(stacks) && placed == old(placed)
      ensures r.Ok? ==>
        var end := start + duration * 1000.0; var live := LiveAll(old(stacks), start);
        && Chosen(live, end, depth, r.value) && r.value <= |live|
        && stacks == Seated(live, r.value, Entry(end, depth))
        && placed == old(placed) + [Placed(start, end, depth, r.value)]
        && Lowest(old(placed), Placed(start, end, depth, r.value))
    {
      hide AllNest, Sorted, Scheduled, Justified, Indexed, Chronicled, Clocked, Packed, InOrder, Live, Seated, Chosen, Idle, Lowest;
      var end := start + duration * 1000.0;
      if !(-maxEnd <= end <= maxEnd) {
        return Err("selected span timestamps exceed finite trace range");
      }
      ghost var before := stacks;
      Expire(start);
      ghost var live := stacks;
      assert live == LiveAll(before, start);
      var parent := ParentLane(end, depth);
      var lane := |stacks|;
      if free != {} {
        ghost var some := LeastExists(free);
        var first :| first in free && forall x :: x in free ==> first <= x;
        if parent.None? || first < parent.value { lane := first; } else { lane := parent.value; }
      } else if parent.Some? {
        lane := parent.value;
      }
      Choice(live, free, parent, end, depth, lane);
      ghost var now := if placed == [] || start > clock then start else clock;
      ExpiredChronicle(before, placed, clock, start, now);
      PlacedNext(live, placed, clock, now, start, end, depth, lane);
      LowestLane(live, placed, now, Placed(start, end, depth, lane));
      Seat(lane, Entry(end, depth));
      placed := placed + [Placed(start, end, depth, lane)];
      clock := now;
      r := Ok(lane);
    }
  }
}
