/** Delivery of commit notifications: a queue drained by whichever thread owns it, recursively
    from within its own callbacks. */
module CommitQueue {
  import opened Results

  /** A queued row; tickets number the rows in the order they were enqueued. */
  datatype Row<T> = Row(item: T, ticket: nat)

  /** The shared state: what waits, who delivers, how many callbacks it is inside of, which
      tickets are done. */
  datatype State<T> = State(rows: seq<Row<T>>, owner: Option<nat>, depth: nat, next: nat, done: set<nat>)

  datatype Polled<T> = Return | Take(row: Row<T>) | Wait

  function Numbered<T>(items: seq<T>, first: nat): (rows: seq<Row<T>>)
    ensures |rows| == |items| && forall i :: 0 <= i < |rows| ==> rows[i] == Row(items[i], first + i)
  {
    seq(|items|, i requires 0 <= i < |items| => Row(items[i], first + i))
  }

  function Enqueued<T>(s: State<T>, items: seq<T>): State<T> {
    s.(rows := s.rows + Numbered(items, s.next), next := s.next + |items|)
  }

  predicate MayTake<T>(s: State<T>, thread: nat) { s.owner == None || s.owner == Some(thread) }

  /** What a drain waits for: its ticket, or inside a callback the tail of the queue on entry. */
  function Captured<T>(s: State<T>, thread: nat, target: Option<nat>): Option<nat> {
    if target.Some? then target
    else if s.owner == Some(thread) && s.rows != [] then Some(s.rows[|s.rows| - 1].ticket) else None
  }

  function Poll<T>(s: State<T>, thread: nat, target: Option<nat>): Polled<T> {
    if target.Some? && target.value in s.done then Return
    else if target.None? && s.rows == [] && MayTake(s, thread) then Return
    else if s.rows != [] && MayTake(s, thread) then Take(s.rows[0])
    else Wait
  }

  function Taken<T>(s: State<T>, thread: nat): State<T>
    requires s.rows != []
  {
    s.(rows := s.rows[1..], owner := Some(thread), depth := s.depth + 1)
  }

  function Finished<T>(s: State<T>, ticket: nat): State<T>
    requires s.depth > 0
  {
    s.(done := s.done + {ticket}, depth := s.depth - 1, owner := if s.depth == 1 then None else s.owner)
  }

  /** The queue itself; each method is one critical section. */
  class Queue<T> {
    var rows: seq<Row<T>>
    var owner: Option<nat>
    var depth: nat
    var next: nat
    var done: set<nat>

    function Current(): State<T>
      reads this
    {
      State(rows, owner, depth, next, done)
    }

    constructor ()
      ensures Current() == State([], None, 0, 0, {})
    {
      rows, owner, depth, next, done := [], None, 0, 0, {};
    }

    method Enqueue(items: seq<T>) returns (ticket: Option<nat>)
      modifies this
      ensures Current() == Enqueued(old(Current()), items)
      ensures ticket == if items == [] then None else Some(old(next) + |items| - 1)
    {
      if items == [] {
        assert rows + Numbered(items, next) == rows;
        return None;
      }
      ghost var before := rows;
      var i := 0;
      while i < |items|
        invariant 0 <= i <= |items| && next == old(next) + i
        invariant rows == before + Numbered(items, old(next))[..i]
        invariant owner == old(owner) && depth == old(depth) && done == old(done)
      {
        rows, next := rows + [Row(items[i], next)], next + 1;
        i := i + 1;
      }
      ticket := Some(next - 1);
    }

    /** One pass of the polling loop; waiting leaves everything as it was. */
    method TakeNext(thread: nat, target: Option<nat>) returns (p: Polled<T>)
      modifies this
      ensures p == Poll(old(Current()), thread, target)
      ensures Current() == if p.Take? then Taken(old(Current()), thread) else old(Current())
    {
      if target.Some? && target.value in done { return Return; }
      if target.None? && rows == [] && (owner == None || owner == Some(thread)) { return Return; }
      if rows != [] && (owner == None || owner == Some(thread)) {
        owner, depth := Some(thread), depth + 1;
        p := Take(rows[0]);
        rows := rows[1..];
        return;
      }
      p := Wait;
    }

    method Finish(ticket: nat)
      requires depth > 0
      modifies this
      ensures Current() == Finished(old(Current()), ticket)
    {
      done := done + {ticket};
      depth := depth - 1;
      if depth == 0 { owner := None; }
    }
  }

  // ---------------------------------------------------------------- threads

  /** A thread is inside a drain, inside a callback of that drain, and so on. */
  datatype Frame = Draining(target: Option<nat>) | Running(ticket: nat)

  /** The queue, the frames of every thread, the items enqueued and those whose callback has begun. */
  datatype World<T> = World(queue: State<T>, stacks: map<nat, seq<Frame>>, offered: seq<T>, begun: seq<T>) {
    function Stack(thread: nat): seq<Frame> { if thread in stacks then stacks[thread] else [] }
  }

  datatype Event<T> =
    | Offer(items: seq<T>)
    | Enter(thread: nat, target: Option<nat>)
    | Step(thread: nat)
    | Leave(thread: nat, failed: bool)

  /** Which events can happen: a thread enters a drain from outside or from a callback, steps
      inside a drain, and leaves the callback it runs. Targets are tickets handed out before. */
  predicate Enabled<T>(w: World<T>, e: Event<T>) {
    match e
    case Offer(_) => true
    case Enter(t, target) => |w.Stack(t)| % 2 == 0 && (target.Some? ==> target.value < w.queue.next)
    case Step(t) => |w.Stack(t)| % 2 == 1
    case Leave(t, _) => |w.Stack(t)| % 2 == 0 && w.Stack(t) != []
  }

  ghost predicate Shaped(s: seq<Frame>) {
    forall i :: 0 <= i < |s| ==> (s[i].Draining? <==> i % 2 == 0)
  }

  ghost predicate AllShaped<T>(w: World<T>) { forall t: nat :: Shaped(w.Stack(t)) }

  function After<T>(w: World<T>, e: Event<T>): World<T>
    requires AllShaped(w) && Enabled(w, e) && (e.Leave? ==> w.queue.depth > 0)
  {
    match e
    case Offer(items) => w.(queue := Enqueued(w.queue, items), offered := w.offered + items)
    case Enter(t, target) => w.(stacks := w.stacks[t := w.Stack(t) + [Draining(Captured(w.queue, t, target))]])
    case Step(t) => Stepped(w, t)
    case Leave(t, failed) =>
      var s := w.Stack(t);
      assert Shaped(s);
      var ticket := s[|s| - 1].ticket;
      w.(queue := Finished(w.queue, ticket), stacks := w.stacks[t := s[..if failed then |s| - 2 else |s| - 1]])
  }

  function Stepped<T>(w: World<T>, t: nat): World<T>
    requires Shaped(w.Stack(t)) && |w.Stack(t)| % 2 == 1
  {
    var s := w.Stack(t);
    match Poll(w.queue, t, s[|s| - 1].target)
    case Return => w.(stacks := w.stacks[t := s[..|s| - 1]])
    case Wait => w
    case Take(row) =>
      w.(queue := Taken(w.queue, t), stacks := w.stacks[t := s + [Running(row.ticket)]], begun := w.begun + [row.item])
  }

  function Start<T>(): World<T> { World(State([], None, 0, 0, {}), map[], [], []) }

  // ---------------------------------------------------------------- what every run keeps

  /** Rows wait in the order offered; those begun are exactly the ones before them. */
  ghost predicate InOrder<T>(w: World<T>) {
    var q := w.queue;
    && q.next == |w.offered| && |w.begun| + |q.rows| == q.next
    && w.begun == w.offered[..|w.begun|]
    && forall i :: 0 <= i < |q.rows| ==> q.rows[i] == Row(w.offered[|w.begun| + i], |w.begun| + i)
  }

  /** The callbacks on a stack began in order, and none of them is done. */
  ghost predicate Nested(s: seq<Frame>, begun: nat, next: nat, done: set<nat>) {
    && Shaped(s)
    && (forall i :: 0 <= i < |s| && s[i].Running? ==> s[i].ticket < begun && s[i].ticket !in done)
    && (forall i, j :: 0 <= i < j < |s| && s[i].Running? && s[j].Running? ==> s[i].ticket < s[j].ticket)
    && (forall i :: 0 <= i < |s| && s[i].Draining? && s[i].target.Some? ==> s[i].target.value < next)
  }

  ghost predicate Holds(s: seq<Frame>, ticket: nat) { exists i :: 0 <= i < |s| && s[i] == Running(ticket) }

  ghost predicate Tidy<T>(w: World<T>, t: nat) { Nested(w.Stack(t), |w.begun|, w.queue.next, w.queue.done) }

  /** Only the owner runs callbacks, and it runs all that have begun and are not done. */
  ghost predicate Owned<T>(w: World<T>) {
    var q := w.queue;
    && (forall t: nat :: Tidy(w, t))
    && (forall t: nat :: q.owner != Some(t) ==> |w.Stack(t)| <= 1)
    && (forall k :: k in q.done ==> k < |w.begun|)
    && (forall k: nat :: k < |w.begun| && k !in q.done ==> q.owner.Some? && Holds(w.Stack(q.owner.value), k))
    && (if q.owner.Some? then q.depth > 0 && q.depth == |w.Stack(q.owner.value)| / 2 else q.depth == 0)
  }

  ghost predicate Inv<T>(w: World<T>) { InOrder(w) && Owned(w) }

  lemma StartHolds<T>()
    ensures Inv(Start<T>())
  {
  }

  lemma ShapedAll<T>(w: World<T>)
    requires Owned(w)
    ensures AllShaped(w)
  {
    forall t: nat
      ensures Shaped(w.Stack(t))
    {
      assert Tidy(w, t);
    }
  }

  /** A thread that runs a callback owns the queue. */
  lemma RunnerOwns<T>(w: World<T>, t: nat)
    requires Owned(w) && |w.Stack(t)| >= 2
    ensures w.queue.owner == Some(t) && w.queue.depth == |w.Stack(t)| / 2 > 0
  {
  }

  /** Every event keeps the protocol's invariant. */
  lemma Preserved<T>(w: World<T>, e: Event<T>)
    requires Inv(w) && Enabled(w, e)
    ensures AllShaped(w) && (e.Leave? ==> w.queue.depth > 0)
    ensures Inv(After(w, e))
  {
    hide Owned, InOrder;
    ShapedAll(w);
    match e
    case Offer(items) => OfferKeeps(w, items);
    case Enter(t, target) => EnterKeeps(w, t, target);
    case Step(t) => StepKeeps(w, t);
    case Leave(t, failed) =>
      RunnerOwns(w, t);
      LeaveKeeps(w, t, failed);
  }

  /** A stack stays nested when more rows begin or arrive, and when it runs none of those done. */
  lemma NestedLater(s: seq<Frame>, begun: nat, next: nat, done: set<nat>, begun': nat, next': nat, done': set<nat>)
    requires Nested(s, begun, next, done) && begun <= begun' && next <= next'
    requires done' == done || |s| <= 1
    ensures Nested(s, begun', next', done')
  {
  }

  lemma NestedPrefix(s: seq<Frame>, n: nat, begun: nat, next: nat, done: set<nat>)
    requires Nested(s, begun, next, done) && n <= |s|
    ensures Nested(s[..n], begun, next, done)
  {
  }

  lemma NestedDrain(s: seq<Frame>, target: Option<nat>, begun: nat, next: nat, done: set<nat>)
    requires Nested(s, begun, next, done) && |s| % 2 == 0 && (target.Some? ==> target.value < next)
    ensures Nested(s + [Draining(target)], begun, next, done)
  {
  }

  lemma NestedRun(s: seq<Frame>, begun: nat, next: nat, done: set<nat>)
    requires Nested(s, begun, next, done) && |s| % 2 == 1 && begun !in done
    ensures Nested(s + [Running(begun)], begun + 1, next, done)
  {
  }

  /** Leaving the topmost callback, all others below it stay nested. */
  lemma NestedLeft(s: seq<Frame>, n: nat, begun: nat, next: nat, done: set<nat>)
    requires Nested(s, begun, next, done) && |s| % 2 == 0 && s != [] && n < |s| && Shaped(s)
    ensures Nested(s[..n], begun, next, done + {s[|s| - 1].ticket})
  {
  }

  lemma StillHolds(s: seq<Frame>, t: seq<Frame>, k: nat)
    requires Holds(s, k) && s <= t
    ensures Holds(t, k)
  {
    var i :| 0 <= i < |s| && s[i] == Running(k);
    assert t[i] == Running(k);
  }

  /** Dropping the top frames loses only the topmost callback. */
  lemma HeldBelow(s: seq<Frame>, n: nat, k: nat)
    requires Holds(s, k) && Shaped(s) && n <= |s|
    requires |s| - n <= 2 && forall i :: n <= i < |s| ==> s[i] != Running(k)
    ensures Holds(s[..n], k)
  {
    var i :| 0 <= i < |s| && s[i] == Running(k);
    assert s[..n][i] == Running(k);
  }

  lemma OfferKeeps<T>(w: World<T>, items: seq<T>)
    requires Inv(w) && AllShaped(w)
    ensures Inv(After(w, Offer(items)))
  {
    hide Nested, Holds;
    var v := After(w, Offer(items));
    assert v.offered[..|w.begun|] == w.offered[..|w.begun|];
    forall t: nat
      ensures Tidy(v, t)
    {
      assert Tidy(w, t);
      NestedLater(w.Stack(t), |w.begun|, w.queue.next, w.queue.done, |v.begun|, v.queue.next, v.queue.done);
    }
  }

  lemma EnterKeeps<T>(w: World<T>, t: nat, target: Option<nat>)
    requires Inv(w) && AllShaped(w) && Enabled(w, Enter(t, target))
    ensures Inv(After(w, Enter(t, target)))
  {
    hide Nested, Holds;
    var v := After(w, Enter(t, target));
    var s := w.Stack(t);
    assert Tidy(w, t);
    NestedDrain(s, Captured(w.queue, t, target), |w.begun|, w.queue.next, w.queue.done);
    forall u: nat
      ensures Tidy(v, u)
    {
      assert Tidy(w, u);
    }
    forall k: nat | k < |v.begun| && k !in v.queue.done
      ensures v.queue.owner.Some? && Holds(v.Stack(v.queue.owner.value), k)
    {
      assert Holds(w.Stack(w.queue.owner.value), k);
      if w.queue.owner == Some(t) { StillHolds(s, v.Stack(t), k); }
    }
  }

  lemma StepKeeps<T>(w: World<T>, t: nat)
    requires Inv(w) && AllShaped(w) && Enabled(w, Step(t))
    ensures Inv(After(w, Step(t)))
  {
    hide InOrder, Owned, AllShaped;
    assert Shaped(w.Stack(t)) by { OneShaped(w, t); }
    var s := w.Stack(t);
    match Poll(w.queue, t, s[|s| - 1].target)
    case Wait =>
    case Return => ReturnKeeps(w, t);
    case Take(row) => TakeKeeps(w, t);
  }

  lemma OneShaped<T>(w: World<T>, t: nat)
    requires AllShaped(w)
    ensures Shaped(w.Stack(t))
  {
  }

  lemma ReturnKeeps<T>(w: World<T>, t: nat)
    requires Inv(w) && |w.Stack(t)| % 2 == 1
    ensures Inv(w.(stacks := w.stacks[t := w.Stack(t)[..|w.Stack(t)| - 1]]))
  {
    hide Nested, Holds;
    var s := w.Stack(t);
    var v := w.(stacks := w.stacks[t := s[..|s| - 1]]);
    assert Tidy(w, t);
    NestedPrefix(s, |s| - 1, |w.begun|, w.queue.next, w.queue.done);
    assert Shaped(s) && s[|s| - 1].Draining? by { TopDrains(w, t); }
    forall u: nat
      ensures Tidy(v, u)
    {
      assert Tidy(w, u);
    }
    forall k: nat | k < |v.begun| && k !in v.queue.done
      ensures v.queue.owner.Some? && Holds(v.Stack(v.queue.owner.value), k)
    {
      assert Holds(w.Stack(w.queue.owner.value), k);
      if w.queue.owner == Some(t) { HeldBelow(s, |s| - 1, k); }
    }
  }

  lemma TopDrains<T>(w: World<T>, t: nat)
    requires Tidy(w, t) && |w.Stack(t)| % 2 == 1
    ensures Shaped(w.Stack(t)) && w.Stack(t)[|w.Stack(t)| - 1].Draining?
  {
  }

  lemma TakeKeeps<T>(w: World<T>, t: nat)
    requires Inv(w) && |w.Stack(t)| % 2 == 1 && w.queue.rows != [] && MayTake(w.queue, t)
    ensures var row := w.queue.rows[0];
      Inv(w.(queue := Taken(w.queue, t), stacks := w.stacks[t := w.Stack(t) + [Running(row.ticket)]],
             begun := w.begun + [row.item]))
  {
    hide Nested, Holds;
    var s, k, row := w.Stack(t), |w.begun|, w.queue.rows[0];
    var v := w.(queue := Taken(w.queue, t), stacks := w.stacks[t := s + [Running(row.ticket)]], begun := w.begun + [row.item]);
    assert row == Row(w.offered[k], k);
    assert v.begun == v.offered[..k + 1];
    assert Tidy(w, t);
    NestedRun(s, k, w.queue.next, w.queue.done);
    forall u: nat
      ensures Tidy(v, u)
    {
      assert Tidy(w, u);
      if u != t { NestedLater(w.Stack(u), k, w.queue.next, w.queue.done, k + 1, w.queue.next, w.queue.done); }
    }
    forall j: nat | j < |v.begun| && j !in v.queue.done
      ensures Holds(v.Stack(t), j)
    {
      if j == k { TopHolds(s, k); } else { StillHolds(s, v.Stack(t), j); }
    }
  }

  lemma TopHolds(s: seq<Frame>, k: nat)
    ensures Holds(s + [Running(k)], k)
  {
    assert (s + [Running(k)])[|s|] == Running(k);
  }

  lemma LeaveKeeps<T>(w: World<T>, t: nat, failed: bool)
    requires Inv(w) && AllShaped(w) && Enabled(w, Leave(t, failed))
    requires w.queue.owner == Some(t) && w.queue.depth == |w.Stack(t)| / 2 > 0
    ensures Inv(After(w, Leave(t, failed)))
  {
    hide Nested, Holds, AllShaped;
    var s := w.Stack(t);
    assert Shaped(s) by { OneShaped(w, t); }
    var v := After(w, Leave(t, failed));
    var n := if failed then |s| - 2 else |s| - 1;
    assert Tidy(w, t);
    NestedLeft(s, n, |w.begun|, w.queue.next, w.queue.done);
    forall u: nat
      ensures Tidy(v, u)
    {
      assert Tidy(w, u);
      if u != t {
        NestedLater(w.Stack(u), |w.begun|, w.queue.next, w.queue.done, |w.begun|, w.queue.next, v.queue.done);
      }
    }
    BegunBefore(w, t);
    forall j: nat | j < |v.begun| && j !in v.queue.done
      ensures v.queue.owner == Some(t) && Holds(v.Stack(t), j)
    {
      assert Holds(s, j);
      HeldBelow(s, n, j);
      if v.queue.owner == None { NothingHeld(s[..n], j); }
    }
  }

  lemma BegunBefore<T>(w: World<T>, t: nat)
    requires Tidy(w, t) && |w.Stack(t)| % 2 == 0 && w.Stack(t) != []
    ensures w.Stack(t)[|w.Stack(t)| - 1].Running? && w.Stack(t)[|w.Stack(t)| - 1].ticket < |w.begun|
  {
  }

  lemma NothingHeld(s: seq<Frame>, k: nat)
    requires Holds(s, k) && Shaped(s)
    ensures |s| >= 2
  {
  }

  // ---------------------------------------------------------------- whole runs

  ghost predicate Legal<T>(w: World<T>, events: seq<Event<T>>)
    decreases |events|
  {
    events != [] ==>
      && AllShaped(w) && Enabled(w, events[0]) && (events[0].Leave? ==> w.queue.depth > 0)
      && Legal(After(w, events[0]), events[1..])
  }

  ghost function Final<T>(w: World<T>, events: seq<Event<T>>): World<T>
    requires Legal(w, events)
    decreases |events|
  {
    if events == [] then w else Final(After(w, events[0]), events[1..])
  }

  /** Whatever threads do, in whatever order: callbacks begin in the order rows were enqueued,
      and everything begun but not done is inside one thread, the owner. */
  lemma {:induction false} EveryRun<T>(w: World<T>, events: seq<Event<T>>)
    requires Inv(w) && Legal(w, events)
    ensures Inv(Final(w, events))
    decreases |events|
  {
    hide Inv, After, Enabled;
    if events != [] {
      Preserved(w, events[0]);
      EveryRun(After(w, events[0]), events[1..]);
    }
  }

  // ---------------------------------------------------------------- what the invariant gives

  function Unfinished<T>(w: World<T>): set<nat> { set k: nat | k < |w.begun| && k !in w.queue.done }

  /** `depth` counts the unfinished callbacks; the owner is empty exactly when there are none. */
  lemma DepthCounts<T>(w: World<T>)
    requires Inv(w)
    ensures |Unfinished(w)| == w.queue.depth
    ensures w.queue.owner == None <==> w.queue.depth == 0
  {
    match w.queue.owner
    case None => assert Unfinished(w) == {};
    case Some(o) =>
      assert Tidy(w, o);
      forall k
        ensures k in Unfinished(w) <==> Holds(w.Stack(o), k)
      {
        if Holds(w.Stack(o), k) { RunningIsOwned(w, o, k); }
      }
      RunningCount(w.Stack(o), Unfinished(w));
  }

  /** A callback that is running belongs to the owner and is not done. */
  lemma RunningIsOwned<T>(w: World<T>, t: nat, k: nat)
    requires Inv(w) && Holds(w.Stack(t), k)
    ensures w.queue.owner == Some(t) && k in Unfinished(w)
  {
    assert Tidy(w, t);
    var i :| 0 <= i < |w.Stack(t)| && w.Stack(t)[i] == Running(k);
  }

  /** An ordered stack runs half as many callbacks as it has frames. */
  lemma {:induction false} RunningCount(s: seq<Frame>, tickets: set<nat>)
    requires Shaped(s)
    requires forall i, j :: 0 <= i < j < |s| && s[i].Running? && s[j].Running? ==> s[i].ticket < s[j].ticket
    requires forall k :: k in tickets <==> Holds(s, k)
    ensures |tickets| == |s| / 2
  {
    hide Holds;
    if |s| < 2 {
      forall k: nat ensures !Holds(s, k) { if Holds(s, k) { NothingHeld(s, k); } }
      assert tickets == {};
    } else {
      var n := if |s| % 2 == 0 then |s| - 1 else |s| - 2;
      var top := s[n].ticket;
      forall k: nat
        ensures Holds(s[..n], k) <==> Holds(s, k) && k != top
        ensures Holds(s, top)
      {
        HeldApart(s, n, k);
      }
      assert top in tickets;
      assert forall k :: k in tickets - {top} <==> Holds(s[..n], k);
      RunningCount(s[..n], tickets - {top});
    }
  }

  lemma HeldApart(s: seq<Frame>, n: nat, k: nat)
    requires Shaped(s) && n < |s| <= n + 2 && s[n].Running?
    requires forall i, j :: 0 <= i < j < |s| && s[i].Running? && s[j].Running? ==> s[i].ticket < s[j].ticket
    ensures Holds(s[..n], k) <==> Holds(s, k) && k != s[n].ticket
    ensures Holds(s, s[n].ticket)
  {
    assert s[n] == Running(s[n].ticket);
    if Holds(s, k) && k != s[n].ticket {
      var i :| 0 <= i < |s| && s[i] == Running(k);
      assert s[..n][i] == Running(k);
    }
    if Holds(s[..n], k) {
      var i :| 0 <= i < n && s[..n][i] == Running(k);
      assert s[i] == Running(k);
    }
  }

  /** A drain with a target returns, short of an error, only once that row's callback is done;
      a drain from outside without a target only once every row enqueued is. */
  lemma ReturnsDone<T>(w: World<T>, t: nat)
    requires Inv(w) && |w.Stack(t)| % 2 == 1
    requires Shaped(w.Stack(t)) && Poll(w.queue, t, w.Stack(t)[|w.Stack(t)| - 1].target) == Return
    ensures var target := w.Stack(t)[|w.Stack(t)| - 1].target;
      && (target.Some? ==> target.value < |w.begun| && target.value !in Unfinished(w))
      && (target.None? && |w.Stack(t)| == 1 ==> w.begun == w.offered && Unfinished(w) == {})
  {
    var s := w.Stack(t);
    assert Tidy(w, t);
    if s[|s| - 1].target.None? && |s| == 1 {
      assert w.begun == w.offered[..|w.offered|] == w.offered;
    }
  }

  /** A thread only ever waits for another thread that is inside a callback, or else, forever,
      for a callback of its own that it is inside of. */
  lemma WaitsForAnother<T>(w: World<T>, t: nat)
    requires Inv(w) && |w.Stack(t)| % 2 == 1
    requires Shaped(w.Stack(t)) && Poll(w.queue, t, w.Stack(t)[|w.Stack(t)| - 1].target) == Wait
    ensures var target := w.Stack(t)[|w.Stack(t)| - 1].target;
      if w.queue.owner == Some(t) then target.Some? && Holds(w.Stack(t), target.value)
      else w.queue.owner.Some? && |w.Stack(w.queue.owner.value)| >= 2
  {
    var s := w.Stack(t);
    assert Tidy(w, t);
  }

  /** Draining for a callback of its own that it is inside of, a thread never gets back. */
  lemma OwnTargetNeverReturns<T>(w: World<T>, t: nat)
    requires Inv(w) && |w.Stack(t)| % 2 == 1 && Shaped(w.Stack(t))
    requires var target := w.Stack(t)[|w.Stack(t)| - 1].target; target.Some? && Holds(w.Stack(t), target.value)
    ensures Poll(w.queue, t, w.Stack(t)[|w.Stack(t)| - 1].target) != Return
  {
    assert Tidy(w, t);
  }

  /** No drain on the stack waits for a callback it is inside of. */
  ghost predicate Clean(s: seq<Frame>) {
    forall i, j :: 0 <= i < j < |s| && s[j].Draining? && s[j].target.Some? ==> s[i] != Running(s[j].target.value)
  }

  ghost predicate AllClean<T>(w: World<T>) { forall t: nat :: Clean(w.Stack(t)) }

  /** The tail captured by a recursive drain never is such a callback; only a ticket given
      explicitly can be. */
  lemma CleanKept<T>(w: World<T>, e: Event<T>)
    requires Inv(w) && AllClean(w) && AllShaped(w) && Enabled(w, e) && (e.Leave? ==> w.queue.depth > 0)
    requires e.Enter? && e.target.Some? ==> !Holds(w.Stack(e.thread), e.target.value)
    ensures AllClean(After(w, e))
  {
    hide InOrder, Owned, Clean;
    var v := After(w, e);
    if e.Enter? { CapturedWaits(w, e.thread, e.target); }
    forall t: nat
      ensures Clean(v.Stack(t))
    {
      assert Clean(w.Stack(t));
      CleanParts(w.Stack(t), v.Stack(t));
    }
  }

  /** Popping frames, entering a callback or waiting for one not held keeps a stack clean. */
  lemma CleanParts(s: seq<Frame>, t: seq<Frame>)
    requires Clean(s)
    requires
      || t <= s
      || (|t| == |s| + 1 && s <= t && t[|s|].Running?)
      || (|t| == |s| + 1 && s <= t && t[|s|].Draining? && (t[|s|].target.Some? ==> !Holds(s, t[|s|].target.value)))
    ensures Clean(t)
  {
  }

  /** Whatever a drain waits for, the thread is not inside of its callback. */
  lemma CapturedWaits<T>(w: World<T>, t: nat, given: Option<nat>)
    requires Inv(w) && (given.Some? ==> !Holds(w.Stack(t), given.value))
    ensures var target := Captured(w.queue, t, given); target.Some? ==> !Holds(w.Stack(t), target.value)
  {
    assert Tidy(w, t);
  }

  // ---------------------------------------------------------------- what every run gives

  /** What the thread's innermost drain finds when it looks at the queue. */
  function Polling<T>(w: World<T>, t: nat): Polled<T>
    requires Shaped(w.Stack(t)) && |w.Stack(t)| % 2 == 1
  {
    Poll(w.queue, t, w.Stack(t)[|w.Stack(t)| - 1].target)
  }

  /** At any moment of any run, a drain about to return has what it waited for. */
  lemma EveryReturn<T>(events: seq<Event<T>>, t: nat)
    requires Legal(Start<T>(), events)
    ensures var w := Final(Start<T>(), events);
      && AllShaped(w)
      && (|w.Stack(t)| % 2 == 1 && Polling(w, t) == Return ==>
            var target := w.Stack(t)[|w.Stack(t)| - 1].target;
            && (target.Some? ==> target.value < |w.begun| && target.value !in Unfinished(w))
            && (target.None? && |w.Stack(t)| == 1 ==> w.begun == w.offered && Unfinished(w) == {}))
  {
    hide InOrder, Owned, After, Enabled;
    StartHolds<T>();
    EveryRun(Start<T>(), events);
    var w := Final(Start<T>(), events);
    ShapedAll(w);
    if |w.Stack(t)| % 2 == 1 && Polling(w, t) == Return { ReturnsDone(w, t); }
  }

  /** A run in which nobody asks for a callback of its own that it is inside of. */
  ghost predicate Careful<T>(w: World<T>, events: seq<Event<T>>)
    requires Legal(w, events)
    decreases |events|
  {
    events != [] ==>
      && (events[0].Enter? && events[0].target.Some? ==> !Holds(w.Stack(events[0].thread), events[0].target.value))
      && Careful(After(w, events[0]), events[1..])
  }

  lemma {:induction false} EveryCarefulRun<T>(w: World<T>, events: seq<Event<T>>)
    requires Inv(w) && AllClean(w) && Legal(w, events) && Careful(w, events)
    ensures Inv(Final(w, events)) && AllClean(Final(w, events))
    decreases |events|
  {
    hide Inv, After, Enabled, AllClean, Holds;
    if events != [] {
      Preserved(w, events[0]);
      CleanKept(w, events[0]);
      EveryCarefulRun(After(w, events[0]), events[1..]);
    }
  }

  /** No deadlock: in a careful run a thread waits only for another one, and that one is either
      inside a callback or about to take a row or to return. */
  lemma NobodyStuck<T>(events: seq<Event<T>>, t: nat)
    requires Legal(Start<T>(), events) && Careful(Start<T>(), events)
    ensures var w := Final(Start<T>(), events);
      && AllShaped(w)
      && (|w.Stack(t)| % 2 == 1 && Polling(w, t) == Wait ==>
            && w.queue.owner.Some? && w.queue.owner.value != t
            && var owner := w.queue.owner.value;
               && w.Stack(owner) != []
               && (|w.Stack(owner)| % 2 == 1 ==> Polling(w, owner) != Wait))
  {
    hide InOrder, Owned, After, Enabled;
    StartHolds<T>();
    EveryCarefulRun(Start<T>(), events);
    var w := Final(Start<T>(), events);
    ShapedAll(w);
    if |w.Stack(t)| % 2 == 1 && Polling(w, t) == Wait {
      OwnerGoesOn(w, t);
      OwnerGoesOn(w, w.queue.owner.value);
    }
  }

  /** Where no drain waits for a callback it is inside of, whoever waits is not the owner. */
  lemma OwnerGoesOn<T>(w: World<T>, t: nat)
    requires Inv(w) && AllClean(w) && AllShaped(w)
    ensures |w.Stack(t)| % 2 == 1 && Polling(w, t) == Wait ==>
      w.queue.owner.Some? && w.queue.owner.value != t && |w.Stack(w.queue.owner.value)| >= 2
  {
    hide InOrder, Owned;
    if |w.Stack(t)| % 2 == 1 && Polling(w, t) == Wait {
      WaitsForAnother(w, t);
      assert Clean(w.Stack(t));
    }
  }

  // ---------------------------------------------------------------- one drain, from entry to return

  /** The thread does not leave its first `n` frames. */
  ghost predicate Stays<T>(w: World<T>, events: seq<Event<T>>, t: nat, n: nat)
    requires Legal(w, events)
    decreases |events|
  {
    |w.Stack(t)| >= n && (events != [] ==> Stays(After(w, events[0]), events[1..], t, n))
  }

  /** Frames that a thread does not leave do not change. */
  lemma {:induction false} FramesKept<T>(w: World<T>, events: seq<Event<T>>, t: nat, s: seq<Frame>)
    requires Inv(w) && Legal(w, events) && s <= w.Stack(t) && Stays(w, events, t, |s|)
    ensures s <= Final(w, events).Stack(t) && Inv(Final(w, events))
    ensures |w.begun| <= |Final(w, events).begun| && |w.offered| <= |Final(w, events).offered|
    decreases |events|
  {
    hide Inv, After, Enabled;
    if events != [] {
      Preserved(w, events[0]);
      EventKeeps(w, events[0], t, s);
      FramesKept(After(w, events[0]), events[1..], t, s);
    }
  }

  lemma EventKeeps<T>(w: World<T>, e: Event<T>, t: nat, s: seq<Frame>)
    requires AllShaped(w) && Enabled(w, e) && (e.Leave? ==> w.queue.depth > 0)
    requires s <= w.Stack(t)
    ensures |After(w, e).Stack(t)| >= |s| ==> s <= After(w, e).Stack(t)
    ensures |w.begun| <= |After(w, e).begun| && |w.offered| <= |After(w, e).offered|
  {
    hide Poll;
  }

  /** What a drain without a target, entered inside a callback, has delivered when it returns: every
      row queued on entry. And if there were any, it waits for no others. */
  lemma RecursiveDrain<T>(before: seq<Event<T>>, t: nat, during: seq<Event<T>>)
    requires Legal(Start<T>(), before)
    requires var w := Final(Start<T>(), before);
      && w.Stack(t) != [] && |w.Stack(t)| % 2 == 0
      && AllShaped(w) && Legal(After(w, Enter(t, None)), during)
      && Stays(After(w, Enter(t, None)), during, t, |w.Stack(t)| + 1)
      && |Final(After(w, Enter(t, None)), during).Stack(t)| == |w.Stack(t)| + 1
    ensures var w := Final(Start<T>(), before); var x := Final(After(w, Enter(t, None)), during);
      && AllShaped(x)
      && (Polling(x, t) == Return ==> forall k: nat :: |w.begun| <= k < |w.offered| ==> k in x.queue.done)
      && (Polling(x, t) == Return && |w.begun| == |w.offered| ==> |x.begun| == |x.offered|)
      && (|w.begun| < |w.offered| && (forall k: nat :: |w.begun| <= k < |w.offered| ==> k in x.queue.done)
          ==> Polling(x, t) == Return)
  {
    hide InOrder, Owned, Enabled, After, Poll;
    StartHolds<T>();
    EveryRun(Start<T>(), before);
    var w := Final(Start<T>(), before);
    var s := w.Stack(t);
    EnterInside(w, t);
    var v := After(w, Enter(t, None));
    Preserved(w, Enter(t, None));
    FramesKept(v, during, t, v.Stack(t));
    var x := Final(v, during);
    ShapedAll(x);
    assert x.Stack(t) == v.Stack(t);
    InnermostOnly(w, x, t);
    PollsTail(w, x, t);
  }

  /** On entry the drain settles for the last row queued. */
  lemma EnterInside<T>(w: World<T>, t: nat)
    requires Inv(w) && AllShaped(w) && w.Stack(t) != [] && |w.Stack(t)| % 2 == 0
    ensures Enabled(w, Enter(t, None))
    ensures var v := After(w, Enter(t, None)); var n := |w.offered|;
      && v.begun == w.begun && v.offered == w.offered
      && v.Stack(t) == w.Stack(t) + [Draining(if |w.begun| < n then Some(n - 1) else None)]
  {
    RunnerOwns(w, t);
  }

  /** Of the rows queued on entry only those done have begun, while the drain is innermost. */
  lemma InnermostOnly<T>(w: World<T>, x: World<T>, t: nat)
    requires Inv(w) && Inv(x) && w.Stack(t) != [] && |w.Stack(t)| % 2 == 0
    requires |x.Stack(t)| == |w.Stack(t)| + 1 && w.Stack(t) <= x.Stack(t) && x.Stack(t)[|w.Stack(t)|].Draining?
    ensures x.queue.owner == Some(t)
    ensures forall k: nat :: |w.begun| <= k < |x.begun| ==> k in x.queue.done
  {
    assert Tidy(w, t) && Tidy(x, t);
    RunnerOwns(x, t);
    forall k: nat | |w.begun| <= k < |x.begun|
      ensures k in x.queue.done
    {
      if k !in x.queue.done {
        var i :| 0 <= i < |x.Stack(t)| && x.Stack(t)[i] == Running(k);
        assert false;
      }
    }
  }

  lemma PollsTail<T>(w: World<T>, x: World<T>, t: nat)
    requires Inv(w) && Inv(x) && Shaped(x.Stack(t)) && |x.Stack(t)| % 2 == 1 && x.queue.owner == Some(t)
    requires forall k: nat :: |w.begun| <= k < |x.begun| ==> k in x.queue.done
    requires x.Stack(t)[|x.Stack(t)| - 1] == Draining(if |w.begun| < |w.offered| then Some(|w.offered| - 1) else None)
    ensures Polling(x, t) == Return ==> forall k: nat :: |w.begun| <= k < |w.offered| ==> k in x.queue.done
    ensures Polling(x, t) == Return && |w.begun| == |w.offered| ==> |x.begun| == |x.offered|
    ensures |w.begun| < |w.offered| && (forall k: nat :: |w.begun| <= k < |w.offered| ==> k in x.queue.done)
      ==> Polling(x, t) == Return
  {
  }

  /** A drain from outside returns with the row it was given done, or without one with all rows. */
  lemma OutsideDrain<T>(before: seq<Event<T>>, t: nat, given: Option<nat>, during: seq<Event<T>>)
    requires Legal(Start<T>(), before)
    requires var w := Final(Start<T>(), before); var e := Enter(t, given);
      && w.Stack(t) == [] && AllShaped(w) && Enabled(w, e) && Legal(After(w, e), during)
      && Stays(After(w, e), during, t, 1) && |Final(After(w, e), during).Stack(t)| == 1
    ensures var w := Final(Start<T>(), before); var x := Final(After(w, Enter(t, given)), during);
      && AllShaped(x)
      && (Polling(x, t) == Return <==> if given.Some? then given.value in x.queue.done
                                        else x.begun == x.offered && Unfinished(x) == {})
  {
    hide InOrder, Owned, Enabled, After, Poll;
    StartHolds<T>();
    EveryRun(Start<T>(), before);
    var w := Final(Start<T>(), before);
    EnterOutside(w, t, given);
    var v := After(w, Enter(t, given));
    Preserved(w, Enter(t, given));
    FramesKept(v, during, t, v.Stack(t));
    var x := Final(v, during);
    ShapedAll(x);
    assert x.Stack(t) == v.Stack(t);
    PollsOutside(x, t, given);
  }

  lemma EnterOutside<T>(w: World<T>, t: nat, given: Option<nat>)
    requires Inv(w) && AllShaped(w) && w.Stack(t) == [] && Enabled(w, Enter(t, given))
    ensures After(w, Enter(t, given)).Stack(t) == [Draining(given)]
  {
    if w.queue.owner == Some(t) { assert false; }
  }

  lemma PollsOutside<T>(x: World<T>, t: nat, given: Option<nat>)
    requires Inv(x) && x.Stack(t) == [Draining(given)]
    ensures Polling(x, t) == Return
      <==> if given.Some? then given.value in x.queue.done else x.begun == x.offered && Unfinished(x) == {}
  {
    assert x.queue.owner != Some(t);
    if x.queue.owner.Some? { DepthCounts(x); }
    if x.queue.owner.None? { DepthCounts(x); }
    assert x.begun == x.offered <==> x.queue.rows == [] by {
      if x.queue.rows == [] { assert x.offered[..|x.offered|] == x.offered; }
    }
  }
}
