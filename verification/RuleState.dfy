/** When an alert rule fires: consecutive breaches, edge and level mode, cooldown, recovery and
    repeated evaluation errors, over whole runs. */
module RuleState {
  import opened Results

  datatype Mode = Edge | Level

  datatype Rule = Rule(forSteps: nat, mode: Mode, cooldown: Option<real>, maxFires: Option<nat>, notifyRecovery: bool)

  datatype Status = Status(consecutive: nat, firing: bool, lastFire: Option<real>, fires: nat, errors: nat, enabled: bool)

  /** One evaluation: its truth value, the time, and whether a notification would be delivered;
      or an evaluation error. */
  datatype Event = Evaluated(result: Option<bool>, now: real, delivered: bool) | Errored

  datatype Action = Quiet | Breach(delivered: bool) | Recovery | Failure(disabled: bool) | Skipped

  const FRESH := Status(0, false, None, 0, 0, true)

  // ---------------------------------------------------------------- one evaluation

  /** Whether a breach is notified, once `consecutive` counts the present one. */
  predicate Notifies(rule: Rule, s: Status, now: real) {
    && s.consecutive >= rule.forSteps
    && !(rule.mode == Edge && s.firing)
    && !(rule.mode == Level && s.lastFire.Some? && rule.cooldown.Some? && rule.cooldown.value != 0.0
         && now - s.lastFire.value < rule.cooldown.value)
    && !(rule.maxFires.Some? && s.fires >= rule.maxFires.value)
  }

  /** `alert_evaluate_rule`: the new status and what is done. */
  function Step(rule: Rule, s: Status, e: Event): (Status, Action) {
    if !s.enabled then (s, Skipped)
    else
      match e
      case Errored =>
        var t := s.(errors := s.errors + 1);
        if t.errors >= 3 then (t.(enabled := false), Failure(true)) else (t, Failure(false))
      case Evaluated(None, _, _) => (s.(errors := 0), Quiet)
      case Evaluated(Some(false), _, _) =>
        (s.(errors := 0, consecutive := 0, firing := false), if s.firing && rule.notifyRecovery then Recovery else Quiet)
      case Evaluated(Some(true), now, delivered) =>
        var t := s.(errors := 0, consecutive := s.consecutive + 1);
        if !Notifies(rule, t, now) then (t, Quiet)
        else if delivered then (t.(firing := true, lastFire := Some(now), fires := t.fires + 1), Breach(true))
        else (t, Breach(false))
  }

  /** The state object of a rule. */
  class AlertRuleState {
    var consecutive: nat
    var firing: bool
    var lastFire: Option<real>
    var fires: nat
    var errors: nat
    var enabled: bool

    function Current(): Status
      reads this
    {
      Status(consecutive, firing, lastFire, fires, errors, enabled)
    }

    constructor ()
      ensures Current() == FRESH
    {
      consecutive, firing, lastFire, fires, errors, enabled := 0, false, None, 0, 0, true;
    }

    /** `transition`: 1 for a breach, 2 for a recovery, 0 for nothing. */
    method Transition(result: Option<bool>, now: real, rule: Rule) returns (action: nat)
      modifies this
      ensures action <= 2
      ensures result == Some(true) ==>
        Current() == old(Current()).(errors := 0, consecutive := old(consecutive) + 1)
        && (action == if Notifies(rule, Current(), now) then 1 else 0)
      ensures result == Some(false) ==>
        Current() == old(Current()).(errors := 0, consecutive := 0, firing := false)
        && (action == if old(firing) && rule.notifyRecovery then 2 else 0)
      ensures result == None ==> Current() == old(Current()).(errors := 0) && action == 0
    {
      errors := 0;
      match result {
        case None => return 0;
        case Some(false) =>
          consecutive := 0;
          var recovering := firing;
          firing := false;
          return if recovering && rule.notifyRecovery then 2 else 0;
        case Some(true) =>
          consecutive := consecutive + 1;
          if consecutive < rule.forSteps { return 0; }
          if rule.mode == Edge && firing { return 0; }
          if rule.mode == Level {
            if lastFire.Some? && rule.cooldown.Some? {
              if rule.cooldown.value != 0.0 && now - lastFire.value < rule.cooldown.value { return 0; }
            }
          }
          if rule.maxFires.Some? && fires >= rule.maxFires.value { return 0; }
          return 1;
      }
    }

    method Fired(now: real)
      modifies this
      ensures Current() == old(Current()).(firing := true, lastFire := Some(now), fires := old(fires) + 1)
    {
      firing, lastFire, fires := true, Some(now), fires + 1;
    }

    method Failed() returns (disabled: bool)
      modifies this
      ensures Current() == old(Current()).(errors := old(errors) + 1) && disabled == (errors >= 3)
    {
      errors := errors + 1;
      disabled := errors >= 3;
    }

    /** `alert_evaluate_rule`, for a rule that may have been disabled. */
    method Evaluate(rule: Rule, e: Event) returns (a: Action)
      modifies this
      ensures (Current(), a) == Step(rule, old(Current()), e)
    {
      if !enabled { return Skipped; }
      if e.Errored? {
        var disabled := Failed();
        if disabled { enabled := false; }
        return Failure(disabled);
      }
      var action := Transition(e.result, e.now, rule);
      if action == 1 {
        if e.delivered { Fired(e.now); }
        return Breach(e.delivered);
      }
      return if action == 2 then Recovery else Quiet;
    }
  }

  // ---------------------------------------------------------------- whole runs

  function After(rule: Rule, events: seq<Event>): Status {
    if events == [] then FRESH else Step(rule, After(rule, events[..|events| - 1]), events[|events| - 1]).0
  }

  /** What is done about the i-th event of a run. */
  function ActionAt(rule: Rule, events: seq<Event>, i: nat): Action
    requires i < |events|
  {
    Step(rule, After(rule, events[..i]), events[i]).1
  }

  predicate Fires(rule: Rule, events: seq<Event>, i: nat)
    requires i < |events|
  {
    ActionAt(rule, events, i) == Breach(true)
  }

  predicate IsFalse(e: Event) { e.Evaluated? && e.result == Some(false) }

  predicate IsTrue(e: Event) { e.Evaluated? && e.result == Some(true) }

  /** How many True results there were since the last False one. */
  function Breaches(events: seq<Event>): nat {
    if events == [] then 0
    else
      var last := events[|events| - 1];
      if IsFalse(last) then 0 else Breaches(events[..|events| - 1]) + if IsTrue(last) then 1 else 0
  }

  function FireCount(rule: Rule, events: seq<Event>): nat {
    if events == [] then 0
    else FireCount(rule, events[..|events| - 1]) + if Fires(rule, events, |events| - 1) then 1 else 0
  }

  predicate FiredAt(rule: Rule, events: seq<Event>, i: nat) { i < |events| && Fires(rule, events, i) }

  ghost predicate NoneBetween(rule: Rule, events: seq<Event>, i: int, j: int) {
    forall k: nat :: i < k < j ==> !FiredAt(rule, events, k)
  }

  /** The last fire and its time. */
  ghost predicate LastWas(rule: Rule, events: seq<Event>, i: nat, now: real) {
    FiredAt(rule, events, i) && events[i].Evaluated? && events[i].now == now && NoneBetween(rule, events, i, |events|)
  }

  ghost predicate KnowsLast(rule: Rule, events: seq<Event>, s: Status) {
    if s.lastFire.None? then NoneBetween(rule, events, -1, |events|)
    else exists i: nat :: LastWas(rule, events, i, s.lastFire.value)
  }

  ghost predicate FalseAfter(events: seq<Event>, i: nat) { exists k :: i < k < |events| && IsFalse(events[k]) }

  /** While the rule is enabled, it is firing exactly if it fired since the last False result. */
  ghost predicate KnowsFiring(rule: Rule, events: seq<Event>, s: Status) {
    s.enabled ==> (s.firing <==> exists i: nat :: FiredAt(rule, events, i) && !FalseAfter(events, i))
  }

  /** What the status says about the run so far. */
  ghost predicate Accounts(rule: Rule, events: seq<Event>, s: Status) {
    && s.fires == FireCount(rule, events)
    && KnowsLast(rule, events, s)
    && KnowsFiring(rule, events, s)
    && (s.enabled ==> s.consecutive == Breaches(events))
  }

  lemma SamePast(rule: Rule, events: seq<Event>, n: nat, i: nat)
    requires i < n <= |events|
    ensures ActionAt(rule, events[..n], i) == ActionAt(rule, events, i)
  {
    assert events[..n][..i] == events[..i];
  }

  lemma SameFires(rule: Rule, events: seq<Event>, n: nat)
    requires n <= |events|
    ensures forall i: nat :: i < n ==> FiredAt(rule, events[..n], i) == FiredAt(rule, events, i)
  {
    hide Step;
    forall i: nat | i < n
      ensures FiredAt(rule, events[..n], i) == FiredAt(rule, events, i)
    {
      SamePast(rule, events, n, i);
    }
  }

  /** How the fires of a run relate to those of the run without its last event. */
  ghost predicate Extends(rule: Rule, events: seq<Event>)
    requires events != []
  {
    var n := |events| - 1;
    && (forall i: nat :: i < n ==> FiredAt(rule, events[..n], i) == FiredAt(rule, events, i))
    && (forall i: nat :: FiredAt(rule, events[..n], i) ==> i < n)
    && (forall i: nat :: FiredAt(rule, events, i) ==> i <= n)
    && (FiredAt(rule, events, n) <==> Step(rule, After(rule, events[..n]), events[n]).1 == Breach(true))
    && FireCount(rule, events) == FireCount(rule, events[..n]) + if FiredAt(rule, events, n) then 1 else 0
  }

  lemma RunExtends(rule: Rule, events: seq<Event>)
    requires events != []
    ensures Extends(rule, events)
  {
    hide Step;
    SameFires(rule, events, |events| - 1);
  }

  lemma {:induction false} Accounted(rule: Rule, events: seq<Event>)
    ensures Accounts(rule, events, After(rule, events))
  {
    hide Notifies, FiredAt, KnowsLast, KnowsFiring, Extends;
    if events == [] {
      NothingFired(rule);
    } else {
      var n := |events| - 1;
      var init := events[..n];
      Accounted(rule, init);
      RunExtends(rule, events);
      var s := After(rule, init);
      LastNext(rule, events, s);
      FiringNext(rule, events, s);
      CountsNext(rule, events, s);
    }
  }

  lemma NothingFired(rule: Rule)
    ensures KnowsLast(rule, [], FRESH) && KnowsFiring(rule, [], FRESH)
  {
  }

  lemma CountsNext(rule: Rule, events: seq<Event>, s: Status)
    requires events != [] && Extends(rule, events) && s == After(rule, events[..|events| - 1])
    requires s.fires == FireCount(rule, events[..|events| - 1])
    requires s.enabled ==> s.consecutive == Breaches(events[..|events| - 1])
    ensures var t := Step(rule, s, events[|events| - 1]).0;
      t.fires == FireCount(rule, events) && (t.enabled ==> t.consecutive == Breaches(events))
  {
    hide Notifies, FiredAt, FireCount, After;
  }

  lemma LastNext(rule: Rule, events: seq<Event>, s: Status)
    requires events != [] && Extends(rule, events) && s == After(rule, events[..|events| - 1])
    requires KnowsLast(rule, events[..|events| - 1], s)
    ensures KnowsLast(rule, events, Step(rule, s, events[|events| - 1]).0)
  {
    hide Notifies, FiredAt, FireCount, After;
    var n := |events| - 1;
    if FiredAt(rule, events, n) {
      assert LastWas(rule, events, n, events[n].now);
    } else if s.lastFire.Some? {
      var i: nat :| LastWas(rule, events[..n], i, s.lastFire.value);
      assert LastWas(rule, events, i, s.lastFire.value);
    }
  }

  lemma FiringNext(rule: Rule, events: seq<Event>, s: Status)
    requires events != [] && Extends(rule, events) && s == After(rule, events[..|events| - 1])
    requires KnowsFiring(rule, events[..|events| - 1], s)
    ensures KnowsFiring(rule, events, Step(rule, s, events[|events| - 1]).0)
  {
    hide Notifies, FiredAt, FireCount, After, FalseAfter;
    var n := |events| - 1;
    var init, e, t := events[..n], events[n], Step(rule, s, events[n]).0;
    forall i: nat | i < n
      ensures FalseAfter(events, i) <==> FalseAfter(init, i) || IsFalse(e)
    {
      FalseAfterNext(events, i);
    }
    NothingAfterLast(events);
    if t.enabled && !FiredAt(rule, events, n) && !IsFalse(e) {
      assert forall i: nat ::
        FiredAt(rule, events, i) && !FalseAfter(events, i) <==> FiredAt(rule, init, i) && !FalseAfter(init, i);
    }
  }

  lemma FalseAfterNext(events: seq<Event>, i: nat)
    requires i < |events| - 1
    ensures FalseAfter(events, i) <==> FalseAfter(events[..|events| - 1], i) || IsFalse(events[|events| - 1])
  {
    var init := events[..|events| - 1];
    if FalseAfter(init, i) {
      var k :| i < k < |init| && IsFalse(init[k]);
      assert IsFalse(events[k]);
    }
    if FalseAfter(events, i) && !IsFalse(events[|events| - 1]) {
      var k :| i < k < |events| && IsFalse(events[k]);
      assert init[k] == events[k];
    }
  }

  lemma NothingAfterLast(events: seq<Event>)
    requires events != []
    ensures !FalseAfter(events, |events| - 1)
  {
  }

  // ---------------------------------------------------------------- properties of every run

  lemma FireIsStep(rule: Rule, events: seq<Event>, j: nat)
    requires FiredAt(rule, events, j)
    ensures var s := After(rule, events[..j]);
      && s.enabled && IsTrue(events[j])
      && Notifies(rule, s.(errors := 0, consecutive := s.consecutive + 1), events[j].now)
  {
    hide After, Notifies;
  }

  lemma FiredInside(rule: Rule, events: seq<Event>, j: nat)
    requires FiredAt(rule, events, j)
    ensures j < |events| && IsTrue(events[j])
  {
    hide After;
  }

  /** A fire needs `forSteps` True results since the last False one. */
  lemma FireNeedsBreaches(rule: Rule, events: seq<Event>, j: nat)
    requires FiredAt(rule, events, j)
    ensures j < |events| && IsTrue(events[j]) && Breaches(events[..j + 1]) >= rule.forSteps
  {
    hide After, FiredAt, KnowsLast, KnowsFiring;
    FiredInside(rule, events, j);
    FireIsStep(rule, events, j);
    Accounted(rule, events[..j]);
    assert events[..j + 1][..j] == events[..j];
  }

  /** Two edge-mode fires have a False result between them. */
  lemma EdgeFiresApart(rule: Rule, events: seq<Event>, i: nat, j: nat)
    requires rule.mode == Edge && i < j && FiredAt(rule, events, i) && FiredAt(rule, events, j)
    ensures j < |events| && exists k :: i < k < j && IsFalse(events[k])
  {
    hide After, FiredAt, KnowsLast;
    FiredInside(rule, events, j);
    FireIsStep(rule, events, j);
    Accounted(rule, events[..j]);
    SameFires(rule, events, j);
    assert FalseAfter(events[..j], i);
    var k :| i < k < j && IsFalse(events[..j][k]);
    assert IsFalse(events[k]);
  }

  /** A level-mode fire is a non-zero cooldown after the one before it. */
  lemma CooldownApart(rule: Rule, events: seq<Event>, i: nat, j: nat)
    requires rule.mode == Level && rule.cooldown.Some? && rule.cooldown.value != 0.0
    requires i < j && FiredAt(rule, events, i) && FiredAt(rule, events, j) && NoneBetween(rule, events, i, j)
    ensures j < |events| && events[i].Evaluated? && events[j].Evaluated?
    ensures events[j].now - events[i].now >= rule.cooldown.value
  {
    hide After, FiredAt, KnowsFiring;
    FiredInside(rule, events, i);
    FiredInside(rule, events, j);
    FireIsStep(rule, events, j);
    var past := events[..j];
    Accounted(rule, past);
    SameFires(rule, events, j);
    var s := After(rule, past);
    assert FiredAt(rule, past, i);
    assert s.lastFire.Some?;
    var l: nat :| LastWas(rule, past, l, s.lastFire.value);
    FiredInside(rule, past, l);
    assert l == i;
  }

  /** With a positive cooldown, any two fires are that far apart. */
  lemma {:induction false} AllCooldownsApart(rule: Rule, events: seq<Event>, i: nat, j: nat)
    requires rule.mode == Level && rule.cooldown.Some? && rule.cooldown.value > 0.0
    requires i < j && FiredAt(rule, events, i) && FiredAt(rule, events, j)
    ensures j < |events| && events[i].Evaluated? && events[j].Evaluated?
    ensures events[j].now - events[i].now >= rule.cooldown.value
    decreases j - i
  {
    hide FiredAt;
    if NoneBetween(rule, events, i, j) {
      CooldownApart(rule, events, i, j);
    } else {
      var k: nat :| i < k < j && FiredAt(rule, events, k);
      AllCooldownsApart(rule, events, i, k);
      AllCooldownsApart(rule, events, k, j);
    }
  }

  /** Fires never exceed the limit. */
  lemma {:induction false} FiresBounded(rule: Rule, events: seq<Event>)
    requires rule.maxFires.Some?
    ensures FireCount(rule, events) <= rule.maxFires.value
  {
    hide After, FiredAt, KnowsLast, KnowsFiring;
    if events != [] {
      var n := |events| - 1;
      FiresBounded(rule, events[..n]);
      RunExtends(rule, events);
      if FiredAt(rule, events, n) {
        FireIsStep(rule, events, n);
        Accounted(rule, events[..n]);
      }
    }
  }

  /** A recovery follows a fire, and two recoveries have a fire between them. */
  lemma RecoveriesApart(rule: Rule, events: seq<Event>, j: nat)
    requires j < |events| && ActionAt(rule, events, j) == Recovery
    ensures IsFalse(events[j])
    ensures exists k: nat :: k < j && FiredAt(rule, events, k) && forall i :: k <= i < j ==> !IsFalse(events[i])
    ensures forall i: nat :: i < j && ActionAt(rule, events, i) == Recovery ==>
      exists k: nat :: i < k < j && FiredAt(rule, events, k)
  {
    hide After, FiredAt, ActionAt, KnowsLast;
    RecoveryIsStep(rule, events, j);
    var past := events[..j];
    Accounted(rule, past);
    SameFires(rule, events, j);
    var k: nat :| FiredAt(rule, past, k) && !FalseAfter(past, k);
    FiredInside(rule, past, k);
    assert FiredAt(rule, events, k) && forall i :: k <= i < j ==> events[i] == past[i];
    assert forall i :: k < i < j ==> !IsFalse(past[i]);
    forall i: nat | i < j && ActionAt(rule, events, i) == Recovery
      ensures i < k
    {
      RecoveryIsStep(rule, events, i);
    }
  }

  lemma RecoveryIsStep(rule: Rule, events: seq<Event>, j: nat)
    requires j < |events| && ActionAt(rule, events, j) == Recovery
    ensures IsFalse(events[j]) && After(rule, events[..j]).enabled && After(rule, events[..j]).firing
  {
    hide After;
  }

  // ---------------------------------------------------------------- deleting Unknown results

  predicate IsUnknown(e: Event) { e.Evaluated? && e.result == None }

  function Known(events: seq<Event>): seq<Event> {
    if events == [] then [] else (if IsUnknown(events[0]) then [] else [events[0]]) + Known(events[1..])
  }

  function Actions(rule: Rule, s: Status, events: seq<Event>): seq<Action>
    decreases |events|
  {
    if events == [] then []
    else [Step(rule, s, events[0]).1] + Actions(rule, Step(rule, s, events[0]).0, events[1..])
  }

  /** What is done about all events but the Unknown ones. */
  function KnownActions(rule: Rule, s: Status, events: seq<Event>): seq<Action>
    decreases |events|
  {
    if events == [] then []
    else
      (if IsUnknown(events[0]) then [] else [Step(rule, s, events[0]).1])
      + KnownActions(rule, Step(rule, s, events[0]).0, events[1..])
  }

  /** Whether the first three errors without a True or False result between them have an Unknown
      one between them; the counts are the errors since either kind of result. */
  predicate Spoiled(events: seq<Event>, apart: nat, together: nat) {
    if events == [] then false
    else if events[0].Errored? then
      if apart + 1 >= 3 then together + 1 < 3 else Spoiled(events[1..], apart + 1, together + 1)
    else Spoiled(events[1..], if IsUnknown(events[0]) then apart else 0, 0)
  }

  lemma {:induction false} DisabledSkips(rule: Rule, s: Status, u: Status, events: seq<Event>)
    requires !s.enabled && !u.enabled
    ensures KnownActions(rule, s, events) == Actions(rule, u, Known(events))
  {
    if events != [] {
      DisabledSkips(rule, s, u, events[1..]);
      KnownCons(events);
    }
  }

  lemma KnownCons(events: seq<Event>)
    requires events != []
    ensures IsUnknown(events[0]) ==> Known(events) == Known(events[1..])
    ensures !IsUnknown(events[0]) ==> Known(events) != [] && Known(events)[0] == events[0] && Known(events)[1..] == Known(events[1..])
  {
  }

  lemma {:induction false} UnknownsFrom(rule: Rule, s: Status, events: seq<Event>, apart: nat)
    requires s.enabled && s.errors <= apart < 3
    ensures KnownActions(rule, s, events) == Actions(rule, s.(errors := apart), Known(events))
       <==> !Spoiled(events, apart, s.errors)
    decreases |events|
  {
    hide Known, Notifies, KnownActions, Actions, Spoiled;
    var u := s.(errors := apart);
    if events == [] {
      NothingDone(rule, s, u, apart);
    } else {
      var e, rest := events[0], events[1..];
      var (s', a) := Step(rule, s, e);
      var (u', b) := Step(rule, u, e);
      KnownCons(events);
      DoneCons(rule, s, u, events, apart);
      if IsUnknown(e) {
        UnknownsFrom(rule, s', rest, apart);
      } else {
        SameHead(a, KnownActions(rule, s', rest), b, Actions(rule, u', Known(rest)));
        if e.Errored? && apart + 1 >= 3 {
          if s.errors + 1 >= 3 { DisabledSkips(rule, s', u', rest); }
        } else {
          UnknownsFrom(rule, s', rest, if e.Errored? then apart + 1 else 0);
        }
      }
    }
  }

  lemma NothingDone(rule: Rule, s: Status, u: Status, apart: nat)
    ensures KnownActions(rule, s, []) == Actions(rule, u, Known([])) && !Spoiled([], apart, s.errors)
  {
    KnownNothing();
  }

  lemma DoneCons(rule: Rule, s: Status, u: Status, events: seq<Event>, apart: nat)
    requires events != []
    ensures var e, rest := events[0], events[1..];
      var (s', a) := Step(rule, s, e); var (u', b) := Step(rule, u, e);
      if IsUnknown(e) then
        && KnownActions(rule, s, events) == KnownActions(rule, s', rest)
        && Spoiled(events, apart, s.errors) == Spoiled(rest, apart, 0)
      else
        && KnownActions(rule, s, events) == [a] + KnownActions(rule, s', rest)
        && Actions(rule, u, Known(events)) == [b] + Actions(rule, u', Known(rest))
        && Spoiled(events, apart, s.errors)
           == if !e.Errored? then Spoiled(rest, 0, 0)
              else if apart + 1 >= 3 then s.errors + 1 < 3 else Spoiled(rest, apart + 1, s.errors + 1)
  {
    hide Step, Known;
    KnownCons(events);
    var rest := events[1..];
    assert [] + KnownActions(rule, Step(rule, s, events[0]).0, rest) == KnownActions(rule, Step(rule, s, events[0]).0, rest);
  }

  lemma KnownNothing()
    ensures Known([]) == []
  {
  }

  lemma SameHead(a: Action, x: seq<Action>, b: Action, y: seq<Action>)
    ensures [a] + x == [b] + y <==> a == b && x == y
  {
    if [a] + x == [b] + y {
      assert ([a] + x)[0] == a && ([b] + y)[0] == b;
      assert ([a] + x)[1..] == x && ([b] + y)[1..] == y;
    }
  }

  /** Deleting the Unknown results of a run changes nothing else that is done, exactly unless an
      Unknown result keeps three errors from disabling the rule. */
  lemma UnknownsDoNotMatter(rule: Rule, events: seq<Event>)
    ensures KnownActions(rule, FRESH, events) == Actions(rule, FRESH, Known(events)) <==> !Spoiled(events, 0, 0)
    ensures (forall e :: e in events ==> !e.Errored?) ==> !Spoiled(events, 0, 0)
  {
    UnknownsFrom(rule, FRESH, events, 0);
    if forall e :: e in events ==> !e.Errored? { ErrorFree(events, 0); }
  }

  lemma {:induction false} ErrorFree(events: seq<Event>, apart: nat)
    requires forall e :: e in events ==> !e.Errored?
    ensures !Spoiled(events, apart, 0)
    decreases |events|
  {
    if events != [] { ErrorFree(events[1..], if IsUnknown(events[0]) then apart else 0); }
  }

  /** The actions one after the other are the actions event by event. */
  lemma {:induction false} ActionsAt(rule: Rule, past: seq<Event>, events: seq<Event>, i: nat)
    requires i < |events|
    ensures |Actions(rule, After(rule, past), events)| == |events|
    ensures Actions(rule, After(rule, past), events)[i] == ActionAt(rule, past + events, |past| + i)
    decreases |events|
  {
    hide Step;
    assert (past + events)[..|past|] == past;
    assert (past + [events[0]])[..|past|] == past;
    assert (past + [events[0]]) + events[1..] == past + events;
    if |events| > 1 {
      ActionsAt(rule, past + [events[0]], events[1..], if i > 0 then i - 1 else 0);
    }
  }

  /** Where an event that is not Unknown stands once the Unknown ones are deleted. */
  function Rank(events: seq<Event>, i: nat): nat
    requires i <= |events|
  {
    |Known(events[..i])|
  }

  lemma {:induction false} RankIn(events: seq<Event>, i: nat)
    requires i < |events| && !IsUnknown(events[i])
    ensures Rank(events, i) < |Known(events)| && Known(events)[Rank(events, i)] == events[i]
  {
    RankCons(events, i);
    KnownCons(events);
    if i > 0 { RankIn(events[1..], i - 1); }
  }

  lemma RankCons(events: seq<Event>, i: nat)
    requires i < |events|
    ensures Rank(events, 0) == 0
    ensures i > 0 ==> Rank(events, i) == (if IsUnknown(events[0]) then 0 else 1) + Rank(events[1..], i - 1)
  {
    assert events[..0] == [];
    if i > 0 {
      KnownCons(events[..i]);
      assert events[..i][1..] == events[1..][..i - 1];
    }
  }

  /** Every place is taken. */
  lemma {:induction false} Ranked(events: seq<Event>, k: nat) returns (i: nat)
    requires k < |Known(events)|
    ensures i < |events| && !IsUnknown(events[i]) && Rank(events, i) == k
  {
    KnownCons(events);
    if !IsUnknown(events[0]) && k == 0 {
      i := 0;
    } else {
      i := Ranked(events[1..], if IsUnknown(events[0]) then k else k - 1);
      i := i + 1;
    }
    RankCons(events, i);
  }

  lemma {:induction false} KnownActionsAt(rule: Rule, past: seq<Event>, events: seq<Event>, i: nat)
    requires i < |events| && !IsUnknown(events[i])
    ensures |KnownActions(rule, After(rule, past), events)| == |Known(events)| && Rank(events, i) < |Known(events)|
    ensures KnownActions(rule, After(rule, past), events)[Rank(events, i)] == ActionAt(rule, past + events, |past| + i)
    decreases |events|
  {
    hide Step, Known, KnownActions;
    var e, rest := events[0], events[1..];
    assert (past + events)[..|past|] == past;
    assert (past + [e])[..|past|] == past;
    assert (past + [e]) + rest == past + events;
    RankCons(events, i);
    RankIn(events, i);
    KnownCons(events);
    KnownActionsCons(rule, After(rule, past), events);
    KnownActionsSize(rule, After(rule, past + [e]), rest);
    if i > 0 { KnownActionsAt(rule, past + [e], rest, i - 1); }
  }

  lemma KnownActionsCons(rule: Rule, s: Status, events: seq<Event>)
    requires events != []
    ensures KnownActions(rule, s, events)
         == (if IsUnknown(events[0]) then [] else [Step(rule, s, events[0]).1])
            + KnownActions(rule, Step(rule, s, events[0]).0, events[1..])
  {
  }

  lemma {:induction false} KnownActionsSize(rule: Rule, s: Status, events: seq<Event>)
    ensures |KnownActions(rule, s, events)| == |Known(events)|
    decreases |events|
  {
    hide Step;
    if events != [] {
      KnownCons(events);
      KnownActionsSize(rule, Step(rule, s, events[0]).0, events[1..]);
    }
  }

  /** What is done at an event is what is done there with the Unknown results deleted. */
  ghost predicate SameWithout(rule: Rule, events: seq<Event>, i: nat)
    requires i < |events|
  {
    Rank(events, i) < |Known(events)| && ActionAt(rule, events, i) == ActionAt(rule, Known(events), Rank(events, i))
  }

  /** Event by event: deleting the Unknown results changes nothing at any other event, exactly
      unless the run is spoiled. */
  lemma SameWithoutUnknowns(rule: Rule, events: seq<Event>)
    ensures (forall i :: 0 <= i < |events| && !IsUnknown(events[i]) ==> SameWithout(rule, events, i)) <==> !Spoiled(events, 0, 0)
  {
    hide Known, KnownActions, Actions, ActionAt, After, Step, Spoiled, Rank;
    var known, x, y := Known(events), KnownActions(rule, FRESH, events), Actions(rule, FRESH, Known(events));
    UnknownsDoNotMatter(rule, events);
    KnownActionsSize(rule, FRESH, events);
    ActionsSize(rule, FRESH, known);
    assert After(rule, []) == FRESH by { NothingYet(rule); }
    assert [] + events == events && [] + known == known;
    forall i | 0 <= i < |events| && !IsUnknown(events[i])
      ensures Rank(events, i) < |known|
      ensures SameWithout(rule, events, i) <==> x[Rank(events, i)] == y[Rank(events, i)]
    {
      KnownActionsAt(rule, [], events, i);
      ActionsAt(rule, [], known, Rank(events, i));
    }
    if forall i :: 0 <= i < |events| && !IsUnknown(events[i]) ==> SameWithout(rule, events, i) {
      forall k | 0 <= k < |x|
        ensures x[k] == y[k]
      {
        var i := Ranked(events, k);
        assert SameWithout(rule, events, i);
      }
      assert x == y;
    }
  }

  lemma NothingYet(rule: Rule)
    ensures After(rule, []) == FRESH
  {
  }

  lemma {:induction false} ActionsSize(rule: Rule, s: Status, events: seq<Event>)
    ensures |Actions(rule, s, events)| == |events|
    decreases |events|
  {
    hide Step;
    if events != [] { ActionsSize(rule, Step(rule, s, events[0]).0, events[1..]); }
  }

  // ---------------------------------------------------------------- exactly when something is done

  /** Three errors in a row: the rule has been disabled. */
  ghost predicate ThreeErrors(events: seq<Event>) {
    exists i: nat :: i + 2 < |events| && events[i].Errored? && events[i + 1].Errored? && events[i + 2].Errored?
  }

  function TrailingErrors(events: seq<Event>): nat {
    if events == [] || !events[|events| - 1].Errored? then 0 else 1 + TrailingErrors(events[..|events| - 1])
  }

  lemma {:induction false} EnabledExactly(rule: Rule, events: seq<Event>)
    ensures After(rule, events).enabled <==> !ThreeErrors(events)
    ensures !ThreeErrors(events) ==> After(rule, events).errors == TrailingErrors(events) < 3
  {
    hide Notifies, ThreeErrors, TrailingErrors;
    if events == [] {
      NoErrors();
    } else {
      var init := events[..|events| - 1];
      EnabledExactly(rule, init);
      ErrorsNext(events);
    }
  }

  lemma NoErrors()
    ensures !ThreeErrors([]) && TrailingErrors([]) == 0
  {
  }

  lemma ErrorsNext(events: seq<Event>)
    requires events != []
    ensures var n := |events| - 1; var init, last := events[..n], events[n];
      && (ThreeErrors(events) <==> ThreeErrors(init) || (last.Errored? && TrailingErrors(init) >= 2))
      && TrailingErrors(events) == if last.Errored? then 1 + TrailingErrors(init) else 0
  {
    var n := |events| - 1;
    var init, last := events[..n], events[n];
    if ThreeErrors(init) {
      var i: nat :| i + 2 < n && init[i].Errored? && init[i + 1].Errored? && init[i + 2].Errored?;
      assert events[i].Errored? && events[i + 1].Errored? && events[i + 2].Errored?;
    }
    if last.Errored? && TrailingErrors(init) >= 2 {
      assert init[..n - 1][|init[..n - 1]| - 1] == events[n - 2];
      assert events[n - 2].Errored? && events[n - 2 + 1].Errored? && events[n - 2 + 2].Errored?;
    }
    if ThreeErrors(events) && !ThreeErrors(init) {
      var i: nat :| i + 2 < |events| && events[i].Errored? && events[i + 1].Errored? && events[i + 2].Errored?;
      assert forall k :: 0 <= k < n ==> init[k] == events[k];
      assert i + 2 == n && init[..n - 1][n - 2] == events[n - 2] && init[n - 1] == events[n - 1];
    }
  }

  /** When a breach is to be notified, in terms of the run so far. */
  ghost predicate Due(rule: Rule, events: seq<Event>, j: nat)
    requires j < |events|
  {
    && IsTrue(events[j]) && !ThreeErrors(events[..j])
    && Breaches(events[..j + 1]) >= rule.forSteps
    && (rule.mode == Edge ==> FalseSinceFires(rule, events, j))
    && (rule.mode == Level && rule.cooldown.Some? && rule.cooldown.value != 0.0 ==> Cooled(rule, events, j))
    && (rule.maxFires.Some? ==> FireCount(rule, events[..j]) < rule.maxFires.value)
  }

  ghost predicate FalseSinceFires(rule: Rule, events: seq<Event>, j: nat)
    requires j < |events|
  {
    forall i: nat :: i < j && FiredAt(rule, events, i) ==> exists k :: i < k < j && IsFalse(events[k])
  }

  ghost predicate Cooled(rule: Rule, events: seq<Event>, j: nat)
    requires j < |events| && events[j].Evaluated? && rule.cooldown.Some?
  {
    forall i: nat :: i < j && FiredAt(rule, events, i) && events[i].Evaluated? && NoneBetween(rule, events, i, j) ==>
      events[j].now - events[i].now >= rule.cooldown.value
  }

  /** A breach is notified exactly when it is due, and counts as a fire exactly if delivered. */
  lemma BreachExactly(rule: Rule, events: seq<Event>, j: nat)
    requires j < |events|
    ensures ActionAt(rule, events, j).Breach? <==> Due(rule, events, j)
    ensures FiredAt(rule, events, j) <==> Due(rule, events, j) && events[j].delivered
  {
    hide After, KnowsLast, KnowsFiring, FireCount, Breaches, ThreeErrors, FalseSinceFires, Cooled, Notifies;
    var past, e := events[..j], events[j];
    var s := After(rule, past);
    Accounted(rule, past);
    EnabledExactly(rule, past);
    if IsTrue(e) && s.enabled {
      BreachesNext(events, j);
      FiringSince(rule, events, j, s);
      if rule.cooldown.Some? { CooledSince(rule, events, j, s); }
      NotifiesMeans(rule, s.(errors := 0, consecutive := s.consecutive + 1), e.now);
    }
  }

  lemma NotifiesMeans(rule: Rule, s: Status, now: real)
    ensures Notifies(rule, s, now) <==>
      && s.consecutive >= rule.forSteps
      && (rule.mode == Edge ==> !s.firing)
      && (rule.mode == Level && rule.cooldown.Some? && rule.cooldown.value != 0.0 ==>
            s.lastFire.Some? ==> now - s.lastFire.value >= rule.cooldown.value)
      && (rule.maxFires.Some? ==> s.fires < rule.maxFires.value)
  {
  }

  lemma BreachesNext(events: seq<Event>, j: nat)
    requires j < |events| && IsTrue(events[j])
    ensures Breaches(events[..j + 1]) == Breaches(events[..j]) + 1
  {
    assert events[..j + 1][..j] == events[..j];
  }

  lemma FiringSince(rule: Rule, events: seq<Event>, j: nat, s: Status)
    requires j < |events| && s.enabled && KnowsFiring(rule, events[..j], s)
    ensures s.firing <==> !FalseSinceFires(rule, events, j)
  {
    hide FiredAt;
    SameFires(rule, events, j);
    forall i: nat | i < j
      ensures FalseAfter(events[..j], i) <==> exists k :: i < k < j && IsFalse(events[k])
    {
      assert forall k :: 0 <= k < j ==> events[..j][k] == events[k];
    }
    forall i: nat | FiredAt(rule, events[..j], i) ensures i < j { FiredInside(rule, events[..j], i); }
  }

  lemma CooledSince(rule: Rule, events: seq<Event>, j: nat, s: Status)
    requires j < |events| && events[j].Evaluated? && rule.cooldown.Some? && KnowsLast(rule, events[..j], s)
    ensures (s.lastFire.Some? ==> events[j].now - s.lastFire.value >= rule.cooldown.value) <==> Cooled(rule, events, j)
  {
    hide FiredAt;
    var past := events[..j];
    SameFires(rule, events, j);
    forall i: nat | FiredAt(rule, past, i) ensures i < j { FiredInside(rule, past, i); }
    if s.lastFire.Some? {
      var l: nat :| LastWas(rule, past, l, s.lastFire.value);
      assert events[l] == past[l] && NoneBetween(rule, events, l, j);
      forall i: nat | i < j && FiredAt(rule, events, i) && NoneBetween(rule, events, i, j)
        ensures i == l
      {
      }
    }
  }

  /** A recovery is notified exactly at a False result after a fire with none between, if asked for. */
  lemma RecoveryExactly(rule: Rule, events: seq<Event>, j: nat)
    requires j < |events|
    ensures ActionAt(rule, events, j) == Recovery <==>
      && IsFalse(events[j]) && rule.notifyRecovery && !ThreeErrors(events[..j])
      && exists i: nat :: i < j && FiredAt(rule, events, i) && forall k :: i < k < j ==> !IsFalse(events[k])
  {
    hide After, KnowsLast, KnowsFiring, ThreeErrors, Notifies, FiredAt;
    var past := events[..j];
    var s := After(rule, past);
    Accounted(rule, past);
    EnabledExactly(rule, past);
    if s.enabled {
      FiringSince(rule, events, j, s);
      StillFiring(rule, events, j);
    }
  }

  lemma StillFiring(rule: Rule, events: seq<Event>, j: nat)
    requires j < |events|
    ensures !FalseSinceFires(rule, events, j) <==>
      exists i: nat :: i < j && FiredAt(rule, events, i) && forall k :: i < k < j ==> !IsFalse(events[k])
  {
    hide FiredAt;
  }

  /** Every error is reported, the third in a row as the last; after it nothing is evaluated. */
  lemma FailureExactly(rule: Rule, events: seq<Event>, j: nat)
    requires j < |events|
    ensures ActionAt(rule, events, j) == Skipped <==> ThreeErrors(events[..j])
    ensures ActionAt(rule, events, j).Failure? <==> events[j].Errored? && !ThreeErrors(events[..j])
    ensures ActionAt(rule, events, j).Failure? ==> ActionAt(rule, events, j).disabled == ThreeErrors(events[..j + 1])
  {
    hide After, ThreeErrors, TrailingErrors, Notifies;
    EnabledExactly(rule, events[..j]);
    ErrorsNext(events[..j + 1]);
    assert events[..j + 1][..j] == events[..j];
  }

  /** Error, error, Unknown, error leaves a rule enabled; without the Unknown it is disabled. */
  lemma UnknownSparesRule(rule: Rule, now: real)
    ensures var run := [Errored, Errored, Evaluated(None, now, true), Errored];
      Spoiled(run, 0, 0) && After(rule, run).enabled && !After(rule, Known(run)).enabled
  {
    hide After, Known, Spoiled;
    var unknown := Evaluated(None, now, true);
    var run := [Errored, Errored, unknown, Errored];
    assert run == [Errored] + ([Errored] + ([unknown] + ([Errored] + [])));
    KnownErrored([Errored] + ([unknown] + ([Errored] + [])), 0, 0);
    KnownErrored([unknown] + ([Errored] + []), 1, 1);
    KnownUnknown(now, [Errored] + []);
    KnownErrored([], 2, 0);
    KnownNothing();
    EnabledExactly(rule, run);
    var known := Known(run);
    assert known == [Errored] + ([Errored] + ([Errored] + []));
    assert known[0].Errored? && known[0 + 1].Errored? && known[0 + 2].Errored?;
    EnabledExactly(rule, known);
  }

  lemma KnownErrored(rest: seq<Event>, apart: nat, together: nat)
    ensures Known([Errored] + rest) == [Errored] + Known(rest)
    ensures Spoiled([Errored] + rest, apart, together)
         <==> if apart + 1 >= 3 then together + 1 < 3 else Spoiled(rest, apart + 1, together + 1)
  {
    assert ([Errored] + rest)[1..] == rest;
  }

  lemma KnownUnknown(now: real, rest: seq<Event>)
    ensures Known([Evaluated(None, now, true)] + rest) == Known(rest)
    ensures Spoiled([Evaluated(None, now, true)] + rest, 2, 2) <==> Spoiled(rest, 2, 0)
  {
    assert ([Evaluated(None, now, true)] + rest)[1..] == rest;
  }
}
