/** The three-valued logic of alert expressions: strong Kleene connectives, monotonicity, and
    printing that keeps the meaning. */
module AlertLogic {
  import opened Floats
  import opened Results
  import opened AlertNodes
  import opened AlertValues
  import opened AlertEval
  import Printer = AlertPrinter
  import Parser = AlertParser
  import RoundTrips = AlertRoundTrip

  // ---------------------------------------------------------------- strong Kleene connectives

  /** The strong Kleene conjunction or disjunction of two truth values. */
  function Kleene(c: Connective, a: Option<bool>, b: Option<bool>): Option<bool> {
    if a == Some(c.Or?) || b == Some(c.Or?) then Some(c.Or?)
    else if a.None? || b.None? then None
    else Some(!c.Or?)
  }

  function KleeneAll(c: Connective, truths: seq<Option<bool>>): Option<bool> {
    if truths == [] then Some(!c.Or?) else Kleene(c, truths[0], KleeneAll(c, truths[1..]))
  }

  /** The flag loop of a Boolean node computes the strong Kleene connective of all operands. */
  lemma {:induction false} ConnectedIsKleene(c: Connective, truths: seq<Option<bool>>)
    ensures Connected(c, truths).Truth() == KleeneAll(c, truths)
  {
    if truths != [] {
      ConnectedIsKleene(c, truths[1..]);
      assert truths == [truths[0]] + truths[1..];
      assert Some(c.Or?) in truths <==> truths[0] == Some(c.Or?) || Some(c.Or?) in truths[1..];
      assert None in truths <==> truths[0].None? || None in truths[1..];
    }
  }

  /** ... in any order. */
  lemma ConnectedAnyOrder(c: Connective, a: seq<Option<bool>>, b: seq<Option<bool>>)
    requires multiset(a) == multiset(b)
    ensures Connected(c, a) == Connected(c, b)
  {
    assert forall t :: t in a <==> t in multiset(a);
    assert forall t :: t in b <==> t in multiset(b);
  }

  // ---------------------------------------------------------------- monotonicity

  ghost predicate Definite(v: Value) { v.Truth().Some? }

  /** What was definite stays as it is. */
  ghost predicate Sharpens(a: Value, b: Value) { Definite(a) ==> a == b }

  ghost predicate SharpensOutcome(a: Outcome, b: Outcome) {
    if a.Err? then b == a else b.Ok? && Sharpens(a.value, b.value)
  }

  function LatestOutcome(ctx: Context, name: string): Outcome {
    var p := ctx.Latest(name); if p.Err? then Err(p.error) else Ok(Metricly(p.value))
  }

  function RangeOutcome(ctx: Context, name: string, count: Option<int>, duration: Option<Float>): Outcome {
    var p := ctx.Points(name, count, duration); if p.Err? then Err(p.error) else Ok(LastValue(p.value))
  }

  /** One run knows all that another knows about its metrics, and perhaps more. */
  ghost predicate Informs(less: Context, more: Context) {
    && (forall name :: SharpensOutcome(LatestOutcome(less, name), LatestOutcome(more, name)))
    && (forall name, count, duration ::
          SharpensOutcome(RangeOutcome(less, name, count, duration), RangeOutcome(more, name, count, duration)))
  }

  /** Literals, metrics, windows, negation, arithmetic, comparison, not, and, or. */
  predicate CallFree(n: Node) {
    match n
    case Call(_, _) => false
    case Negative(x) => CallFree(x)
    case Binary(_, x, y) => CallFree(x) && CallFree(y)
    case BoolOp(_, values) => forall i :: 0 <= i < |values| ==> CallFree(values[i])
    case Not(x) => CallFree(x)
    case _ => true
  }

  ghost predicate TruthSharpens(a: Option<bool>, b: Option<bool>) { a.Some? ==> b == a }

  /** Learning more never changes a definite result. */
  lemma {:induction false} Monotone(n: Node, less: Context, more: Context)
    requires CallFree(n) && Informs(less, more)
    ensures SharpensOutcome(Eval(n, less), Eval(n, more))
    decreases n
  {
    hide Informs, Connected, Operate;
    match n
    case Literal(_) =>
    case MetricRef(name) => assert SharpensOutcome(LatestOutcome(less, name), LatestOutcome(more, name)) by { Informed(less, more); }
    case RangeRef(name, count, duration) =>
      assert SharpensOutcome(RangeOutcome(less, name, count, duration), RangeOutcome(more, name, count, duration)) by {
        Informed(less, more);
      }
    case Not(x) => Monotone(x, less, more);
    case Negative(x) => Monotone(x, less, more);
    case Binary(op, x, y) =>
      Monotone(x, less, more);
      Monotone(y, less, more);
      if Eval(x, less).Ok? && Eval(y, less).Ok? {
        OperateSharpens(op, Eval(x, less).value, Eval(y, less).value, Eval(x, more).value, Eval(y, more).value);
      }
    case BoolOp(c, values) =>
      MonotoneAll(values, less, more);
      if Truths(values, less).Ok? { ConnectedSharpens(c, Truths(values, less).value, Truths(values, more).value); }
  }

  lemma Informed(less: Context, more: Context)
    requires Informs(less, more)
    ensures forall name :: SharpensOutcome(LatestOutcome(less, name), LatestOutcome(more, name))
    ensures forall name, count, duration ::
      SharpensOutcome(RangeOutcome(less, name, count, duration), RangeOutcome(more, name, count, duration))
  {
  }

  lemma OperateSharpens(op: Operator, a: Value, b: Value, a': Value, b': Value)
    requires Sharpens(a, a') && Sharpens(b, b')
    ensures Sharpens(Operate(op, a.Number(), b.Number()), Operate(op, a'.Number(), b'.Number()))
  {
    hide Modulo;
  }

  lemma {:induction false} MonotoneAll(nodes: seq<Node>, less: Context, more: Context)
    requires Informs(less, more) && forall i :: 0 <= i < |nodes| ==> CallFree(nodes[i])
    ensures var a, b := Truths(nodes, less), Truths(nodes, more);
      if a.Err? then b == a
      else b.Ok? && |a.value| == |b.value| && forall i :: 0 <= i < |a.value| ==> TruthSharpens(a.value[i], b.value[i])
    decreases nodes
  {
    hide Eval, Informs, CallFree;
    if nodes != [] {
      Monotone(nodes[0], less, more);
      MonotoneAll(nodes[1..], less, more);
    }
  }

  lemma ConnectedSharpens(c: Connective, a: seq<Option<bool>>, b: seq<Option<bool>>)
    requires |a| == |b| && forall i :: 0 <= i < |a| ==> TruthSharpens(a[i], b[i])
    ensures Sharpens(Connected(c, a), Connected(c, b))
  {
    if Some(c.Or?) in a {
      var i :| 0 <= i < |a| && a[i] == Some(c.Or?);
      assert TruthSharpens(a[i], b[i]);
    } else if None !in a {
      forall i | 0 <= i < |a|
        ensures a[i] == b[i]
      {
        assert a[i] in a && TruthSharpens(a[i], b[i]);
      }
      assert a == b;
    }
  }

  /** With `has` it is different: a metric that appears turns a definite no into a yes. */
  lemma HasIsNotMonotone(name: string) returns (less: Context, more: Context)
    ensures Informs(less, more)
    ensures Eval(Call("has", [MetricRef(name)]), less) == Ok(Bool(false))
    ensures Eval(Call("has", [MetricRef(name)]), more) == Ok(Bool(true))
  {
    less := NoRun();
    more := less.(resolve := key => Ok(Some(key)));
    var n := Call("has", [MetricRef(name)]);
    assert Inner(n, less) == AboutMetric("has", name, less);
    assert Inner(n, more) == AboutMetric("has", name, more);
  }

  // ---------------------------------------------------------------- printing keeps the meaning

  /** The same error, or the same number: a truth value may come back as one or zero. */
  ghost predicate Alike(a: Outcome, b: Outcome) {
    if a.Err? then b == a else b.Ok? && a.value.Number() == b.value.Number()
  }

  /** Operand lists no connective can tell apart. */
  ghost predicate SameTo(c: Connective, a: seq<Option<bool>>, b: seq<Option<bool>>) {
    && (Some(c.Or?) in a <==> Some(c.Or?) in b)
    && (Some(c.Or?) !in a ==> (None in a <==> None in b))
  }

  lemma {:induction false} TruthsConcat(a: seq<Node>, b: seq<Node>, ctx: Context)
    ensures Truths(a + b, ctx)
         == if Truths(a, ctx).Err? then Truths(a, ctx)
            else if Truths(b, ctx).Err? then Truths(b, ctx)
            else Ok(Truths(a, ctx).value + Truths(b, ctx).value)
  {
    hide Eval;
    if a == [] {
      assert a + b == b;
      if Truths(b, ctx).Ok? { assert [] + Truths(b, ctx).value == Truths(b, ctx).value; }
    } else {
      TruthsConcat(a[1..], b, ctx);
      assert (a + b)[1..] == a[1..] + b;
      var v, x, y := Eval(a[0], ctx), Truths(a[1..], ctx), Truths(b, ctx);
      if v.Ok? && x.Ok? && y.Ok? {
        assert [v.value.Truth()] + (x.value + y.value) == ([v.value.Truth()] + x.value) + y.value;
      }
    }
  }

  lemma TruthsOne(n: Node, ctx: Context)
    ensures Truths([n], ctx)
         == if Eval(n, ctx).Err? then Err(Eval(n, ctx).error) else Ok([Eval(n, ctx).value.Truth()])
  {
    hide Eval;
    assert [n][1..] == [];
    var none: seq<Node> := [];
    assert Truths(none, ctx) == Ok([]);
    if Eval(n, ctx).Ok? { assert [Eval(n, ctx).value.Truth()] + [] == [Eval(n, ctx).value.Truth()]; }
  }

  /** What is read back after printing evaluates the same, in every run. */
  lemma {:induction false} NormEvaluates(n: Node, ctx: Context)
    ensures Alike(Eval(n, ctx), Eval(Printer.Norm(n), ctx))
    ensures MetricName(Printer.Norm(n)) == MetricName(n)
    ensures n.MetricRef? || n.RangeRef? ==> Printer.Norm(n) == n
    decreases n, 2
  {
    hide Connected, Operate, FunctionMeta, AboutRun, AboutMetric, NoData, Scalarly, AllKnown, Truths, Numbers, NodePoints;
    match n
    case Literal(_) => LiteralEvaluates(n, ctx);
    case MetricRef(_) =>
    case RangeRef(_, _, _) =>
    case Not(x) => NormEvaluates(x, ctx);
    case Negative(x) => NormEvaluates(x, ctx);
    case Binary(_, x, y) => NormEvaluates(x, ctx); NormEvaluates(y, ctx);
    case BoolOp(c, values) => OperandsEvaluate(c, values, ctx); JoinedSame(n, Printer.Norm(n), ctx);
    case Call(func, args) => CallEvaluates(n, ctx);
  }

  lemma LiteralEvaluates(n: Node, ctx: Context)
    requires n.Literal?
    ensures Alike(Eval(n, ctx), Eval(Printer.Norm(n), ctx))
    ensures MetricName(Printer.Norm(n)) == None
  {
    match n.value
    case Number(Finite(r)) =>
      if r < 0.0 {
        var positive := Literal(AlertNodes.Number(Finite(-r)));
        assert Eval(positive, ctx) == Ok(Num(Finite(-r)));
        assert Inner(Negative(positive), ctx) == Ok(Num(Finite(r)));
      }
    case _ =>
  }

  lemma JoinedSame(n: Node, m: Node, ctx: Context)
    requires n.BoolOp? && m.BoolOp? && n.connective == m.connective
    requires SameTruths(n.connective, Truths(n.values, ctx), Truths(m.values, ctx))
    ensures Alike(Eval(n, ctx), Eval(m, ctx))
  {
    hide Truths;
  }

  ghost predicate SameTruths(c: Connective, a: Result<seq<Option<bool>>, Failure>, b: Result<seq<Option<bool>>, Failure>) {
    if a.Err? then b == a else b.Ok? && SameTo(c, a.value, b.value)
  }

  lemma {:induction false} OperandsEvaluate(c: Connective, values: seq<Node>, ctx: Context)
    ensures SameTruths(c, Truths(values, ctx), Truths(Printer.Operands(c, values), ctx))
    decreases values, 0
  {
    hide Eval, Truths, Connected, Printer.Norm;
    if values == [] {
    } else {
      var v, rest := values[0], values[1..];
      var item := RoundTrips.Item(c, v);
      RoundTrips.OperandsCons(c, values);
      ItemEvaluates(c, v, ctx);
      OperandsEvaluate(c, rest, ctx);
      TruthsConcat(item, Printer.Operands(c, rest), ctx);
      TruthsConcat([v], rest, ctx);
      assert values == [v] + rest;
    }
  }

  lemma {:induction false} ItemEvaluates(c: Connective, v: Node, ctx: Context)
    ensures SameTruths(c, Truths([v], ctx), Truths(RoundTrips.Item(c, v), ctx))
    decreases v, 3
  {
    hide Truths, Connected;
    TruthsOne(v, ctx);
    if v.BoolOp? && v.connective == c {
      OperandsEvaluate(c, v.values, ctx);
      assert Inner(v, ctx) == Joined(c, Truths(v.values, ctx));
      if Truths(v.values, ctx).Ok? { JoinedAsOne(c, Truths(v.values, ctx).value); }
    } else {
      NormEvaluates(v, ctx);
      TruthsOne(Printer.Norm(v), ctx);
    }
  }

  /** A nested connective counts like its operands. */
  lemma JoinedAsOne(c: Connective, truths: seq<Option<bool>>)
    ensures SameTo(c, [Connected(c, truths).Truth()], truths)
  {
  }

  lemma {:induction false} NumbersEvaluate(nodes: seq<Node>, ctx: Context)
    ensures |Printer.Norms(nodes)| == |nodes|
    ensures forall i :: 0 <= i < |nodes| ==> Printer.Norms(nodes)[i] == Printer.Norm(nodes[i])
    ensures Numbers(Printer.Norms(nodes), ctx) == Numbers(nodes, ctx)
    decreases nodes, 0
  {
    hide Eval, Printer.Norm;
    if nodes != [] {
      NormEvaluates(nodes[0], ctx);
      NumbersEvaluate(nodes[1..], ctx);
      assert Printer.Norms(nodes)[1..] == Printer.Norms(nodes[1..]);
    }
  }

  lemma {:induction false} CallEvaluates(n: Node, ctx: Context)
    requires n.Call?
    ensures Alike(Eval(n, ctx), Eval(Printer.Norm(n), ctx))
    decreases n, 1
  {
    hide Connected, Operate, FunctionMeta, AboutRun, AboutMetric, NoData, Scalarly, AllKnown, Truths, Numbers, Inner, Windowed,
         NodePoints, MetricName;
    var func, args := n.func, n.args;
    var args' := Printer.Norms(args);
    NumbersEvaluate(args, ctx);
    if args != [] {
      NormEvaluates(args[0], ctx);
      NumbersEvaluate(args[1..], ctx);
      assert args'[1..] == Printer.Norms(args[1..]);
      SamePoints(args[0], ctx);
    }
    SameCalls(func, args, args', ctx);
  }

  lemma SamePoints(n: Node, ctx: Context)
    ensures forall fallback :: NodePoints(Printer.Norm(n), ctx, fallback) == NodePoints(n, ctx, fallback)
  {
  }

  lemma SameCalls(func: string, args: seq<Node>, args': seq<Node>, ctx: Context)
    requires |args'| == |args| && Numbers(args', ctx) == Numbers(args, ctx)
    requires args != [] ==>
      && Alike(Eval(args[0], ctx), Eval(args'[0], ctx))
      && MetricName(args'[0]) == MetricName(args[0])
      && Numbers(args'[1..], ctx) == Numbers(args[1..], ctx)
      && forall fallback :: NodePoints(args'[0], ctx, fallback) == NodePoints(args[0], ctx, fallback)
    ensures Inner(Call(func, args'), ctx) == Inner(Call(func, args), ctx)
  {
    hide FunctionMeta, AboutRun, AboutMetric, NoData, Scalarly, AllKnown, Numbers, Eval, NodePoints, MetricName;
  }

  /** Whatever is printed and parsed again means what it meant. */
  lemma ReprintedMeansTheSame(n: Node, m: Node, ctx: Context)
    requires Printer.Sound(n) && Metrics(n) !! Printer.RESERVED && Parser.Parse(Printer.Printed(n)) == Ok(m)
    ensures Alike(Eval(n, ctx), Eval(m, ctx))
  {
    RoundTrips.RoundTrip(n);
    NormEvaluates(n, ctx);
  }
}
