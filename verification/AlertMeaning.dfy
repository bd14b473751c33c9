/** What evaluating an alert expression comes to, said in plain arithmetic and logic. */
module AlertMeaning {
  import opened Floats
  import opened Results
  import opened AlertNodes
  import opened AlertValues
  import opened AlertEval

  // ---------------------------------------------------------------- operators

  /** The operands' difference decides comparisons; sums, products and quotients undo each other. */
  ghost predicate Arithmetic(op: Operator, u: real, v: real, r: Value) {
    match op
    case Gt => r == Bool(u - v > 0.0)
    case Lt => r == Bool(v - u > 0.0)
    case Ge => r == Bool(!(v - u > 0.0))
    case Le => r == Bool(!(u - v > 0.0))
    case Eq => r == Bool(!(u - v > 0.0) && !(v - u > 0.0))
    case Ne => r == Bool(u - v > 0.0 || v - u > 0.0)
    case Add => exists w :: r == Num(Finite(w)) && w - v == u
    case Sub => exists w :: r == Num(Finite(w)) && w + v == u
    case Mul => exists w :: r == Num(Finite(w)) && (if v == 0.0 then w == 0.0 else w / v == u)
    case Div => if v == 0.0 then r == Unknown else exists w :: r == Num(Finite(w)) && w * v == u
    case Mod =>
      if v == 0.0 then r == Unknown
      else exists w, k: int :: r == Num(Finite(w)) && Left(u, v, k) == w && (if v > 0.0 then 0.0 <= w < v else v < w <= 0.0)
  }

  lemma OperateMeans(op: Operator, u: real, v: real)
    ensures Arithmetic(op, u, v, Operate(op, Some(Finite(u)), Some(Finite(v))))
  {
    var r := Operate(op, Some(Finite(u)), Some(Finite(v)));
    match op
    case Add => assert r == Num(Finite(u + v));
    case Sub => assert r == Num(Finite(u - v));
    case Mul =>
      OperateMul(u, v);
    case Div =>
      if v != 0.0 {
        Multiplied(u, v);
        assert r == Num(Finite(u / v));
      }
    case Mod =>
      if v != 0.0 {
        ModuloIsFloored(u, v);
        assert r == Num(Finite(Modulo(u, v))) && Left(u, v, (u / v).Floor) == Modulo(u, v);
      }
    case _ =>
  }

  lemma OperateMul(u: real, v: real)
    ensures Arithmetic(Mul, u, v, Operate(Mul, Some(Finite(u)), Some(Finite(v))))
  {
    hide Product;
    var w := Product(u, v);
    assert Operate(Mul, Some(Finite(u)), Some(Finite(v))) == Num(Finite(w));
    ProductMeans(u, v);
  }

  lemma ProductMeans(u: real, v: real)
    ensures if v == 0.0 then Product(u, v) == 0.0 else Product(u, v) / v == u
  {
  }

  lemma Multiplied(u: real, v: real)
    requires v != 0.0
    ensures u / v * v == u
  {
  }

  predicate Numeral(v: Value, u: real) {
    match v
    case Unknown => false
    case Num(n) => n == Finite(u)
    case Bool(b) => u == if b then 1.0 else 0.0
  }

  /** One operator on what two operands came to. */
  ghost predicate Operates(op: Operator, a: Outcome, b: Outcome, r: Outcome) {
    if a.Err? then r == a
    else if b.Err? then r == b
    else
      && r.Ok?
      && (forall u, v :: Numeral(a.value, u) && Numeral(b.value, v) ==> Arithmetic(op, u, v, r.value))
      && ((forall u :: !Numeral(a.value, u)) || (forall v :: !Numeral(b.value, v)) ==> r.value == Unknown)
  }

  lemma OperatesOn(op: Operator, a: Value, b: Value)
    ensures Operates(op, Ok(a), Ok(b), Ok(Operate(op, a.Number(), b.Number())))
  {
    hide Arithmetic, Operate;
    forall u, v | Numeral(a, u) && Numeral(b, v)
      ensures Arithmetic(op, u, v, Operate(op, a.Number(), b.Number()))
    {
      OperateMeans(op, u, v);
    }
    if a.Number().Some? && a.Number().value.Finite? { assert Numeral(a, a.Number().value.r); }
    if b.Number().Some? && b.Number().value.Finite? { assert Numeral(b, b.Number().value.r); }
    OperateUnknown(op, a.Number(), b.Number());
  }

  lemma OperateUnknown(op: Operator, x: Option<Float>, y: Option<Float>)
    ensures x.None? || y.None? || !x.value.Finite? || !y.value.Finite? ==> Operate(op, x, y) == Unknown
  {
  }

  /** Comparisons and arithmetic, interpreted. */
  lemma BinaryMeans(op: Operator, x: Node, y: Node, ctx: Context)
    ensures Operates(op, Eval(x, ctx), Eval(y, ctx), Eval(Binary(op, x, y), ctx))
  {
    hide Operate, Operates;
    var a, b := Eval(x, ctx), Eval(y, ctx);
    if a.Ok? && b.Ok? { OperatesOn(op, a.value, b.value); } else { OperatesFails(op, a, b); }
  }

  lemma OperatesFails(op: Operator, a: Outcome, b: Outcome)
    requires a.Err? || b.Err?
    ensures Operates(op, a, b, if a.Err? then a else b)
  {
  }

  /** And compiled. */
  lemma PlanBinaryMeans(op: Operator, p: Plan, q: Plan, ctx: Context)
    requires Safe(p) && Safe(q)
    ensures Operates(op, RunPlan(p, ctx), RunPlan(q, ctx), RunPlan(PlanBinary(op, p, q), ctx))
  {
    hide Operate, Operates, Safe;
    assert Safe(PlanBinary(op, p, q)) by { SafeBinary(op, p, q); }
    var a, b := RunPlan(p, ctx), RunPlan(q, ctx);
    if a.Ok? && b.Ok? { OperatesOn(op, a.value, b.value); } else { OperatesFails(op, a, b); }
  }

  lemma SafeBinary(op: Operator, p: Plan, q: Plan)
    requires Safe(p) && Safe(q)
    ensures Safe(PlanBinary(op, p, q))
  {
  }

  // ---------------------------------------------------------------- signs and truth

  /** A number and its negation add up to nothing; infinities change sides. */
  ghost predicate Negates(a: Outcome, r: Outcome) {
    if a.Err? then r == a
    else
      match a.value
      case Unknown => r == Ok(Unknown)
      case Num(Finite(u)) => exists w :: r == Ok(Num(Finite(w))) && u + w == 0.0
      case Num(NaN) => r == Ok(Num(NaN))
      case Num(Infinite(negative)) => r == Ok(Num(Infinite(!negative)))
      case Bool(b) => r == Ok(Num(Finite(if b then -1.0 else 0.0)))
  }

  lemma NegativeMeans(x: Node, ctx: Context)
    ensures Negates(Eval(x, ctx), Eval(Negative(x), ctx))
  {
    var a := Eval(x, ctx);
    if a.Ok? && a.value.Num? && a.value.n.Finite? {
      assert Eval(Negative(x), ctx) == Ok(Num(Finite(-a.value.n.r)));
    }
  }

  lemma PlanNegativeMeans(p: Plan, ctx: Context)
    requires Safe(p)
    ensures Negates(RunPlan(p, ctx), RunPlan(PlanNegative(p), ctx))
  {
    var a := RunPlan(p, ctx);
    if a.Ok? && a.value.Num? && a.value.n.Finite? {
      assert RunPlan(PlanNegative(p), ctx) == Ok(Num(Finite(-a.value.n.r)));
    }
  }

  /** What holds: true, or a finite number that is not zero. */
  predicate Holds(v: Value) {
    v == Bool(true) || (v.Num? && v.n.Finite? && (v.n.r > 0.0 || v.n.r < 0.0))
  }

  /** What does not: false, or zero. */
  predicate Fails(v: Value) { v == Bool(false) || v == Num(Finite(0.0)) }

  /** Of anything else it is unknown whether it holds. */
  lemma TruthMeans(v: Value)
    ensures v.Truth() == (if Holds(v) then Some(true) else if Fails(v) then Some(false) else None)
  {
  }

  ghost predicate Inverts(a: Outcome, r: Outcome) {
    if a.Err? then r == a
    else if Holds(a.value) then r == Ok(Bool(false))
    else if Fails(a.value) then r == Ok(Bool(true))
    else r == Ok(Unknown)
  }

  lemma NotMeans(x: Node, ctx: Context)
    ensures Inverts(Eval(x, ctx), Eval(Not(x), ctx))
  {
    if Eval(x, ctx).Ok? { TruthMeans(Eval(x, ctx).value); }
  }

  lemma PlanNotMeans(p: Plan, ctx: Context)
    requires Safe(p)
    ensures Inverts(RunPlan(p, ctx), RunPlan(PlanNot(p), ctx))
  {
    if RunPlan(p, ctx).Ok? { TruthMeans(RunPlan(p, ctx).value); }
  }

  /** A disjunction holds if one operand does and fails if all do; a conjunction the other way
      round. Otherwise it is unknown. The first error of an operand is the result. */
  ghost predicate Connects(c: Connective, operands: seq<Outcome>, r: Outcome) {
    if exists i :: 0 <= i < |operands| && operands[i].Err? then
      exists i :: 0 <= i < |operands| && operands[i].Err? && r == operands[i] && forall j :: 0 <= j < i ==> operands[j].Ok?
    else
      && r.Ok?
      && (c.Or? ==>
            && (r.value == Bool(true) <==> exists i :: 0 <= i < |operands| && Holds(operands[i].value))
            && (r.value == Bool(false) <==> forall i :: 0 <= i < |operands| ==> Fails(operands[i].value)))
      && (c.And? ==>
            && (r.value == Bool(false) <==> exists i :: 0 <= i < |operands| && Fails(operands[i].value))
            && (r.value == Bool(true) <==> forall i :: 0 <= i < |operands| ==> Holds(operands[i].value)))
      && (r.value.Bool? || r.value == Unknown)
  }

  function Outcomes(nodes: seq<Node>, ctx: Context): (s: seq<Outcome>)
    ensures |s| == |nodes| && forall i :: 0 <= i < |s| ==> s[i] == Eval(nodes[i], ctx)
  {
    seq(|nodes|, i requires 0 <= i < |nodes| => Eval(nodes[i], ctx))
  }

  /** The first operand that fails, and how. */
  ghost predicate FirstFails(nodes: seq<Node>, ctx: Context, e: Failure, i: nat) {
    i < |nodes| && Eval(nodes[i], ctx) == Err(e) && forall j :: 0 <= j < i ==> Eval(nodes[j], ctx).Ok?
  }

  ghost predicate AllTrue(nodes: seq<Node>, ctx: Context, truths: seq<Option<bool>>) {
    |truths| == |nodes| && forall i :: 0 <= i < |nodes| ==> Eval(nodes[i], ctx).Ok? && truths[i] == Eval(nodes[i], ctx).value.Truth()
  }

  lemma {:induction false} TruthsMean(nodes: seq<Node>, ctx: Context)
    ensures var t := Truths(nodes, ctx);
      if t.Ok? then AllTrue(nodes, ctx, t.value) else exists i: nat :: FirstFails(nodes, ctx, t.error, i)
  {
    hide Eval, FirstFails, AllTrue;
    if nodes == [] {
      NothingTrue(ctx);
    } else {
      var rest, t := nodes[1..], Truths(nodes, ctx);
      TruthsMean(rest, ctx);
      if Eval(nodes[0], ctx).Err? {
        FailsAtOnce(nodes, ctx);
      } else if t.Err? {
        var i: nat :| FirstFails(rest, ctx, t.error, i);
        FailsLater(nodes, ctx, t.error, i);
      } else {
        TrueNext(nodes, ctx, Truths(rest, ctx).value);
      }
    }
  }

  lemma NothingTrue(ctx: Context)
    ensures AllTrue([], ctx, [])
  {
  }

  lemma FailsAtOnce(nodes: seq<Node>, ctx: Context)
    requires nodes != [] && Eval(nodes[0], ctx).Err?
    ensures FirstFails(nodes, ctx, Eval(nodes[0], ctx).error, 0)
  {
    hide Eval;
  }

  lemma FailsLater(nodes: seq<Node>, ctx: Context, e: Failure, i: nat)
    requires nodes != [] && Eval(nodes[0], ctx).Ok? && FirstFails(nodes[1..], ctx, e, i)
    ensures FirstFails(nodes, ctx, e, i + 1)
  {
    hide Eval;
    assert forall j :: 0 < j <= i + 1 ==> nodes[j] == nodes[1..][j - 1];
  }

  lemma TrueNext(nodes: seq<Node>, ctx: Context, truths: seq<Option<bool>>)
    requires nodes != [] && Eval(nodes[0], ctx).Ok? && AllTrue(nodes[1..], ctx, truths)
    ensures AllTrue(nodes, ctx, [Eval(nodes[0], ctx).value.Truth()] + truths)
  {
    hide Eval;
    assert forall i :: 0 < i < |nodes| ==> nodes[i] == nodes[1..][i - 1];
  }

  lemma BoolMeans(c: Connective, values: seq<Node>, ctx: Context)
    ensures Connects(c, Outcomes(values, ctx), Eval(BoolOp(c, values), ctx))
  {
    hide Eval, Connected;
    var t, operands := Truths(values, ctx), Outcomes(values, ctx);
    TruthsMean(values, ctx);
    assert Eval(BoolOp(c, values), ctx) == Joined(c, t) by { BoolEval(c, values, ctx); }
    if t.Err? {
      var i: nat :| FirstFails(values, ctx, t.error, i);
      assert operands[i].Err? && forall j :: 0 <= j < i ==> operands[j] == Eval(values[j], ctx);
    } else {
      assert AllTrue(values, ctx, t.value);
      forall i | 0 <= i < |values|
        ensures t.value[i] == Some(true) <==> Holds(operands[i].value)
        ensures t.value[i] == Some(false) <==> Fails(operands[i].value)
      {
        TruthMeans(operands[i].value);
      }
      ConnectedMeans(c, t.value);
    }
  }

  lemma BoolEval(c: Connective, values: seq<Node>, ctx: Context)
    ensures Eval(BoolOp(c, values), ctx) == Joined(c, Truths(values, ctx))
  {
  }

  lemma ConnectedMeans(c: Connective, truths: seq<Option<bool>>)
    ensures var r := Connected(c, truths);
      && (r.Bool? || r == Unknown)
      && (r == Bool(c.Or?) <==> exists i :: 0 <= i < |truths| && truths[i] == Some(c.Or?))
      && (r == Bool(!c.Or?) <==> forall i :: 0 <= i < |truths| ==> truths[i] == Some(!c.Or?))
  {
    if forall i :: 0 <= i < |truths| ==> truths[i] == Some(!c.Or?) {
      assert Some(c.Or?) !in truths && None !in truths;
    } else {
      var i :| 0 <= i < |truths| && truths[i] != Some(!c.Or?);
      assert truths[i] in truths;
      match truths[i]
      case None =>
      case Some(b) => assert b == c.Or?;
    }
  }

  // ---------------------------------------------------------------- metrics

  /** A metric is its newest value, if that is finite. */
  lemma MetricMeans(name: string, ctx: Context)
    ensures Eval(MetricRef(name), ctx) ==
      match ctx.resolve(name)
      case Err(e) => Err(e)
      case Ok(None) => Ok(Unknown)
      case Ok(Some(key)) =>
        match ctx.newest(key)
        case Err(e) => Err(e)
        case Ok(None) => Ok(Unknown)
        case Ok(Some(p)) => Ok(if p.value.Finite? then Num(p.value) else Unknown)
  {
  }

  /** A bare window is the value of its last point. */
  lemma RangeMeans(name: string, count: Option<int>, duration: Option<Float>, ctx: Context, key: string)
    requires count.Some? ==> -I64_MAX - 1 <= count.value <= I64_MAX
    requires ctx.resolve(name) == Ok(Some(key)) && ctx.window(key, count, duration).Ok?
    ensures var points := ctx.window(key, count, duration).value;
      Eval(RangeRef(name, count, duration), ctx) == Ok(if points == [] then Unknown else Num(points[|points| - 1].value))
  {
  }

  // ---------------------------------------------------------------- calls

  /** Apart from errors of the expression, a call never fails. */
  lemma CallShields(func: string, args: seq<Node>, ctx: Context)
    ensures Eval(Call(func, args), ctx).Err? ==> Eval(Call(func, args), ctx).error.BadExpression?
  {
  }

  /** `has` asks whether the run knows a metric, the others about its newest point. */
  lemma AboutMetricMeans(func: string, m: Node, name: string, ctx: Context)
    requires MetricName(m) == Some(name) && ctx.resolve(name).Ok?
    requires func in {"has", "age", "isnan", "isinf"}
    ensures var r := Eval(Call(func, [m]), ctx);
      match ctx.resolve(name).value
      case None => r == Ok(if func == "has" then Bool(false) else Unknown)
      case Some(key) =>
        if func == "has" then r == Ok(Bool(true))
        else if ctx.newest(key).Err? then true
        else
          match ctx.newest(key).value
          case None => r == Ok(Unknown)
          case Some(p) =>
            if func == "isnan" then r == Ok(Bool(p.value == NaN))
            else if func == "isinf" then r == Ok(Bool(p.value == Infinite(true) || p.value == Infinite(false)))
            else ctx.now.Ok? ==> exists age :: r == Ok(Num(Finite(age))) && Lasting(p.time, ctx.now.value, age)
  {
    hide FunctionMeta;
    SpecialMeta(func);
    assert [m][0] == m;
    if func == "age" && ctx.resolve(name).value.Some? {
      var key := ctx.resolve(name).value.value;
      if ctx.newest(key).Ok? && ctx.newest(key).value.Some? && ctx.now.Ok? {
        var p := ctx.newest(key).value.value;
        var age := Positive(ctx.now.value - p.time);
        LastingPositive(p.time, ctx.now.value);
        assert Eval(Call(func, [m]), ctx) == Ok(Num(Finite(age)));
      }
    }
  }

  /** The time from one moment to another, none if it runs backwards. */
  predicate Lasting(from: real, to: real, time: real) { if to > from then from + time == to else time == 0.0 }

  lemma LastingPositive(from: real, to: real)
    ensures Lasting(from, to, Positive(to - from))
  {
  }

  lemma SpecialMeta(func: string)
    ensures func in {"has", "age", "isnan", "isinf", "no_data", "step", "elapsed"} ==>
      FunctionMeta(func).Some? && FunctionMeta(func).value.kind == Special
  {
  }

  /** `step` is the run's step and `elapsed` how long it has lasted. */
  lemma AboutRunMeans(ctx: Context)
    ensures ctx.step.Ok? ==>
      Eval(Call("step", []), ctx) == Ok(if ctx.step.value.None? then Unknown else Num(ctx.step.value.value))
    ensures ctx.now.Ok? && ctx.startedAt.Ok? ==>
      exists time :: Eval(Call("elapsed", []), ctx) == Ok(Num(Finite(time))) && Lasting(ctx.startedAt.value, ctx.now.value, time)
  {
    hide FunctionMeta;
    SpecialMeta("step");
    SpecialMeta("elapsed");
    if ctx.now.Ok? && ctx.startedAt.Ok? {
      var time := Positive(ctx.now.value - ctx.startedAt.value);
      assert Eval(Call("elapsed", []), ctx) == Ok(Num(Finite(time))) && Lasting(ctx.startedAt.value, ctx.now.value, time);
    }
  }

  /** `no_data` holds once the last commit, or else the start, is as long ago as given. */
  lemma NoDataMeans(x: Node, t: real, ctx: Context)
    requires Eval(x, ctx).Ok? && Numeral(Eval(x, ctx).value, t)
    requires ctx.lastCommit.Ok? && ctx.startedAt.Ok? && ctx.now.Ok?
    ensures var since := if ctx.lastCommit.value.Some? then ctx.lastCommit.value.value else ctx.startedAt.value;
      Eval(Call("no_data", [x]), ctx) == Ok(Bool(since + t <= ctx.now.value))
  {
    hide FunctionMeta, Eval;
    SpecialMeta("no_data");
    assert [x][0] == x;
    assert Inner(Call("no_data", [x]), ctx) == NoData(Some(Finite(t)), ctx);
    CallEval("no_data", [x], ctx);
  }

  lemma CallEval(func: string, args: seq<Node>, ctx: Context)
    ensures Inner(Call(func, args), ctx).Ok? ==> Eval(Call(func, args), ctx) == Inner(Call(func, args), ctx)
  {
  }

  const SCALARS := {"abs", "exp", "sqrt", "floor", "ceil", "log"}
  const EXTREMES := {"min", "max"}
  const SUMMARIES := {"mean", "std", "var", "median", "sum", "first", "count", "slope", "zscore", "increasing",
                      "decreasing", "last", "diff", "rate", "pct_change", "ema", "stalled"}

  lemma KindsMean(func: string)
    requires func in SCALARS || func in EXTREMES || func in SUMMARIES
    ensures FunctionMeta(func).Some?
    ensures FunctionMeta(func).value.kind == if func in SCALARS then Scalar else if func in EXTREMES then Dual else Window
    ensures FunctionMeta(func).value.window == Habit(func)
  {
  }

  /** A scalar function is applied to the numbers its arguments come to, in order; an extreme of
      several numbers, or of one that is no metric, as well. */
  lemma ScalarMeans(func: string, x: Node, a: Float, ctx: Context)
    requires func in SCALARS || (func in EXTREMES && MetricName(x).None?)
    requires Eval(x, ctx).Ok? && Eval(x, ctx).value.Number() == Some(a)
    ensures Eval(Call(func, [x]), ctx) == Ok(ctx.scalarValue(func, [a]))
  {
    hide FunctionMeta, Eval;
    KindsMean(func);
    assert [x][0] == x && [x][1..] == [] && [Some(a)] + [] == [Some(a)];
    assert Numbers([], ctx) == Ok([]) && Numbers([x], ctx) == Ok([Some(a)]);
    KnownPair(a, a);
    CallEval(func, [x], ctx);
  }

  lemma ScalarPairMeans(func: string, x: Node, y: Node, a: Float, b: Float, ctx: Context)
    requires func in SCALARS || func in EXTREMES
    requires Eval(x, ctx).Ok? && Eval(x, ctx).value.Number() == Some(a)
    requires Eval(y, ctx).Ok? && Eval(y, ctx).value.Number() == Some(b)
    ensures Eval(Call(func, [x, y]), ctx) == Ok(ctx.scalarValue(func, [a, b]))
  {
    hide FunctionMeta, Eval;
    KindsMean(func);
    assert [x, y][1..] == [y] && [y][1..] == [] && [Some(a)] + ([Some(b)] + []) == [Some(a), Some(b)];
    assert Numbers([], ctx) == Ok([]) && Numbers([y], ctx) == Ok([Some(b)] + []) && Numbers([x, y], ctx) == Ok([Some(a), Some(b)]);
    KnownPair(a, b);
    CallEval(func, [x, y], ctx);
  }

  lemma KnownPair(a: Float, b: Float)
    ensures AllKnown([Some(a)]) == Some([a]) && AllKnown([Some(a), Some(b)]) == Some([a, b])
  {
    var one, two := [Some(a)], [Some(a), Some(b)];
    assert None !in one && None !in two;
    assert AllKnown(one).value == [a] && AllKnown(two).value == [a, b];
  }

  /** How many points a window function reads of a metric without a window. */
  function Habit(func: string): Option<nat> {
    if func == "last" then Some(1) else if func in {"diff", "rate", "pct_change"} then Some(2) else None
  }

  /** A window function is applied to the points of its window. */
  lemma WindowMeans(func: string, m: Node, name: string, key: string, ctx: Context)
    requires func in SUMMARIES || func in EXTREMES
    requires MetricName(m) == Some(name) && (m.RangeRef? && m.count.Some? ==> -I64_MAX - 1 <= m.count.value <= I64_MAX)
    requires ctx.resolve(name) == Ok(Some(key))
    ensures var points := if m.RangeRef? then ctx.window(key, m.count, m.duration) else ctx.window(key, Habit(func), None);
      points.Ok? ==> Eval(Call(func, [m]), ctx) == Ok(ctx.windowValue(func, points.value, []))
  {
    hide FunctionMeta, Eval;
    KindsMean(func);
    assert [m][1..] == [] && [m][0] == m;
    var none: seq<Option<Float>> := [];
    assert Numbers([], ctx) == Ok(none) && AllKnown(none).Some? && AllKnown(none).value == [];
    CallEval(func, [m], ctx);
  }

  lemma OneNumber(x: Node, ctx: Context)
    requires Eval(x, ctx).Ok?
    ensures var n := Eval(x, ctx).value.Number();
      Numbers([x], ctx) == Ok([n]) && AllKnown([n]) == if n.Some? then Some([n.value]) else None
  {
    hide Eval;
    var n := Eval(x, ctx).value.Number();
    assert [x][0] == x && [x][1..] == [] && [n] + [] == [n] && Numbers([], ctx) == Ok([]);
    if n.Some? { KnownPair(n.value, n.value); } else { assert None in [n]; }
  }

  /** A further parameter of a window function is a number, and one that is unknown makes the call so. */
  lemma ParameterMeans(func: string, m: Node, x: Node, name: string, key: string, ctx: Context)
    requires func in SUMMARIES && Eval(x, ctx).Ok?
    requires MetricName(m) == Some(name) && (m.RangeRef? && m.count.Some? ==> -I64_MAX - 1 <= m.count.value <= I64_MAX)
    requires ctx.resolve(name) == Ok(Some(key))
    ensures var points := if m.RangeRef? then ctx.window(key, m.count, m.duration) else ctx.window(key, Habit(func), None);
      var r := Eval(Call(func, [m, x]), ctx);
      if Eval(x, ctx).value == Unknown then r == Ok(Unknown)
      else points.Ok? ==> r == Ok(ctx.windowValue(func, points.value, [Eval(x, ctx).value.Number().value]))
  {
    hide FunctionMeta, Eval, Numbers, AllKnown;
    KindsMean(func);
    assert [m, x][0] == m && [m, x][1..] == [x];
    OneNumber(x, ctx);
    CallEval(func, [m, x], ctx);
  }
}
