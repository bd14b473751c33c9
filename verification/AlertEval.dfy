/** The tree-walking evaluator of alert expressions and the compiled plan. */
module AlertEval {
  import opened Floats
  import opened Results
  import opened AlertNodes
  import opened AlertValues

  type Outcome = Result<Value, Failure>

  const I64_MAX: int := 0x7FFF_FFFF_FFFF_FFFF

  // ---------------------------------------------------------------- shared meanings

  /** Any decisive operand decides; otherwise any unknown one leaves the result open. */
  function Connected(c: Connective, truths: seq<Option<bool>>): Value {
    if Some(c.Or?) in truths then Bool(c.Or?) else if None in truths then Unknown else Bool(!c.Or?)
  }

  function Joined(c: Connective, truths: Result<seq<Option<bool>>, Failure>): Outcome {
    if truths.Err? then Err(truths.error) else Ok(Connected(c, truths.value))
  }

  function Metricly(p: Option<Point>): Value {
    match p case None => Unknown case Some(point) => Finitely(point.value)
  }

  function LastValue(points: seq<Point>): Value {
    if points == [] then Unknown else Num(points[|points| - 1].value)
  }

  /** `has`, `age`, `isnan` and `isinf` of a metric. */
  function AboutMetric(func: string, name: string, ctx: Context): Outcome {
    if func == "has" then match ctx.Has(name) case Err(e) => Err(e) case Ok(b) => Ok(Bool(b))
    else
      match ctx.Latest(name)
      case Err(e) => Err(e)
      case Ok(None) => Ok(Unknown)
      case Ok(Some(p)) =>
        if func == "age" then
          match ctx.now case Err(e) => Err(e) case Ok(now) => Ok(Num(Finite(Positive(now - p.time))))
        else if func == "isnan" then Ok(Bool(p.value.NaN?))
        else if func == "isinf" then Ok(Bool(p.value.Infinite?))
        else Ok(Unknown)
  }

  /** `step` and `elapsed`. */
  function AboutRun(func: string, ctx: Context): Outcome {
    if func == "step" then
      match ctx.step
      case Err(e) => Err(e)
      case Ok(None) => Ok(Unknown)
      case Ok(Some(n)) => Ok(Num(n))
    else
      match ctx.now
      case Err(e) => Err(e)
      case Ok(now) =>
        match ctx.startedAt case Err(e) => Err(e) case Ok(started) => Ok(Num(Finite(Positive(now - started))))
  }

  /** `no_data`, once its threshold is known or found unknown. */
  function NoData(threshold: Option<Float>, ctx: Context): Outcome {
    match ctx.lastCommit
    case Err(e) => Err(e)
    case Ok(last) =>
      match ctx.startedAt
      case Err(e) => Err(e)
      case Ok(started) =>
        var reference := if last.Some? then last.value else started;
        match threshold
        case None => Ok(Unknown)
        case Some(t) => Ok(Bool(Atleast((if ctx.now.Ok? then ctx.now.value else reference) - reference, t)))
  }

  /** The numbers of the scalar arguments, if all are known. */
  function AllKnown(nums: seq<Option<Float>>): Option<seq<Float>> {
    if None in nums then None else Some(seq(|nums|, i requires 0 <= i < |nums| => Plainly(nums[i])))
  }

  function Gathered(nums: Result<seq<Option<Float>>, Failure>): Result<Option<seq<Float>>, Failure> {
    if nums.Err? then Err(nums.error) else Ok(AllKnown(nums.value))
  }

  function Plainly(x: Option<Float>): Float { if x.Some? then x.value else NaN }

  function Scalarly(func: string, nums: seq<Option<Float>>, ctx: Context): Value {
    match AllKnown(nums)
    case None => Unknown
    case Some(args) => if args == [] then Unknown else ctx.scalarValue(func, args)
  }

  // ---------------------------------------------------------------- the tree walker

  /** `eval_with`: inside a call, only errors of the expression itself surface. */
  function Eval(n: Node, ctx: Context): Outcome
    decreases n, 1
  {
    var r := Inner(n, ctx);
    if n.Call? && r.Err? && r.error.Other? then Ok(Unknown) else r
  }

  function NodePoints(n: Node, ctx: Context, fallback: Option<nat>): Result<seq<Point>, Failure> {
    match n
    case MetricRef(name) => ctx.Points(name, fallback, None)
    case RangeRef(name, count, duration) =>
      if count.Some? && !(-I64_MAX - 1 <= count.value <= I64_MAX) then Err(Other("count out of range"))
      else ctx.Points(name, count, duration)
    case _ => Err(BadExpression("Expected a metric"))
  }

  function Inner(n: Node, ctx: Context): Outcome
    decreases n, 0
  {
    match n
    case Literal(c) => Ok(Constantly(c))
    case MetricRef(name) => (match ctx.Latest(name) case Err(e) => Err(e) case Ok(p) => Ok(Metricly(p)))
    case RangeRef(_, _, _) => (match NodePoints(n, ctx, None) case Err(e) => Err(e) case Ok(ps) => Ok(LastValue(ps)))
    case Not(x) =>
      (match Eval(x, ctx)
       case Err(e) => Err(e)
       case Ok(v) => Ok(match v.Truth() case None => Unknown case Some(b) => Bool(!b)))
    case Negative(x) =>
      (match Eval(x, ctx)
       case Err(e) => Err(e)
       case Ok(v) => Ok(match v.Number() case None => Unknown case Some(m) => Num(Negated(m))))
    case BoolOp(c, values) => Joined(c, Truths(values, ctx))
    case Binary(op, x, y) =>
      (match Eval(x, ctx)
       case Err(e) => Err(e)
       case Ok(a) => match Eval(y, ctx) case Err(e) => Err(e) case Ok(b) => Ok(Operate(op, a.Number(), b.Number())))
    case Call(func, args) =>
      match FunctionMeta(func)
      case None => Err(BadExpression("Unknown function"))
      case Some(meta) =>
        if meta.kind == Special then
          if func == "step" || func == "elapsed" then AboutRun(func, ctx)
          else if args == [] then Err(Other("index out of range"))
          else if func == "no_data" then
            (match Eval(args[0], ctx) case Err(e) => Err(e) case Ok(v) => NoData(v.Number(), ctx))
          else
            (match MetricName(args[0])
             case None => Err(BadExpression("expects a metric name"))
             case Some(name) => AboutMetric(func, name, ctx))
        else if Windowed(meta, args) then
          (match Numbers(if args == [] then [] else args[1..], ctx)
           case Err(e) => Err(e)
           case Ok(nums) =>
             match AllKnown(nums)
             case None => Ok(Unknown)
             case Some(extra) =>
               if args == [] then Err(Other("index out of range"))
               else
                 match NodePoints(args[0], ctx, meta.window)
                 case Err(e) => Err(e)
                 case Ok(points) => Ok(ctx.windowValue(func, points, extra)))
        else
          match Numbers(args, ctx) case Err(e) => Err(e) case Ok(nums) => Ok(Scalarly(func, nums, ctx))
  }

  predicate Windowed(meta: Meta, args: seq<Node>) {
    meta.kind == Window || (meta.kind == Dual && |args| == 1 && MetricName(args[0]).Some?)
  }

  /** Operands in order; the first error ends the evaluation. */
  function Truths(nodes: seq<Node>, ctx: Context): Result<seq<Option<bool>>, Failure>
    decreases nodes
  {
    if nodes == [] then Ok([])
    else
      match Eval(nodes[0], ctx)
      case Err(e) => Err(e)
      case Ok(v) => match Truths(nodes[1..], ctx) case Err(e) => Err(e) case Ok(rest) => Ok([v.Truth()] + rest)
  }

  function Numbers(nodes: seq<Node>, ctx: Context): Result<seq<Option<Float>>, Failure>
    decreases nodes
  {
    if nodes == [] then Ok([])
    else
      match Eval(nodes[0], ctx)
      case Err(e) => Err(e)
      case Ok(v) => match Numbers(nodes[1..], ctx) case Err(e) => Err(e) case Ok(rest) => Ok([v.Number()] + rest)
  }

  // ---------------------------------------------------------------- the compiled plan

  datatype Plan =
    | PlanLiteral(value: Value)
    | PlanMetric(name: string)
    | PlanRange(name: string, count: Option<nat>, duration: Option<Float>)
    | PlanCall(func: string, args: seq<Plan>)
    | PlanNot(operand: Plan)
    | PlanNegative(operand: Plan)
    | PlanBinary(op: Operator, left: Plan, right: Plan)
    | PlanBoolean(connective: Connective, values: seq<Plan>)

  /** `compile`: only a window that no machine word holds can fail. */
  function Compile(n: Node): Result<Plan, Failure> {
    match n
    case Literal(c) => Ok(PlanLiteral(Constantly(c)))
    case MetricRef(name) => Ok(PlanMetric(name))
    case RangeRef(name, None, duration) => Ok(PlanRange(name, None, duration))
    case RangeRef(name, Some(count), duration) =>
      if 0 <= count <= USIZE_MAX then Ok(PlanRange(name, Some(count), duration)) else Err(Other("count out of range"))
    case Call(func, args) => (match CompileAll(args) case Err(e) => Err(e) case Ok(ps) => Ok(PlanCall(func, ps)))
    case Not(x) => (match Compile(x) case Err(e) => Err(e) case Ok(p) => Ok(PlanNot(p)))
    case Negative(x) => (match Compile(x) case Err(e) => Err(e) case Ok(p) => Ok(PlanNegative(p)))
    case BoolOp(c, values) =>
      (match CompileAll(values) case Err(e) => Err(e) case Ok(ps) => Ok(PlanBoolean(c, ps)))
    case Binary(op, x, y) =>
      match Compile(x)
      case Err(e) => Err(e)
      case Ok(p) => match Compile(y) case Err(e) => Err(e) case Ok(q) => Ok(PlanBinary(op, p, q))
  }

  function CompileAll(nodes: seq<Node>): Result<seq<Plan>, Failure> {
    if nodes == [] then Ok([])
    else
      match Compile(nodes[0])
      case Err(e) => Err(e)
      case Ok(p) => match CompileAll(nodes[1..]) case Err(e) => Err(e) case Ok(ps) => Ok([p] + ps)
  }

  function PlanMetricName(p: Plan): Option<string> {
    match p
    case PlanMetric(name) => Some(name)
    case PlanRange(name, _, _) => Some(name)
    case _ => None
  }

  function PlanPoints(p: Plan, ctx: Context, fallback: Option<nat>): Result<seq<Point>, Failure> {
    match PlanMetricName(p)
    case None => Err(BadExpression("Expected a metric"))
    case Some(name) =>
      var count := if p.PlanRange? then p.count else fallback;
      var duration := if p.PlanRange? then p.duration else None;
      ctx.Points(name, if count.Some? then Some(if count.value <= I64_MAX then count.value else I64_MAX) else None, duration)
  }

  predicate PlanWindowed(meta: Meta, args: seq<Plan>) {
    meta.kind == Window || (meta.kind == Dual && |args| == 1 && PlanMetricName(args[0]).Some?)
  }

  /** No call reaches for an argument it does not have. */
  predicate Safe(p: Plan) {
    match p
    case PlanCall(func, args) =>
      && (forall i :: 0 <= i < |args| ==> Safe(args[i]))
      && (args == [] ==>
            var meta := FunctionMeta(func);
            || meta.None?
            || meta.value.kind in {Dual, Scalar}
            || (meta.value.kind == Special && (func == "step" || func == "elapsed")))
    case PlanNot(x) => Safe(x)
    case PlanNegative(x) => Safe(x)
    case PlanBinary(_, x, y) => Safe(x) && Safe(y)
    case PlanBoolean(_, values) => forall i :: 0 <= i < |values| ==> Safe(values[i])
    case _ => true
  }

  function RunPlan(p: Plan, ctx: Context): Outcome
    requires Safe(p)
    decreases p, 1
  {
    var r := RunInner(p, ctx);
    if p.PlanCall? && r.Err? && r.error.Other? then Ok(Unknown) else r
  }

  function RunInner(p: Plan, ctx: Context): Outcome
    requires Safe(p)
    decreases p, 0
  {
    match p
    case PlanLiteral(v) => Ok(v)
    case PlanMetric(name) => (match ctx.Latest(name) case Err(e) => Err(e) case Ok(m) => Ok(Metricly(m)))
    case PlanRange(_, _, _) => (match PlanPoints(p, ctx, None) case Err(e) => Err(e) case Ok(ps) => Ok(LastValue(ps)))
    case PlanNot(x) =>
      (match RunPlan(x, ctx)
       case Err(e) => Err(e)
       case Ok(v) => Ok(match v.Truth() case None => Unknown case Some(b) => Bool(!b)))
    case PlanNegative(x) =>
      (match RunPlan(x, ctx)
       case Err(e) => Err(e)
       case Ok(v) => Ok(match v.Number() case None => Unknown case Some(m) => Num(Negated(m))))
    case PlanBoolean(c, values) => Joined(c, RunTruths(values, ctx))
    case PlanBinary(op, x, y) =>
      (match RunPlan(x, ctx)
       case Err(e) => Err(e)
       case Ok(a) => match RunPlan(y, ctx) case Err(e) => Err(e) case Ok(b) => Ok(Operate(op, a.Number(), b.Number())))
    case PlanCall(func, args) =>
      match FunctionMeta(func)
      case None => Err(BadExpression("Unknown function"))
      case Some(meta) =>
        if meta.kind == Special then
          if func == "step" || func == "elapsed" then AboutRun(func, ctx)
          else if func == "no_data" then
            (match RunPlan(args[0], ctx) case Err(e) => Err(e) case Ok(v) => NoData(v.Number(), ctx))
          else
            (match PlanMetricName(args[0])
             case None => Err(BadExpression("expects a metric name"))
             case Some(name) => AboutMetric(func, name, ctx))
        else if PlanWindowed(meta, args) then
          (match RunNumbers(args[1..], ctx)
           case Err(e) => Err(e)
           case Ok(nums) =>
             match AllKnown(nums)
             case None => Ok(Unknown)
             case Some(extra) =>
               match PlanPoints(args[0], ctx, meta.window)
               case Err(e) => Err(e)
               case Ok(points) => Ok(ctx.windowValue(func, points, extra)))
        else
          match RunNumbers(args, ctx) case Err(e) => Err(e) case Ok(nums) => Ok(Scalarly(func, nums, ctx))
  }

  function RunTruths(plans: seq<Plan>, ctx: Context): Result<seq<Option<bool>>, Failure>
    requires forall i :: 0 <= i < |plans| ==> Safe(plans[i])
    decreases plans
  {
    if plans == [] then Ok([])
    else
      match RunPlan(plans[0], ctx)
      case Err(e) => Err(e)
      case Ok(v) => match RunTruths(plans[1..], ctx) case Err(e) => Err(e) case Ok(rest) => Ok([v.Truth()] + rest)
  }

  function RunNumbers(plans: seq<Plan>, ctx: Context): Result<seq<Option<Float>>, Failure>
    requires forall i :: 0 <= i < |plans| ==> Safe(plans[i])
    decreases plans
  {
    if plans == [] then Ok([])
    else
      match RunPlan(plans[0], ctx)
      case Err(e) => Err(e)
      case Ok(v) => match RunNumbers(plans[1..], ctx) case Err(e) => Err(e) case Ok(rest) => Ok([v.Number()] + rest)
  }

  // ---------------------------------------------------------------- the evaluators as they run

  /** What is left to evaluate, given the results so far. */
  ghost predicate TruthsFrom(nodes: seq<Node>, ctx: Context, i: nat, done: seq<Option<bool>>)
    requires i <= |nodes|
  {
    match Truths(nodes[i..], ctx)
    case Err(e) => Truths(nodes, ctx) == Err(e)
    case Ok(rest) => Truths(nodes, ctx) == Ok(done + rest)
  }

  lemma TruthsNext(nodes: seq<Node>, ctx: Context, i: nat, done: seq<Option<bool>>)
    requires i < |nodes| && TruthsFrom(nodes, ctx, i, done)
    ensures Eval(nodes[i], ctx).Err? ==> Truths(nodes, ctx) == Err(Eval(nodes[i], ctx).error)
    ensures Eval(nodes[i], ctx).Ok? ==> TruthsFrom(nodes, ctx, i + 1, done + [Eval(nodes[i], ctx).value.Truth()])
  {
    hide Eval;
    assert nodes[i..][1..] == nodes[i + 1..];
    var t := Truths(nodes[i + 1..], ctx);
    if Eval(nodes[i], ctx).Ok? && t.Ok? {
      var v := Eval(nodes[i], ctx).value.Truth();
      assert done + ([v] + t.value) == (done + [v]) + t.value;
    }
  }

  ghost predicate NumbersFrom(nodes: seq<Node>, ctx: Context, i: nat, done: seq<Option<Float>>)
    requires i <= |nodes|
  {
    match Numbers(nodes[i..], ctx)
    case Err(e) => Numbers(nodes, ctx) == Err(e)
    case Ok(rest) => Numbers(nodes, ctx) == Ok(done + rest)
  }

  lemma NumbersNext(nodes: seq<Node>, ctx: Context, i: nat, done: seq<Option<Float>>)
    requires i < |nodes| && NumbersFrom(nodes, ctx, i, done)
    ensures Eval(nodes[i], ctx).Err? ==> Numbers(nodes, ctx) == Err(Eval(nodes[i], ctx).error)
    ensures Eval(nodes[i], ctx).Ok? ==> NumbersFrom(nodes, ctx, i + 1, done + [Eval(nodes[i], ctx).value.Number()])
  {
    hide Eval;
    assert nodes[i..][1..] == nodes[i + 1..];
    var t := Numbers(nodes[i + 1..], ctx);
    if Eval(nodes[i], ctx).Ok? && t.Ok? {
      var v := Eval(nodes[i], ctx).value.Number();
      assert done + ([v] + t.value) == (done + [v]) + t.value;
    }
  }

  method Interpret(n: Node, ctx: Context) returns (r: Outcome)
    ensures r == Eval(n, ctx)
    decreases n, 5
  {
    hide Inner;
    match n {
      case BoolOp(c, values) =>
        var v := InterpretBool(c, values, ctx);
        r := v;
        BoolInner(c, values, ctx);
      case Call(func, args) =>
        r := InterpretCall(func, args, ctx);
        if r.Err? && r.error.Other? { r := Ok(Unknown); }
      case _ =>
        r := InterpretPlain(n, ctx);
    }
  }

  lemma BoolInner(c: Connective, values: seq<Node>, ctx: Context)
    ensures Inner(BoolOp(c, values), ctx) == Joined(c, Truths(values, ctx))
  {
  }

  method InterpretPlain(n: Node, ctx: Context) returns (r: Outcome)
    requires !n.BoolOp? && !n.Call?
    ensures r == Inner(n, ctx)
    decreases n, 2
  {
    hide Eval, Operate;
    match n {
      case Literal(c) => r := Ok(Constantly(c));
      case MetricRef(name) =>
        var p := ctx.Latest(name);
        r := if p.Err? then Err(p.error) else Ok(Metricly(p.value));
      case RangeRef(_, _, _) =>
        var ps := NodePoints(n, ctx, None);
        r := if ps.Err? then Err(ps.error) else Ok(LastValue(ps.value));
      case Not(x) =>
        var v := Interpret(x, ctx);
        if v.Err? { return v; }
        var t := v.value.Truth();
        r := Ok(if t.Some? then Bool(!t.value) else Unknown);
      case Negative(x) =>
        var v := Interpret(x, ctx);
        if v.Err? { return v; }
        var m := v.value.Number();
        r := Ok(if m.Some? then Num(Negated(m.value)) else Unknown);
      case Binary(op, x, y) =>
        var a := Interpret(x, ctx);
        if a.Err? { return a; }
        var b := Interpret(y, ctx);
        if b.Err? { return b; }
        r := Ok(Operate(op, a.value.Number(), b.value.Number()));
    }
  }

  method InterpretBool(c: Connective, values: seq<Node>, ctx: Context) returns (r: Outcome)
    ensures r == Joined(c, Truths(values, ctx))
    decreases values, 0
  {
    hide Eval, Truths;
    var unknown, decisive, i := false, false, 0;
    ghost var done: seq<Option<bool>> := [];
    TruthsStart(values, ctx);
    while i < |values|
      invariant 0 <= i <= |values| && TruthsFrom(values, ctx, i, done)
      invariant unknown == (None in done) && decisive == (Some(c.Or?) in done)
    {
      var v := Interpret(values[i], ctx);
      TruthsNext(values, ctx, i, done);
      if v.Err? { return v; }
      match v.value.Truth() {
        case None => unknown := true;
        case Some(b) => if b == c.Or? { decisive := true; }
      }
      done := done + [v.value.Truth()];
      i := i + 1;
    }
    TruthsEnd(values, ctx, done);
    r := Ok(if decisive then Bool(c.Or?) else if unknown then Unknown else Bool(!c.Or?));
  }

  lemma TruthsStart(nodes: seq<Node>, ctx: Context)
    ensures TruthsFrom(nodes, ctx, 0, [])
    ensures NumbersFrom(nodes, ctx, 0, [])
  {
    assert nodes[0..] == nodes;
    var t, m := Truths(nodes, ctx), Numbers(nodes, ctx);
    if t.Ok? { assert [] + t.value == t.value; }
    if m.Ok? { assert [] + m.value == m.value; }
  }

  lemma TruthsEnd(nodes: seq<Node>, ctx: Context, done: seq<Option<bool>>)
    requires TruthsFrom(nodes, ctx, |nodes|, done)
    ensures Truths(nodes, ctx) == Ok(done)
  {
    assert nodes[|nodes|..] == [] && done + [] == done;
  }

  lemma NumbersEnd(nodes: seq<Node>, ctx: Context, done: seq<Option<Float>>)
    requires NumbersFrom(nodes, ctx, |nodes|, done)
    ensures Numbers(nodes, ctx) == Ok(done)
  {
    assert nodes[|nodes|..] == [] && done + [] == done;
  }

  /** The scalar arguments of a call: their numbers, or that one of them is unknown. */
  method InterpretArgs(args: seq<Node>, ctx: Context) returns (r: Result<Option<seq<Float>>, Failure>)
    ensures r == Gathered(Numbers(args, ctx))
    decreases args, 0
  {
    hide Eval, Numbers;
    var extra: seq<Float>, unknown, i := [], false, 0;
    ghost var done: seq<Option<Float>> := [];
    TruthsStart(args, ctx);
    assert AllKnown([]) == Some([]) by { KnownNothing(); }
    while i < |args|
      invariant 0 <= i <= |args| && NumbersFrom(args, ctx, i, done)
      invariant unknown == (None in done)
      invariant !unknown ==> AllKnown(done) == Some(extra)
    {
      var v := Interpret(args[i], ctx);
      NumbersNext(args, ctx, i, done);
      if v.Err? { return Err(v.error); }
      KnownPush(done, v.value.Number());
      match v.value.Number() {
        case Some(x) => extra := extra + [x];
        case None => unknown := true;
      }
      done := done + [v.value.Number()];
      i := i + 1;
    }
    NumbersEnd(args, ctx, done);
    r := Ok(if unknown then None else Some(extra));
  }

  lemma KnownPush(nums: seq<Option<Float>>, x: Option<Float>)
    ensures None !in nums && x.Some? ==> AllKnown(nums + [x]) == Some(AllKnown(nums).value + [x.value])
  {
    if None !in nums && x.Some? {
      assert AllKnown(nums + [x]).value == AllKnown(nums).value + [x.value];
    }
  }

  lemma KnownNothing()
    ensures AllKnown([]) == Some([])
  {
    var none: seq<Option<Float>> := [];
    assert AllKnown(none).value == [];
  }

  method InterpretCall(func: string, args: seq<Node>, ctx: Context) returns (r: Outcome)
    ensures r == Inner(Call(func, args), ctx)
    decreases args, 1
  {
    hide Eval, Numbers, FunctionMeta, AboutMetric, AboutRun, NoData, AllKnown;
    var known := FunctionMeta(func);
    if known.None? { return Err(BadExpression("Unknown function")); }
    var meta := known.value;
    if meta.kind == Special {
      if func == "step" || func == "elapsed" { return AboutRun(func, ctx); }
      if args == [] { return Err(Other("index out of range")); }
      if func == "no_data" {
        var v := Interpret(args[0], ctx);
        if v.Err? { return v; }
        return NoData(v.value.Number(), ctx);
      }
      var name := MetricName(args[0]);
      if name.None? { return Err(BadExpression("expects a metric name")); }
      return AboutMetric(func, name.value, ctx);
    }
    var windowed := Windowed(meta, args);
    var scalars := if windowed && args != [] then args[1..] else args;
    var extra := InterpretArgs(scalars, ctx);
    if extra.Err? { return Err(extra.error); }
    if extra.value.None? { return Ok(Unknown); }
    if !windowed {
      return Ok(if extra.value.value == [] then Unknown else ctx.scalarValue(func, extra.value.value));
    }
    if args == [] { return Err(Other("index out of range")); }
    var points := NodePoints(args[0], ctx, meta.window);
    r := if points.Err? then Err(points.error) else Ok(ctx.windowValue(func, points.value, extra.value.value));
  }

  // ---------------------------------------------------------------- the plan as it runs

  ghost predicate AllSafe(plans: seq<Plan>) { forall i :: 0 <= i < |plans| ==> Safe(plans[i]) }

  ghost predicate RunFrom(plans: seq<Plan>, ctx: Context, i: nat, truths: seq<Option<bool>>, nums: seq<Option<Float>>)
    requires i <= |plans| && AllSafe(plans)
  {
    && (match RunTruths(plans[i..], ctx)
        case Err(e) => RunTruths(plans, ctx) == Err(e)
        case Ok(rest) => RunTruths(plans, ctx) == Ok(truths + rest))
    && (match RunNumbers(plans[i..], ctx)
        case Err(e) => RunNumbers(plans, ctx) == Err(e)
        case Ok(rest) => RunNumbers(plans, ctx) == Ok(nums + rest))
  }

  lemma RunNext(plans: seq<Plan>, ctx: Context, i: nat, truths: seq<Option<bool>>, nums: seq<Option<Float>>)
    requires AllSafe(plans) && i < |plans| && RunFrom(plans, ctx, i, truths, nums)
    ensures var v := RunPlan(plans[i], ctx);
      if v.Err? then RunTruths(plans, ctx) == Err(v.error) && RunNumbers(plans, ctx) == Err(v.error)
      else RunFrom(plans, ctx, i + 1, truths + [v.value.Truth()], nums + [v.value.Number()])
  {
    hide RunPlan, Safe;
    assert plans[i..][1..] == plans[i + 1..];
    var v, t, m := RunPlan(plans[i], ctx), RunTruths(plans[i + 1..], ctx), RunNumbers(plans[i + 1..], ctx);
    if v.Ok? && t.Ok? { assert truths + ([v.value.Truth()] + t.value) == (truths + [v.value.Truth()]) + t.value; }
    if v.Ok? && m.Ok? { assert nums + ([v.value.Number()] + m.value) == (nums + [v.value.Number()]) + m.value; }
  }

  lemma RunStart(plans: seq<Plan>, ctx: Context)
    requires AllSafe(plans)
    ensures RunFrom(plans, ctx, 0, [], [])
  {
    hide Safe;
    assert plans[0..] == plans;
    var t, m := RunTruths(plans, ctx), RunNumbers(plans, ctx);
    if t.Ok? { assert [] + t.value == t.value; }
    if m.Ok? { assert [] + m.value == m.value; }
  }

  lemma RunEnd(plans: seq<Plan>, ctx: Context, truths: seq<Option<bool>>, nums: seq<Option<Float>>)
    requires AllSafe(plans) && RunFrom(plans, ctx, |plans|, truths, nums)
    ensures RunTruths(plans, ctx) == Ok(truths) && RunNumbers(plans, ctx) == Ok(nums)
  {
    assert plans[|plans|..] == [] && truths + [] == truths && nums + [] == nums;
  }

  method Evaluate(p: Plan, ctx: Context) returns (r: Outcome)
    requires Safe(p)
    ensures r == RunPlan(p, ctx)
    decreases p, 5
  {
    hide Operate, AboutMetric, AboutRun, NoData, RunTruths, RunNumbers, AllKnown, Connected, FunctionMeta;
    match p {
      case PlanLiteral(v) => r := Ok(v);
      case PlanMetric(name) =>
        var m := ctx.Latest(name);
        r := if m.Err? then Err(m.error) else Ok(Metricly(m.value));
      case PlanRange(_, _, _) =>
        var ps := PlanPoints(p, ctx, None);
        r := if ps.Err? then Err(ps.error) else Ok(LastValue(ps.value));
      case PlanNot(x) =>
        var v := Evaluate(x, ctx);
        if v.Err? { return v; }
        var t := v.value.Truth();
        r := Ok(if t.Some? then Bool(!t.value) else Unknown);
      case PlanNegative(x) =>
        var v := Evaluate(x, ctx);
        if v.Err? { return v; }
        var m := v.value.Number();
        r := Ok(if m.Some? then Num(Negated(m.value)) else Unknown);
      case PlanBinary(op, x, y) =>
        var a := Evaluate(x, ctx);
        if a.Err? { return a; }
        var b := Evaluate(y, ctx);
        if b.Err? { return b; }
        r := Ok(Operate(op, a.value.Number(), b.value.Number()));
      case PlanBoolean(c, values) =>
        r := EvaluateBool(c, values, ctx);
      case PlanCall(func, args) =>
        r := EvaluateCall(func, args, ctx);
        if r.Err? && r.error.Other? { r := Ok(Unknown); }
    }
  }

  method EvaluateBool(c: Connective, values: seq<Plan>, ctx: Context) returns (r: Outcome)
    requires AllSafe(values)
    ensures r == Joined(c, RunTruths(values, ctx))
    decreases values, 0
  {
    hide RunPlan, RunTruths, RunNumbers, Safe, RunFrom;
    var unknown, decisive, i := false, false, 0;
    ghost var truths: seq<Option<bool>>, nums: seq<Option<Float>> := [], [];
    RunStart(values, ctx);
    while i < |values|
      invariant 0 <= i <= |values| && RunFrom(values, ctx, i, truths, nums)
      invariant unknown == (None in truths) && decisive == (Some(c.Or?) in truths)
    {
      var v := Evaluate(values[i], ctx);
      RunNext(values, ctx, i, truths, nums);
      if v.Err? { return v; }
      match v.value.Truth() {
        case None => unknown := true;
        case Some(b) => if b == c.Or? { decisive := true; }
      }
      truths, nums := truths + [v.value.Truth()], nums + [v.value.Number()];
      i := i + 1;
    }
    RunEnd(values, ctx, truths, nums);
    r := Ok(if decisive then Bool(c.Or?) else if unknown then Unknown else Bool(!c.Or?));
  }

  method EvaluateArgs(args: seq<Plan>, ctx: Context) returns (r: Result<Option<seq<Float>>, Failure>)
    requires AllSafe(args)
    ensures r == Gathered(RunNumbers(args, ctx))
    decreases args, 0
  {
    hide RunPlan, RunTruths, RunNumbers, Safe, RunFrom, AllKnown;
    var extra: seq<Float>, unknown, i := [], false, 0;
    ghost var truths: seq<Option<bool>>, nums: seq<Option<Float>> := [], [];
    RunStart(args, ctx);
    KnownNothing();
    while i < |args|
      invariant 0 <= i <= |args| && RunFrom(args, ctx, i, truths, nums)
      invariant unknown == (None in nums)
      invariant !unknown ==> AllKnown(nums) == Some(extra)
    {
      var v := Evaluate(args[i], ctx);
      RunNext(args, ctx, i, truths, nums);
      if v.Err? { return Err(v.error); }
      KnownPush(nums, v.value.Number());
      match v.value.Number() {
        case Some(x) => extra := extra + [x];
        case None => unknown := true;
      }
      truths, nums := truths + [v.value.Truth()], nums + [v.value.Number()];
      i := i + 1;
    }
    RunEnd(args, ctx, truths, nums);
    if unknown { UnknownAmong(nums); }
    r := Ok(if unknown then None else Some(extra));
  }

  lemma UnknownAmong(nums: seq<Option<Float>>)
    requires None in nums
    ensures AllKnown(nums) == None
  {
  }

  method EvaluateCall(func: string, args: seq<Plan>, ctx: Context) returns (r: Outcome)
    requires Safe(PlanCall(func, args))
    ensures r == RunInner(PlanCall(func, args), ctx)
    decreases args, 1
  {
    hide RunPlan, RunNumbers, FunctionMeta, AboutMetric, AboutRun, NoData, AllKnown;
    var known := FunctionMeta(func);
    if known.None? { return Err(BadExpression("Unknown function")); }
    var meta := known.value;
    if meta.kind == Special {
      if func == "step" || func == "elapsed" { return AboutRun(func, ctx); }
      if func == "no_data" {
        var v := Evaluate(args[0], ctx);
        if v.Err? { return v; }
        return NoData(v.value.Number(), ctx);
      }
      var name := PlanMetricName(args[0]);
      if name.None? { return Err(BadExpression("expects a metric name")); }
      return AboutMetric(func, name.value, ctx);
    }
    var windowed := PlanWindowed(meta, args);
    var extra := EvaluateArgs(if windowed then args[1..] else args, ctx);
    if extra.Err? { return Err(extra.error); }
    if extra.value.None? { return Ok(Unknown); }
    if !windowed {
      return Ok(if extra.value.value == [] then Unknown else ctx.scalarValue(func, extra.value.value));
    }
    var points := PlanPoints(args[0], ctx, meta.window);
    r := if points.Err? then Err(points.error) else Ok(ctx.windowValue(func, points.value, extra.value.value));
  }
}
