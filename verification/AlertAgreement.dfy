/** When a compiled plan means what the tree walker computes: as long as no window too wide for a
    signed word is read, and, for most expressions, only then. */
module AlertAgreement {
  import opened Floats
  import opened Results
  import opened AlertNodes
  import opened AlertValues
  import opened AlertEval

  // ---------------------------------------------------------------- which windows fit

  predicate CountFits(n: Node, limit: int) { n.RangeRef? && n.count.Some? ==> 0 <= n.count.value <= limit }

  predicate CountsFit(n: Node, limit: int) {
    && CountFits(n, limit)
    && match n
       case Call(_, args) => AllCountsFit(args, limit)
       case Negative(x) => CountsFit(x, limit)
       case Binary(_, x, y) => CountsFit(x, limit) && CountsFit(y, limit)
       case BoolOp(_, values) => AllCountsFit(values, limit)
       case Not(x) => CountsFit(x, limit)
       case _ => true
  }

  predicate AllCountsFit(nodes: seq<Node>, limit: int) { forall i :: 0 <= i < |nodes| ==> CountsFit(nodes[i], limit) }

  /** `has`, `age`, `isnan` and `isinf` only look at the name of their argument. */
  predicate NamesOnly(func: string) { func in {"has", "age", "isnan", "isinf"} }

  /** Every window is an unsigned word, and those that calls or operators read are signed words. */
  predicate WindowsFit(n: Node) {
    match n
    case RangeRef(_, _, _) => CountFits(n, I64_MAX)
    case Call(func, args) => if NamesOnly(func) then AllCountsFit(args, USIZE_MAX) else AllWindowsFit(args)
    case Negative(x) => WindowsFit(x)
    case Binary(_, x, y) => WindowsFit(x) && WindowsFit(y)
    case BoolOp(_, values) => AllWindowsFit(values)
    case Not(x) => WindowsFit(x)
    case _ => true
  }

  predicate AllWindowsFit(nodes: seq<Node>) { forall i :: 0 <= i < |nodes| ==> WindowsFit(nodes[i]) }

  /** Every window that evaluating the expression in this run comes to read is a signed word. */
  predicate ReadsFit(n: Node, ctx: Context) {
    match n
    case RangeRef(_, _, _) => CountFits(n, I64_MAX)
    case Not(x) => ReadsFit(x, ctx)
    case Negative(x) => ReadsFit(x, ctx)
    case Binary(_, x, y) => ReadsFit(x, ctx) && (Eval(x, ctx).Ok? ==> ReadsFit(y, ctx))
    case BoolOp(_, values) => AllReadsFit(values, ctx)
    case Call(func, args) =>
      (match FunctionMeta(func)
       case None => true
       case Some(meta) =>
         if meta.kind == Special then func == "no_data" && args != [] ==> ReadsFit(args[0], ctx)
         else if Windowed(meta, args) then
           args != [] ==>
             AllReadsFit(args[1..], ctx) && (Answered(args[1..], ctx) ==> CountFits(args[0], I64_MAX))
         else AllReadsFit(args, ctx))
    case _ => true
  }

  /** In order, up to the first error. */
  predicate AllReadsFit(nodes: seq<Node>, ctx: Context)
    decreases nodes
  {
    nodes != [] ==>
      ReadsFit(nodes[0], ctx) && (Eval(nodes[0], ctx).Ok? ==> AllReadsFit(nodes[1..], ctx))
  }

  predicate Answered(nodes: seq<Node>, ctx: Context) {
    Numbers(nodes, ctx).Ok? && AllKnown(Numbers(nodes, ctx).value).Some?
  }

  // ---------------------------------------------------------------- what compiles

  /** Compilation succeeds exactly when every window size is an unsigned machine word. */
  lemma {:induction false} CompilesExactly(n: Node)
    ensures Compile(n).Ok? <==> CountsFit(n, USIZE_MAX)
    decreases n, 0
  {
    match n
    case Call(_, args) => CompilesAllExactly(args);
    case Negative(x) => CompilesExactly(x);
    case Binary(_, x, y) => CompilesExactly(x); CompilesExactly(y);
    case BoolOp(_, values) => CompilesAllExactly(values);
    case Not(x) => CompilesExactly(x);
    case _ =>
  }

  lemma {:induction false} CompilesAllExactly(nodes: seq<Node>)
    ensures CompileAll(nodes).Ok? <==> AllCountsFit(nodes, USIZE_MAX)
    ensures CompileAll(nodes).Ok? ==>
      |CompileAll(nodes).value| == |nodes|
      && forall i :: 0 <= i < |nodes| ==> Compile(nodes[i]) == Ok(CompileAll(nodes).value[i])
    decreases nodes
  {
    hide Compile, CountsFit;
    if nodes != [] {
      CompilesExactly(nodes[0]);
      CompilesAllExactly(nodes[1..]);
      AllFitCons(nodes, USIZE_MAX);
    }
  }

  lemma AllFitCons(nodes: seq<Node>, limit: int)
    requires nodes != []
    ensures AllCountsFit(nodes, limit) <==> CountsFit(nodes[0], limit) && AllCountsFit(nodes[1..], limit)
  {
    hide CountsFit;
    if CountsFit(nodes[0], limit) && AllCountsFit(nodes[1..], limit) {
      forall i | 0 <= i < |nodes|
        ensures CountsFit(nodes[i], limit)
      {
        if i > 0 { assert nodes[i] == nodes[1..][i - 1]; }
      }
    }
  }

  lemma PlanNames(n: Node)
    requires Compile(n).Ok?
    ensures PlanMetricName(Compile(n).value) == MetricName(n)
  {
  }

  lemma PlanReads(n: Node, ctx: Context, fallback: Option<nat>)
    requires Compile(n).Ok? && CountFits(n, I64_MAX) && (fallback.Some? ==> fallback.value <= I64_MAX)
    ensures PlanPoints(Compile(n).value, ctx, fallback) == NodePoints(n, ctx, fallback)
  {
  }

  /** A validated expression compiles to a plan whose calls have the arguments they reach for. */
  lemma {:induction false} CompiledSafe(n: Node)
    requires Validated(n) && Compile(n).Ok?
    ensures Safe(Compile(n).value)
    decreases n
  {
    hide FitsSignature;
    match n
    case Not(x) => CompiledSafe(x);
    case Negative(x) => CompiledSafe(x);
    case Binary(_, x, y) => CompiledSafe(x); CompiledSafe(y);
    case BoolOp(_, values) =>
      CompilesAllExactly(values);
      forall i | 0 <= i < |values| ensures Safe(CompileAll(values).value[i]) { CompiledSafe(values[i]); }
    case Call(func, args) =>
      CompilesAllExactly(args);
      forall i | 0 <= i < |args| ensures Safe(CompileAll(args).value[i]) { CompiledSafe(args[i]); }
      SafeCall(func, args, CompileAll(args).value);
    case _ =>
  }

  lemma SafeCall(func: string, args: seq<Node>, ps: seq<Plan>)
    requires FitsSignature(func, args) && |ps| == |args| && forall i :: 0 <= i < |ps| ==> Safe(ps[i])
    ensures Safe(PlanCall(func, ps))
  {
  }

  lemma AllSafe(nodes: seq<Node>)
    requires AllValidated(nodes) && CompileAll(nodes).Ok?
    ensures |CompileAll(nodes).value| == |nodes|
    ensures forall i :: 0 <= i < |nodes| ==> Compile(nodes[i]).Ok? && Safe(CompileAll(nodes).value[i])
  {
    hide Compile, Safe, Validated;
    CompilesAllExactly(nodes);
    forall i | 0 <= i < |nodes| ensures Safe(CompileAll(nodes).value[i]) { CompiledSafe(nodes[i]); }
  }

  // ---------------------------------------------------------------- compilation preserves meaning

  /** In a run in which no window too wide is read, the plan computes what the tree walker does. */
  lemma {:induction false} CompiledAgrees(n: Node, ctx: Context)
    requires Validated(n) && Compile(n).Ok? && ReadsFit(n, ctx)
    ensures Safe(Compile(n).value)
    ensures RunPlan(Compile(n).value, ctx) == Eval(n, ctx)
    decreases n, 1
  {
    hide Connected, Operate, AboutRun, AboutMetric, NoData, Scalarly, AllKnown, FunctionMeta, Negated, Metricly, LastValue,
         Safe;
    CompiledSafe(n);
    match n
    case Not(x) => CompiledSafe(x); CompiledAgrees(x, ctx);
    case Negative(x) => CompiledSafe(x); CompiledAgrees(x, ctx);
    case Binary(_, x, y) =>
      CompiledSafe(x);
      CompiledSafe(y);
      CompiledAgrees(x, ctx);
      if Eval(x, ctx).Ok? { CompiledAgrees(y, ctx); }
    case BoolOp(_, values) => CompiledAll(values, ctx);
    case Call(func, args) => CompiledCall(n, ctx);
    case RangeRef(_, _, _) => PlanReads(n, ctx, None);
    case _ =>
  }

  lemma {:induction false} CompiledAll(nodes: seq<Node>, ctx: Context)
    requires AllValidated(nodes) && CompileAll(nodes).Ok? && AllReadsFit(nodes, ctx)
    ensures |CompileAll(nodes).value| == |nodes|
    ensures forall i :: 0 <= i < |nodes| ==> Safe(CompileAll(nodes).value[i])
    ensures RunTruths(CompileAll(nodes).value, ctx) == Truths(nodes, ctx)
    ensures RunNumbers(CompileAll(nodes).value, ctx) == Numbers(nodes, ctx)
    decreases nodes
  {
    hide Compile, Eval, RunPlan, Safe, Validated, ReadsFit;
    AllSafe(nodes);
    if nodes != [] {
      assert Validated(nodes[0]);
      CompiledAgrees(nodes[0], ctx);
      var ps := CompileAll(nodes).value;
      assert ps[1..] == CompileAll(nodes[1..]).value;
      if Eval(nodes[0], ctx).Ok? { CompiledAll(nodes[1..], ctx); }
    }
  }

  lemma {:induction false} CompiledCall(n: Node, ctx: Context)
    requires n.Call? && Validated(n) && Compile(n).Ok? && ReadsFit(n, ctx) && Safe(Compile(n).value)
    ensures RunPlan(Compile(n).value, ctx) == Eval(n, ctx)
    decreases n, 0
  {
    hide Connected, Operate, AboutRun, AboutMetric, NoData, Scalarly, AllKnown, Negated, Metricly, LastValue, FunctionMeta,
         FitsSignature, PlanPoints, NodePoints, MetricName, PlanMetricName, Windowed, PlanWindowed, RunInner, Inner, RunPlan,
         Eval, RunNumbers, Numbers, Safe;
    var func, args := n.func, n.args;
    var ps := CompileAll(args).value;
    AllSafe(args);
    SignatureMeans(func, args);
    var meta := FunctionMeta(func).value;
    if args != [] {
      assert Validated(args[0]);
      PlanNames(args[0]);
      assert ps[1..] == CompileAll(args[1..]).value;
      SameWindowing(meta, args, ps);
      if meta.kind == Special {
        if func == "no_data" { CompiledAgrees(args[0], ctx); }
      } else if Windowed(meta, args) {
        CompiledAll(args[1..], ctx);
        if Answered(args[1..], ctx) { PlanReads(args[0], ctx, meta.window); }
      } else {
        CompiledAll(args, ctx);
      }
    }
    SameCall(func, args, ps, ctx);
    assert Compile(n) == Ok(PlanCall(func, ps));
    SameWrapping(n, PlanCall(func, ps), ctx);
  }

  lemma SameWrapping(n: Node, p: Plan, ctx: Context)
    requires Safe(p) && n.Call? && p.PlanCall? && RunInner(p, ctx) == Inner(n, ctx)
    ensures RunPlan(p, ctx) == Eval(n, ctx)
  {
    hide RunInner, Inner, Safe;
  }

  /** One call, given that whatever it evaluates agrees. */
  lemma SameCall(func: string, args: seq<Node>, ps: seq<Plan>, ctx: Context)
    requires Safe(PlanCall(func, ps)) && |ps| == |args| && FunctionMeta(func).Some?
    requires forall i :: 0 <= i < |ps| ==> Safe(ps[i])
    requires args == [] ==> FunctionMeta(func).value.kind == Special && (func == "step" || func == "elapsed")
    requires args != [] ==>
      var meta := FunctionMeta(func).value;
      && PlanMetricName(ps[0]) == MetricName(args[0])
      && PlanWindowed(meta, ps) == Windowed(meta, args)
      && (if meta.kind == Special then func == "no_data" ==> RunPlan(ps[0], ctx) == Eval(args[0], ctx)
          else if Windowed(meta, args) then
            && RunNumbers(ps[1..], ctx) == Numbers(args[1..], ctx)
            && (Answered(args[1..], ctx) ==> PlanPoints(ps[0], ctx, meta.window) == NodePoints(args[0], ctx, meta.window))
          else RunNumbers(ps, ctx) == Numbers(args, ctx))
    ensures RunInner(PlanCall(func, ps), ctx) == Inner(Call(func, args), ctx)
  {
    hide AboutRun, AboutMetric, NoData, Scalarly, AllKnown, FunctionMeta, PlanPoints, NodePoints, MetricName, PlanMetricName,
         Windowed, PlanWindowed, RunPlan, Eval, RunNumbers, Numbers, Safe;
  }

  lemma SameWindowing(meta: Meta, args: seq<Node>, ps: seq<Plan>)
    requires |args| == |ps| && args != [] && PlanMetricName(ps[0]) == MetricName(args[0])
    ensures PlanWindowed(meta, ps) == Windowed(meta, args)
  {
  }

  lemma SignatureMeans(func: string, args: seq<Node>)
    requires FitsSignature(func, args)
    ensures FunctionMeta(func).Some?
    ensures args == [] ==> FunctionMeta(func).value.kind == Special && (func == "step" || func == "elapsed")
    ensures FunctionMeta(func).value.window.Some? ==> FunctionMeta(func).value.window.value <= 2
  {
  }

  /** The plan and the tree walker, in one run. */
  ghost predicate Agrees(n: Node, ctx: Context)
    requires Compile(n).Ok?
  {
    Safe(Compile(n).value) && RunPlan(Compile(n).value, ctx) == Eval(n, ctx)
  }

  // ---------------------------------------------------------------- and only then

  /** A run that fails, as an expression error, as soon as the widest possible window is read. */
  function Tripwire(ctx: Context, text: string): Context {
    ctx.(window := (key: string, count: Option<int>, duration: Option<Float>) =>
      if count == Some(I64_MAX) then Err(BadExpression(text)) else ctx.window(key, count, duration))
  }

  /** No window is written with exactly this size. */
  predicate Avoids(n: Node, count: int) {
    match n
    case RangeRef(_, c, _) => c != Some(count)
    case Call(_, args) => AllAvoid(args, count)
    case Negative(x) => Avoids(x, count)
    case Binary(_, x, y) => Avoids(x, count) && Avoids(y, count)
    case BoolOp(_, values) => AllAvoid(values, count)
    case Not(x) => Avoids(x, count)
    case _ => true
  }

  predicate AllAvoid(nodes: seq<Node>, count: int) { forall i :: 0 <= i < |nodes| ==> Avoids(nodes[i], count) }

  ghost predicate KnowsAll(ctx: Context) { forall name: string :: Resolves(ctx, name) }

  predicate Resolves(ctx: Context, name: string) { ctx.resolve(name).Ok? && ctx.resolve(name).value.Some? }

  /** The tree walker never reads the widest window, unless it is asked for. */
  lemma {:induction false} Untripped(n: Node, ctx: Context, text: string)
    requires Validated(n) && Avoids(n, I64_MAX)
    ensures Inner(n, Tripwire(ctx, text)) == Inner(n, ctx)
    ensures Eval(n, Tripwire(ctx, text)) == Eval(n, ctx)
    decreases n, 0
  {
    hide Connected, Operate, AllKnown, FunctionMeta, Negated, Metricly, LastValue, Numbers, Truths, FitsSignature, Windowed,
         NodePoints, AboutRun, AboutMetric, NoData, Scalarly;
    match n
    case Not(x) => Untripped(x, ctx, text);
    case Negative(x) => Untripped(x, ctx, text);
    case Binary(_, x, y) => Untripped(x, ctx, text); Untripped(y, ctx, text);
    case BoolOp(_, values) => AllUntripped(values, ctx, text);
    case Call(func, args) =>
      SignatureMeans(func, args);
      AllUntripped(args, ctx, text);
      if args != [] {
        assert Validated(args[0]) && Avoids(args[0], I64_MAX);
        Untripped(args[0], ctx, text);
        AllUntripped(args[1..], ctx, text);
        PointsUntripped(args[0], ctx, FunctionMeta(func).value.window, text);
      }
      CallUntripped(func, args, ctx, text);
    case RangeRef(_, _, _) => PointsUntripped(n, ctx, None, text);
    case _ =>
  }

  lemma CallUntripped(func: string, args: seq<Node>, ctx: Context, text: string)
    requires FunctionMeta(func).Some?
    requires var trip := Tripwire(ctx, text);
      && Numbers(args, trip) == Numbers(args, ctx)
      && (args != [] ==>
            && Eval(args[0], trip) == Eval(args[0], ctx)
            && Numbers(args[1..], trip) == Numbers(args[1..], ctx)
            && var window := FunctionMeta(func).value.window;
               NodePoints(args[0], trip, window) == NodePoints(args[0], ctx, window))
    ensures Inner(Call(func, args), Tripwire(ctx, text)) == Inner(Call(func, args), ctx)
  {
    hide AllKnown, FunctionMeta, Numbers, Eval, Windowed, NodePoints;
    NoneUntripped(ctx, text);
  }

  lemma NoneUntripped(ctx: Context, text: string)
    ensures Numbers([], Tripwire(ctx, text)) == Numbers([], ctx)
  {
  }

  lemma PointsUntripped(n: Node, ctx: Context, fallback: Option<nat>, text: string)
    requires n.RangeRef? ==> n.count != Some(I64_MAX)
    requires fallback.Some? ==> fallback.value < I64_MAX
    ensures NodePoints(n, Tripwire(ctx, text), fallback) == NodePoints(n, ctx, fallback)
  {
  }

  lemma {:induction false} AllUntripped(nodes: seq<Node>, ctx: Context, text: string)
    requires AllValidated(nodes) && AllAvoid(nodes, I64_MAX)
    ensures Truths(nodes, Tripwire(ctx, text)) == Truths(nodes, ctx)
    ensures Numbers(nodes, Tripwire(ctx, text)) == Numbers(nodes, ctx)
    decreases nodes
  {
    hide Eval, Validated, Avoids;
    if nodes != [] {
      assert Validated(nodes[0]) && Avoids(nodes[0], I64_MAX);
      Untripped(nodes[0], ctx, text);
      AllUntripped(nodes[1..], ctx, text);
    }
  }

  lemma {:induction false} SameReads(n: Node, ctx: Context, text: string)
    requires Validated(n) && Avoids(n, I64_MAX)
    ensures ReadsFit(n, Tripwire(ctx, text)) == ReadsFit(n, ctx)
    decreases n, 0
  {
    hide Eval, FunctionMeta, FitsSignature, Windowed, Answered, CountFits;
    match n
    case Not(x) => SameReads(x, ctx, text);
    case Negative(x) => SameReads(x, ctx, text);
    case Binary(_, x, y) => SameReads(x, ctx, text); SameReads(y, ctx, text); Untripped(x, ctx, text);
    case BoolOp(_, values) => AllSameReads(values, ctx, text);
    case Call(func, args) =>
      AllSameReads(args, ctx, text);
      if args != [] {
        assert Validated(args[0]) && Avoids(args[0], I64_MAX);
        SameReads(args[0], ctx, text);
        AllSameReads(args[1..], ctx, text);
        SameAnswers(args[1..], ctx, text);
      }
    case _ =>
  }

  lemma SameAnswers(nodes: seq<Node>, ctx: Context, text: string)
    requires AllValidated(nodes) && AllAvoid(nodes, I64_MAX)
    ensures Answered(nodes, Tripwire(ctx, text)) == Answered(nodes, ctx)
  {
    AllUntripped(nodes, ctx, text);
  }

  lemma {:induction false} AllSameReads(nodes: seq<Node>, ctx: Context, text: string)
    requires AllValidated(nodes) && AllAvoid(nodes, I64_MAX)
    ensures AllReadsFit(nodes, Tripwire(ctx, text)) == AllReadsFit(nodes, ctx)
    decreases nodes
  {
    hide Eval, Validated, Avoids, ReadsFit;
    if nodes != [] {
      assert Validated(nodes[0]) && Avoids(nodes[0], I64_MAX);
      SameReads(nodes[0], ctx, text);
      Untripped(nodes[0], ctx, text);
      AllSameReads(nodes[1..], ctx, text);
    }
  }

  /** The plan does: where the tree walker comes to a window too wide, the plan trips. */
  lemma {:induction false} Trips(n: Node, ctx: Context, text: string)
    requires Validated(n) && Compile(n).Ok? && Avoids(n, I64_MAX) && KnowsAll(ctx) && !ReadsFit(n, ctx)
    ensures Safe(Compile(n).value)
    ensures RunPlan(Compile(n).value, Tripwire(ctx, text)) == Err(BadExpression(text))
    decreases n, 1
  {
    hide Connected, Operate, AboutRun, AboutMetric, NoData, Scalarly, AllKnown, FunctionMeta, Negated, Metricly, LastValue,
         Safe, Eval, KnowsAll;
    CompiledSafe(n);
    match n
    case Not(x) => CompiledSafe(x); Trips(x, ctx, text);
    case Negative(x) => CompiledSafe(x); Trips(x, ctx, text);
    case Binary(_, x, y) =>
      CompiledSafe(x);
      CompiledSafe(y);
      if ReadsFit(x, ctx) {
        Passes(x, ctx, text);
        Trips(y, ctx, text);
      } else {
        Trips(x, ctx, text);
      }
    case BoolOp(_, values) => AllTrip(values, ctx, text);
    case Call(func, args) => CallTrips(n, ctx, text);
    case RangeRef(_, _, _) => WindowTrips(n, ctx, None, text);
    case _ =>
  }

  lemma WindowTrips(n: Node, ctx: Context, fallback: Option<nat>, text: string)
    requires Compile(n).Ok? && KnowsAll(ctx) && !CountFits(n, I64_MAX)
    ensures PlanPoints(Compile(n).value, Tripwire(ctx, text), fallback) == Err(BadExpression(text))
  {
    assert Resolves(ctx, n.name);
  }

  /** Until then it agrees. */
  lemma Passes(n: Node, ctx: Context, text: string)
    requires Validated(n) && Compile(n).Ok? && Avoids(n, I64_MAX) && ReadsFit(n, ctx)
    ensures Safe(Compile(n).value)
    ensures RunPlan(Compile(n).value, Tripwire(ctx, text)) == Eval(n, ctx)
  {
    SameReads(n, ctx, text);
    Untripped(n, ctx, text);
    CompiledAgrees(n, Tripwire(ctx, text));
  }

  lemma {:induction false} AllTrip(nodes: seq<Node>, ctx: Context, text: string)
    requires AllValidated(nodes) && CompileAll(nodes).Ok? && AllAvoid(nodes, I64_MAX) && KnowsAll(ctx)
    requires !AllReadsFit(nodes, ctx)
    ensures forall i :: 0 <= i < |CompileAll(nodes).value| ==> Safe(CompileAll(nodes).value[i])
    ensures RunTruths(CompileAll(nodes).value, Tripwire(ctx, text)) == Err(BadExpression(text))
    ensures RunNumbers(CompileAll(nodes).value, Tripwire(ctx, text)) == Err(BadExpression(text))
    decreases nodes
  {
    hide Compile, Eval, RunPlan, Safe, Validated, ReadsFit, Avoids, KnowsAll;
    AllSafe(nodes);
    assert Validated(nodes[0]) && Avoids(nodes[0], I64_MAX);
    var ps := CompileAll(nodes).value;
    assert ps[1..] == CompileAll(nodes[1..]).value;
    if ReadsFit(nodes[0], ctx) {
      Passes(nodes[0], ctx, text);
      AllTrip(nodes[1..], ctx, text);
    } else {
      Trips(nodes[0], ctx, text);
    }
  }

  lemma {:induction false} CallTrips(n: Node, ctx: Context, text: string)
    requires n.Call? && Validated(n) && Compile(n).Ok? && Avoids(n, I64_MAX) && KnowsAll(ctx) && !ReadsFit(n, ctx)
    requires Safe(Compile(n).value)
    ensures RunPlan(Compile(n).value, Tripwire(ctx, text)) == Err(BadExpression(text))
    decreases n, 0
  {
    hide Connected, Operate, AboutRun, AboutMetric, NoData, Scalarly, AllKnown, Negated, Metricly, LastValue, FunctionMeta,
         FitsSignature, PlanPoints, NodePoints, MetricName, PlanMetricName, Windowed, PlanWindowed, RunInner, Inner, RunPlan,
         Eval, RunNumbers, Numbers, Safe, Tripwire, KnowsAll, CountFits;
    var func, args := n.func, n.args;
    var ps := CompileAll(args).value;
    var trip := Tripwire(ctx, text);
    AllSafe(args);
    SignatureMeans(func, args);
    var meta := FunctionMeta(func).value;
    assert Validated(args[0]) && Avoids(args[0], I64_MAX);
    PlanNames(args[0]);
    assert ps[1..] == CompileAll(args[1..]).value;
    SameWindowing(meta, args, ps);
    if meta.kind == Special {
      Trips(args[0], ctx, text);
    } else if Windowed(meta, args) {
      if AllReadsFit(args[1..], ctx) {
        AllPass(args[1..], ctx, text);
        WindowTrips(args[0], ctx, meta.window, text);
      } else {
        AllTrip(args[1..], ctx, text);
      }
    } else {
      AllTrip(args, ctx, text);
    }
    CallFails(func, args, ps, ctx, trip, text);
    assert Compile(n) == Ok(PlanCall(func, ps));
    Surfaces(PlanCall(func, ps), trip, text);
  }

  lemma Surfaces(p: Plan, ctx: Context, text: string)
    requires Safe(p) && RunInner(p, ctx) == Err(BadExpression(text))
    ensures RunPlan(p, ctx) == Err(BadExpression(text))
  {
    hide RunInner, Safe;
  }

  lemma AllPass(nodes: seq<Node>, ctx: Context, text: string)
    requires AllValidated(nodes) && CompileAll(nodes).Ok? && AllAvoid(nodes, I64_MAX) && AllReadsFit(nodes, ctx)
    ensures forall i :: 0 <= i < |CompileAll(nodes).value| ==> Safe(CompileAll(nodes).value[i])
    ensures RunNumbers(CompileAll(nodes).value, Tripwire(ctx, text)) == Numbers(nodes, ctx)
  {
    AllSameReads(nodes, ctx, text);
    AllUntripped(nodes, ctx, text);
    CompiledAll(nodes, Tripwire(ctx, text));
  }

  /** A call fails as whatever it evaluates first does. */
  lemma CallFails(func: string, args: seq<Node>, ps: seq<Plan>, ctx: Context, trip: Context, text: string)
    requires Safe(PlanCall(func, ps)) && |ps| == |args| > 0 && FunctionMeta(func).Some?
    requires forall i :: 0 <= i < |ps| ==> Safe(ps[i])
    requires var meta := FunctionMeta(func).value; var bad := BadExpression(text);
      if meta.kind == Special then func == "no_data" && RunPlan(ps[0], trip) == Err(bad)
      else if PlanWindowed(meta, ps) then
        || RunNumbers(ps[1..], trip) == Err(bad)
        || (RunNumbers(ps[1..], trip) == Numbers(args[1..], ctx) && Answered(args[1..], ctx)
            && PlanPoints(ps[0], trip, meta.window) == Err(bad))
      else RunNumbers(ps, trip) == Err(bad)
    ensures RunInner(PlanCall(func, ps), trip) == Err(BadExpression(text))
  {
    hide AboutRun, AboutMetric, NoData, Scalarly, AllKnown, FunctionMeta, PlanPoints, PlanMetricName, PlanWindowed, RunPlan,
         RunNumbers, Numbers, Safe;
  }

  /** Where a window too wide is read, some run tells plan and tree walker apart. */
  lemma WideReadDiffers(n: Node, ctx: Context) returns (other: Context)
    requires Validated(n) && Compile(n).Ok? && Avoids(n, I64_MAX) && KnowsAll(ctx) && !ReadsFit(n, ctx)
    ensures KnowsAll(other) && !Agrees(n, other)
  {
    var r := Eval(n, ctx);
    var text := if r.Err? && r.error.BadExpression? then r.error.text + "!" else "";
    other := Tripwire(ctx, text);
    Trips(n, ctx, text);
    Untripped(n, ctx, text);
    forall name: string ensures Resolves(other, name) { assert Resolves(ctx, name); }
  }

  /** For any validated expression that compiles: it means the same in all runs exactly if none of
      them comes to read a window too wide. */
  lemma AgreesExactly(n: Node)
    requires Validated(n) && Compile(n).Ok? && Avoids(n, I64_MAX)
    ensures (forall ctx :: KnowsAll(ctx) ==> Agrees(n, ctx)) <==> (forall ctx :: KnowsAll(ctx) ==> ReadsFit(n, ctx))
  {
    if forall ctx :: KnowsAll(ctx) ==> Agrees(n, ctx) {
      forall ctx | KnowsAll(ctx)
        ensures ReadsFit(n, ctx)
      {
        if !ReadsFit(n, ctx) { var other := WideReadDiffers(n, ctx); }
      }
    }
    if forall ctx :: KnowsAll(ctx) ==> ReadsFit(n, ctx) {
      forall ctx | KnowsAll(ctx)
        ensures Agrees(n, ctx)
      {
        CompiledAgrees(n, ctx);
      }
    }
  }

  // ---------------------------------------------------------------- in terms of the expression alone

  lemma {:induction false} FittingReads(n: Node, ctx: Context)
    requires WindowsFit(n)
    ensures ReadsFit(n, ctx)
    decreases n, 0
  {
    hide Eval, FunctionMeta, Windowed, Answered;
    match n
    case Not(x) => FittingReads(x, ctx);
    case Negative(x) => FittingReads(x, ctx);
    case Binary(_, x, y) => FittingReads(x, ctx); FittingReads(y, ctx);
    case BoolOp(_, values) => AllFittingReads(values, ctx);
    case Call(func, args) =>
      if NamesOnly(func) {
        NamesOnlyMeta(func);
      } else if args != [] {
        assert WindowsFit(args[0]);
        FittingReads(args[0], ctx);
        AllFittingReads(args[1..], ctx);
        AllFittingReads(args, ctx);
      }
    case _ =>
  }

  lemma NamesOnlyMeta(func: string)
    requires NamesOnly(func)
    ensures FunctionMeta(func).Some? && FunctionMeta(func).value.kind == Special && func != "no_data"
  {
  }

  lemma {:induction false} AllFittingReads(nodes: seq<Node>, ctx: Context)
    requires AllWindowsFit(nodes)
    ensures AllReadsFit(nodes, ctx)
    decreases nodes
  {
    hide Eval, WindowsFit, ReadsFit;
    if nodes != [] {
      assert WindowsFit(nodes[0]);
      FittingReads(nodes[0], ctx);
      AllFittingReads(nodes[1..], ctx);
    }
  }

  lemma {:induction false} FittingCompiles(n: Node)
    requires WindowsFit(n)
    ensures CountsFit(n, USIZE_MAX)
    decreases n
  {
    match n
    case Call(func, args) =>
      if !NamesOnly(func) {
        forall i | 0 <= i < |args| ensures CountsFit(args[i], USIZE_MAX) { FittingCompiles(args[i]); }
      }
    case Negative(x) => FittingCompiles(x);
    case Binary(_, x, y) => FittingCompiles(x); FittingCompiles(y);
    case BoolOp(_, values) =>
      forall i | 0 <= i < |values| ensures CountsFit(values[i], USIZE_MAX) { FittingCompiles(values[i]); }
    case Not(x) => FittingCompiles(x);
    case _ =>
  }

  /** Some run makes this a number: nothing in it is divided by more than a number that is not
      zero, and no literal is infinite or not a number. */
  predicate Certain(n: Node) {
    match n
    case Literal(c) => c.Truth? || c.n.Finite?
    case Call(_, args) => AllCertain(args)
    case Negative(x) => Certain(x)
    case Binary(op, x, y) =>
      && Certain(x) && Certain(y)
      && (op in {Div, Mod} ==> y.Literal? && y.value.Number? && y.value.n.Finite? && y.value.n.r != 0.0)
    case BoolOp(_, values) => AllCertain(values)
    case Not(x) => Certain(x)
    case _ => true
  }

  predicate AllCertain(nodes: seq<Node>) { forall i :: 0 <= i < |nodes| ==> Certain(nodes[i]) }

  /** No window goes unread because the parameter beside it can never be known. */
  predicate Steady(n: Node) {
    match n
    case Call(_, args) => AllSteady(args) && (|args| == 2 && args[0].RangeRef? ==> Certain(args[1]))
    case Negative(x) => Steady(x)
    case Binary(_, x, y) => Steady(x) && Steady(y)
    case BoolOp(_, values) => AllSteady(values)
    case Not(x) => Steady(x)
    case _ => true
  }

  predicate AllSteady(nodes: seq<Node>) { forall i :: 0 <= i < |nodes| ==> Steady(nodes[i]) }

  /** A run that has an answer to everything. */
  function FullRun(): Context {
    var one := Point(1, 0.0, Finite(1.0));
    Context(name => Ok(Some(name)), key => Ok(Some(one)), (key, count, duration) => Ok([one]), Ok(Some(Finite(1.0))),
            Ok(0.0), Ok(0.0), Ok(Some(0.0)), (func, points, extra) => Num(Finite(1.0)), (func, nums) => Num(Finite(1.0)))
  }

  /** In it, nothing fails before a window too wide is read, and what is certain is a finite number. */
  lemma {:induction false} FullRunReads(n: Node)
    requires Validated(n) && Steady(n) && ReadsFit(n, FullRun()) && CountsFit(n, USIZE_MAX)
    ensures WindowsFit(n)
    ensures Eval(n, FullRun()).Ok?
    ensures Certain(n) ==> var x := Eval(n, FullRun()).value.Number(); x.Some? && x.value.Finite?
    decreases n, 1
  {
    hide FunctionMeta, FitsSignature, FullRun, Negated, AboutRun, AboutMetric, NoData, Operate, Connected;
    var ctx := FullRun();
    FullRunMeans();
    match n
    case Not(x) => FullRunReads(x);
    case Negative(x) => FullRunReads(x); NegatedFinite(Eval(x, ctx).value.Number());
    case Binary(op, x, y) =>
      FullRunReads(x);
      FullRunReads(y);
      if Certain(n) { OperateFinite(op, Eval(x, ctx).value.Number(), Eval(y, ctx).value.Number()); }
    case BoolOp(c, values) =>
      AllFullRunReads(values);
      if Certain(n) { ConnectedKnown(c, Truths(values, ctx).value); }
    case Call(func, args) => FullRunCalls(n);
    case _ =>
  }

  lemma FullRunMeans()
    ensures var ctx := FullRun(); var one := Point(1, 0.0, Finite(1.0));
      && KnowsAll(ctx)
      && (forall name :: ctx.Latest(name) == Ok(Some(one)) && ctx.Has(name) == Ok(true))
      && (forall name, count, duration :: ctx.Points(name, count, duration) == Ok([one]))
      && (forall func, points, extra :: ctx.windowValue(func, points, extra) == Num(Finite(1.0)))
      && (forall func, nums :: ctx.scalarValue(func, nums) == Num(Finite(1.0)))
      && ctx.step == Ok(Some(Finite(1.0))) && ctx.now == ctx.startedAt == Ok(0.0) && ctx.lastCommit == Ok(Some(0.0))
  {
    forall name: string ensures Resolves(FullRun(), name) {}
  }

  lemma NegatedFinite(x: Option<Float>)
    ensures x.Some? && x.value.Finite? ==> Negated(x.value).Finite?
  {
  }

  lemma OperateFinite(op: Operator, x: Option<Float>, y: Option<Float>)
    requires x.Some? && x.value.Finite? && y.Some? && y.value.Finite?
    requires op in {Div, Mod} ==> y.value.r != 0.0
    ensures var r := Operate(op, x, y).Number(); r.Some? && r.value.Finite?
  {
  }

  lemma ConnectedKnown(c: Connective, truths: seq<Option<bool>>)
    requires None !in truths
    ensures Connected(c, truths).Bool?
  {
  }

  lemma {:induction false} AllFullRunReads(nodes: seq<Node>)
    requires AllValidated(nodes) && AllSteady(nodes) && AllReadsFit(nodes, FullRun()) && AllCountsFit(nodes, USIZE_MAX)
    ensures AllWindowsFit(nodes)
    ensures Truths(nodes, FullRun()).Ok? && Numbers(nodes, FullRun()).Ok?
    ensures AllCertain(nodes) ==> None !in Truths(nodes, FullRun()).value && None !in Numbers(nodes, FullRun()).value
    decreases nodes
  {
    hide Eval, Validated, Steady, ReadsFit, CountsFit, Certain, WindowsFit, FullRun;
    if nodes != [] {
      var head, tail := nodes[0], nodes[1..];
      assert Validated(head) && Steady(head) && CountsFit(head, USIZE_MAX);
      FullRunReads(head);
      AllFullRunReads(tail);
      assert AllCertain(nodes) ==> Certain(head) && AllCertain(tail);
      forall i | 0 <= i < |nodes|
        ensures WindowsFit(nodes[i])
      {
        if i > 0 { assert nodes[i] == tail[i - 1]; }
      }
    }
  }

  lemma {:induction false} FullRunCalls(n: Node)
    requires n.Call? && Validated(n) && Steady(n) && ReadsFit(n, FullRun()) && CountsFit(n, USIZE_MAX)
    ensures WindowsFit(n)
    ensures Eval(n, FullRun()).Ok?
    ensures Certain(n) ==> var x := Eval(n, FullRun()).value.Number(); x.Some? && x.value.Finite?
    decreases n, 0
  {
    hide FunctionMeta, FitsSignature, FullRun, Numbers, Truths, AllKnown, Eval, Windowed, AllReadsFit;
    var ctx, func, args := FullRun(), n.func, n.args;
    CallSignature(func, args);
    var meta := FunctionMeta(func).value;
    if meta.kind == Special {
      if func == "no_data" {
        FullRunReads(args[0]);
        if AllCertain(args) { assert Certain(args[0]); }
      }
      SpecialAnswers(func, args);
    } else if Windowed(meta, args) {
      AllFullRunReads(args[1..]);
      AllKnowns(args[1..]);
      if Certain(n) { CertainTail(args); }
      WindowAnswers(func, args);
      MetricFits(args[0]);
      forall i | 0 <= i < |args|
        ensures WindowsFit(args[i])
      {
        if i > 0 { assert args[i] == args[1..][i - 1]; }
      }
    } else {
      AllFullRunReads(args);
      AllKnowns(args);
      ScalarAnswers(func, args);
    }
  }

  lemma CertainTail(nodes: seq<Node>)
    requires nodes != [] && AllCertain(nodes)
    ensures AllCertain(nodes[1..])
  {
    forall i | 0 <= i < |nodes| - 1 ensures Certain(nodes[1..][i]) { assert nodes[1..][i] == nodes[i + 1]; }
  }

  lemma MetricFits(n: Node)
    requires MetricName(n).Some? && CountFits(n, I64_MAX)
    ensures WindowsFit(n)
  {
  }

  lemma AllKnowns(nodes: seq<Node>)
    requires Numbers(nodes, FullRun()).Ok?
    ensures None !in Numbers(nodes, FullRun()).value ==> Answered(nodes, FullRun())
    ensures nodes == [] ==> Answered(nodes, FullRun())
  {
  }

  lemma CallSignature(func: string, args: seq<Node>)
    requires FitsSignature(func, args)
    ensures FunctionMeta(func).Some?
    ensures var meta := FunctionMeta(func).value;
      && (meta.kind == Special <==> NamesOnly(func) || func in {"no_data", "step", "elapsed"})
      && (func == "no_data" ==> |args| == 1)
      && (func in {"step", "elapsed"} ==> args == [])
      && (meta.kind != Special ==> args != [])
      && (meta.kind != Special && Windowed(meta, args) ==> |args| <= 2 && MetricName(args[0]).Some?)
  {
  }

  lemma SpecialAnswers(func: string, args: seq<Node>)
    requires FitsSignature(func, args) && FunctionMeta(func).value.kind == Special
    requires func == "no_data" ==> args != [] && Eval(args[0], FullRun()).Ok?
    ensures var r := Eval(Call(func, args), FullRun());
      && r.Ok?
      && ((func == "no_data" ==> Eval(args[0], FullRun()).value.Number().Some?) ==>
            r.value.Number().Some? && r.value.Number().value.Finite?)
  {
    hide FullRun, Windowed, Numbers;
    FullRunMeans();
    CallSignature(func, args);
    if NamesOnly(func) { assert MetricName(args[0]).Some?; }
  }

  lemma WindowAnswers(func: string, args: seq<Node>)
    requires FitsSignature(func, args) && args != [] && MetricName(args[0]).Some?
    requires var meta := FunctionMeta(func).value; meta.kind != Special && Windowed(meta, args)
    requires Numbers(args[1..], FullRun()).Ok? && (Answered(args[1..], FullRun()) ==> CountFits(args[0], I64_MAX))
    ensures var r := Eval(Call(func, args), FullRun());
      r.Ok? && (Answered(args[1..], FullRun()) ==> r.value == Num(Finite(1.0)))
  {
    hide FullRun, AllKnown, FunctionMeta, FitsSignature, Windowed, Numbers, NodePoints;
    SignatureMeans(func, args);
    var ctx, window := FullRun(), FunctionMeta(func).value.window;
    if Answered(args[1..], ctx) {
      FullPoints(args[0], window);
      FullLibrary(func, NodePoints(args[0], ctx, window).value, AllKnown(Numbers(args[1..], ctx).value).value);
    }
  }

  lemma FullPoints(n: Node, fallback: Option<nat>)
    requires MetricName(n).Some? && CountFits(n, I64_MAX)
    ensures NodePoints(n, FullRun(), fallback).Ok?
  {
  }

  lemma FullLibrary(func: string, points: seq<Point>, nums: seq<Float>)
    ensures FullRun().windowValue(func, points, nums) == FullRun().scalarValue(func, nums) == Num(Finite(1.0))
  {
  }

  lemma ScalarAnswers(func: string, args: seq<Node>)
    requires FitsSignature(func, args) && args != []
    requires var meta := FunctionMeta(func).value; meta.kind != Special && !Windowed(meta, args)
    requires Numbers(args, FullRun()).Ok?
    ensures var r := Eval(Call(func, args), FullRun());
      r.Ok? && (Answered(args, FullRun()) ==> r.value == Num(Finite(1.0)))
  {
    hide FullRun, FunctionMeta, FitsSignature, Windowed, Numbers;
    SignatureMeans(func, args);
    var nums := Numbers(args, FullRun()).value;
    NumbersSize(args, FullRun());
    if AllKnown(nums).Some? { FullLibrary(func, [], AllKnown(nums).value); }
  }

  lemma {:induction false} NumbersSize(nodes: seq<Node>, ctx: Context)
    requires Numbers(nodes, ctx).Ok?
    ensures |Numbers(nodes, ctx).value| == |nodes|
  {
    hide Eval;
    if nodes != [] { NumbersSize(nodes[1..], ctx); }
  }

  /** Compiled and interpreted the same in every run, calls and all: exactly if every window is an
      unsigned word and every window that is read a signed one. */
  lemma CompiledExactly(n: Node)
    requires Validated(n) && Steady(n) && Avoids(n, I64_MAX)
    ensures (Compile(n).Ok? && forall ctx :: Agrees(n, ctx)) <==> WindowsFit(n)
  {
    hide Validated, Steady, Avoids, WindowsFit, ReadsFit, Compile, Agrees, CountsFit, KnowsAll;
    CompilesExactly(n);
    if WindowsFit(n) {
      FittingCompiles(n);
      forall ctx
        ensures Agrees(n, ctx)
      {
        FittingReads(n, ctx);
        AgreesWhereFit(n, ctx);
      }
    } else if Compile(n).Ok? {
      if ReadsFit(n, FullRun()) { FullRunReads(n); }
      FullRunMeans();
      var other := WideReadDiffers(n, FullRun());
    }
  }

  lemma AgreesWhereFit(n: Node, ctx: Context)
    requires Validated(n) && Compile(n).Ok? && ReadsFit(n, ctx)
    ensures Agrees(n, ctx)
  {
    CompiledAgrees(n, ctx);
  }

  predicate CallFree(n: Node) {
    match n
    case Call(_, _) => false
    case Negative(x) => CallFree(x)
    case Binary(_, x, y) => CallFree(x) && CallFree(y)
    case BoolOp(_, values) => forall i :: 0 <= i < |values| ==> CallFree(values[i])
    case Not(x) => CallFree(x)
    case _ => true
  }

  /** Without calls there is no other condition at all, whatever the windows. */
  lemma CallFreeExactly(n: Node)
    requires CallFree(n)
    ensures (Compile(n).Ok? && forall ctx :: Agrees(n, ctx)) <==> CountsFit(n, I64_MAX)
  {
    hide CallFree, WindowsFit, ReadsFit, Compile, Agrees, CountsFit;
    CompilesExactly(n);
    CallFreeMeans(n);
    if CountsFit(n, I64_MAX) {
      FittingCompiles(n);
      forall ctx
        ensures Agrees(n, ctx)
      {
        FittingReads(n, ctx);
        AgreesWhereFit(n, ctx);
      }
    } else if Compile(n).Ok? {
      CompiledSafe(n);
      QuietRun(n);
      assert !Agrees(n, NoRun()) by { Apart(n, NoRun()); }
    }
  }

  lemma Apart(n: Node, ctx: Context)
    requires Compile(n).Ok? && Safe(Compile(n).value)
    requires RunPlan(Compile(n).value, ctx).Ok? && Eval(n, ctx).Err?
    ensures !Agrees(n, ctx)
  {
  }

  lemma {:induction false} CallFreeMeans(n: Node)
    requires CallFree(n)
    ensures Validated(n)
    ensures WindowsFit(n) <==> CountsFit(n, I64_MAX)
    decreases n
  {
    match n
    case Negative(x) => CallFreeMeans(x);
    case Binary(_, x, y) => CallFreeMeans(x); CallFreeMeans(y);
    case BoolOp(_, values) =>
      forall i | 0 <= i < |values|
        ensures Validated(values[i]) && (WindowsFit(values[i]) <==> CountsFit(values[i], I64_MAX))
      {
        CallFreeMeans(values[i]);
      }
    case Not(x) => CallFreeMeans(x);
    case _ =>
  }

  /** Where nothing has been logged the plan never fails, the tree walker wherever a window is too wide. */
  lemma {:induction false} QuietRun(n: Node)
    requires CallFree(n) && Compile(n).Ok?
    ensures Safe(Compile(n).value)
    ensures RunPlan(Compile(n).value, NoRun()).Ok?
    ensures Eval(n, NoRun()).Ok? <==> CountsFit(n, I64_MAX)
    decreases n, 0
  {
    hide Operate, Connected, Metricly, LastValue, Negated;
    match n
    case Negative(x) => QuietRun(x);
    case Binary(_, x, y) => QuietRun(x); QuietRun(y);
    case BoolOp(_, values) => AllQuiet(values);
    case Not(x) => QuietRun(x);
    case RangeRef(_, _, _) => CompilesExactly(n);
    case _ =>
  }

  lemma {:induction false} AllQuiet(nodes: seq<Node>)
    requires CompileAll(nodes).Ok? && forall i :: 0 <= i < |nodes| ==> CallFree(nodes[i])
    ensures forall i :: 0 <= i < |CompileAll(nodes).value| ==> Safe(CompileAll(nodes).value[i])
    ensures RunTruths(CompileAll(nodes).value, NoRun()).Ok?
    ensures Truths(nodes, NoRun()).Ok? <==> AllCountsFit(nodes, I64_MAX)
    decreases nodes
  {
    hide Compile, Eval, RunPlan, Safe, CountsFit, CallFree, NoRun;
    if nodes != [] {
      assert CallFree(nodes[0]);
      QuietRun(nodes[0]);
      AllQuiet(nodes[1..]);
      AllFitCons(nodes, I64_MAX);
      var ps := CompileAll(nodes).value;
      assert ps[1..] == CompileAll(nodes[1..]).value;
    }
  }

  // ---------------------------------------------------------------- inputs that show the difference

  /** A bare window too wide is an error interpreted, but not compiled. */
  lemma WideWindowDiffers(name: string, count: nat, duration: Option<Float>) returns (ctx: Context)
    requires I64_MAX < count <= USIZE_MAX
    ensures var n := RangeRef(name, Some(count), duration);
      && Compile(n).Ok? && Eval(n, ctx).Err? && RunPlan(Compile(n).value, ctx) == Ok(Unknown)
  {
    ctx := NoRun();
    var n := RangeRef(name, Some(count), duration);
    assert Inner(n, ctx).Err?;
    assert PlanPoints(Compile(n).value, ctx, None) == Ok([]);
  }

  /** A call on one is unknown interpreted, and some number compiled. */
  lemma WideCallDiffers(func: string, name: string, count: nat, duration: Option<Float>) returns (ctx: Context)
    requires FunctionMeta(func).Some? && FunctionMeta(func).value.kind in {Window, Dual}
    requires I64_MAX < count <= USIZE_MAX
    ensures var n := Call(func, [RangeRef(name, Some(count), duration)]);
      && Validated(n) && Compile(n).Ok? && Safe(Compile(n).value)
      && Eval(n, ctx) == Ok(Unknown) && RunPlan(Compile(n).value, ctx) == Ok(Num(Finite(1.0)))
  {
    hide FullRun, FunctionMeta;
    FullRunMeans();
    ctx := FullRun();
    var arg := RangeRef(name, Some(count), duration);
    var n := Call(func, [arg]);
    var p := PlanRange(name, Some(count), duration);
    assert [arg][1..] == [] && [p][1..] == [];
    assert CompileAll([arg]) == Ok([p] + []);
    assert NodePoints(arg, ctx, FunctionMeta(func).value.window).Err?;
    SoleWindowFits(func, arg);
    assert AllValidated([arg]);
    var nothing: seq<Option<Float>> := [];
    assert Numbers([], ctx) == RunNumbers([], ctx) == Ok(nothing) && AllKnown(nothing).Some?;
    assert PlanPoints(p, ctx, FunctionMeta(func).value.window).Ok?;
    assert RunInner(PlanCall(func, [p]), ctx) == Ok(Num(Finite(1.0)));
  }

  lemma SoleWindowFits(func: string, arg: Node)
    requires FunctionMeta(func).Some? && FunctionMeta(func).value.kind in {Window, Dual} && arg.RangeRef?
    ensures FitsSignature(func, [arg])
  {
  }

  /** A negative window does not compile, though it can be interpreted. */
  lemma NegativeWindowDiffers(name: string, count: int, duration: Option<Float>) returns (ctx: Context)
    requires -I64_MAX <= count < 0
    ensures var n := RangeRef(name, Some(count), duration); Compile(n).Err? && Eval(n, ctx) == Ok(Unknown)
  {
    ctx := NoRun();
    var n := RangeRef(name, Some(count), duration);
    assert NodePoints(n, ctx, None) == Ok([]);
    assert Inner(n, ctx) == Ok(Unknown);
  }

  /** Why parameters must be certain: beside one that never is known, a window too wide goes unread. */
  lemma UnreadWindowAgrees(name: string, count: nat, ctx: Context)
    requires I64_MAX < count <= USIZE_MAX
    ensures var n := Call("ema", [RangeRef(name, Some(count), None), Literal(Number(NaN))]);
      Validated(n) && !WindowsFit(n) && Compile(n).Ok? && Agrees(n, ctx)
  {
    var args := [RangeRef(name, Some(count), None), Literal(Number(NaN))];
    var n := Call("ema", args);
    var rest := args[1..];
    assert rest == [args[1]] && rest[1..] == [];
    assert Eval(args[1], ctx) == Ok(Unknown);
    assert Numbers(rest[1..], ctx) == Ok([]);
    assert Numbers(rest, ctx).Ok? && Numbers(rest, ctx).value[0] == None;
    assert !WindowsFit(args[0]);
    CompilesExactly(n);
    AllFitOf(args);
    AgreesWhereFit(n, ctx);
  }

  lemma AllFitOf(args: seq<Node>)
    requires |args| == 2 && CountsFit(args[0], USIZE_MAX) && CountsFit(args[1], USIZE_MAX)
    ensures AllCountsFit(args, USIZE_MAX)
  {
  }

  function MeanOf(name: string, count: nat): Node { Call("mean", [RangeRef(name, Some(count), None)]) }

  /** Why no window may have just the size that wider ones are cut to: reading it first can hide
      the difference they make. */
  lemma SaturatedWindowAgrees(name: string, ctx: Context)
    ensures var n := BoolOp(And, [Literal(Truth(false)), MeanOf(name, I64_MAX), MeanOf(name, I64_MAX + 1)]);
      Validated(n) && Steady(n) && !WindowsFit(n) && Compile(n).Ok? && Agrees(n, ctx)
  {
    hide Inner, RunInner, MeanOf, RunPlan, Eval, RunTruths, Truths, Connected, ReadsFit, CountsFit;
    var no, a, b := Literal(Truth(false)), MeanOf(name, I64_MAX), MeanOf(name, I64_MAX + 1);
    MeanCompiles(name, I64_MAX, ctx);
    MeanCompiles(name, I64_MAX + 1, ctx);
    Saturated(name, ctx);
    AgreesWhereFit(no, ctx);
    AgreesWhereFit(a, ctx);
    Three(no, a, b, ctx);
    var nodes := [no, a, b];
    assert Validated(nodes[0]) && Validated(nodes[1]) && Validated(nodes[2]);
    assert Steady(nodes[0]) && Steady(nodes[1]) && Steady(nodes[2]) && !WindowsFit(nodes[2]);
    var n := BoolOp(And, nodes);
    CompiledSafe(n);
    assert Eval(no, ctx) == Ok(Bool(false)) by { Falsehood(ctx); }
    FirstDecides(And, false, RunTruths(CompileAll(nodes).value, ctx));
    FirstDecides(And, false, Truths(nodes, ctx));
    BoolAgrees(And, nodes, ctx);
  }

  lemma FirstDecides(c: Connective, b: bool, truths: Result<seq<Option<bool>>, Failure>)
    requires truths.Ok? ==> |truths.value| > 0 && truths.value[0] == Some(b)
    requires b == c.Or?
    ensures truths.Ok? ==> Connected(c, truths.value) == Bool(b)
  {
  }

  lemma Falsehood(ctx: Context)
    ensures Eval(Literal(Truth(false)), ctx) == Ok(Bool(false))
  {
  }

  lemma MeanCompiles(name: string, count: nat, ctx: Context)
    requires count <= USIZE_MAX
    ensures var n := MeanOf(name, count);
      && Validated(n) && Steady(n) && Compile(n).Ok? && Safe(Compile(n).value)
      && (WindowsFit(n) <==> count <= I64_MAX) && ReadsFit(MeanOf(name, I64_MAX), ctx)
      && Compile(n) == Ok(PlanCall("mean", [PlanRange(name, Some(count), None)]))
      && (count > I64_MAX ==> Eval(n, ctx) == Ok(Unknown))
  {
    var arg, p := RangeRef(name, Some(count), None), PlanRange(name, Some(count), None);
    SoleWindowFits("mean", arg);
    assert [arg][1..] == [];
    assert [p] + [] == [p] && CompileAll([arg]) == Ok([p] + []);
    assert WindowsFit([arg][0]) <==> count <= I64_MAX;
    var nothing: seq<Option<Float>> := [];
    assert Numbers([], ctx) == Ok(nothing) && AllKnown(nothing).Some?;
  }

  lemma Saturated(name: string, ctx: Context)
    ensures var p, q := PlanCall("mean", [PlanRange(name, Some(I64_MAX), None)]),
                        PlanCall("mean", [PlanRange(name, Some(I64_MAX + 1), None)]);
      Safe(p) && Safe(q) && RunPlan(p, ctx) == RunPlan(q, ctx)
  {
    var x, y := [PlanRange(name, Some(I64_MAX), None)], [PlanRange(name, Some(I64_MAX + 1), None)];
    assert x[1..] == y[1..] == [];
    assert PlanPoints(x[0], ctx, None) == PlanPoints(y[0], ctx, None);
  }

  /** Three operands, compiled and evaluated one after the other. */
  lemma Three(x: Node, y: Node, z: Node, ctx: Context)
    requires Compile(x).Ok? && Compile(y).Ok? && Compile(z).Ok?
    requires Safe(Compile(x).value) && Safe(Compile(y).value) && Safe(Compile(z).value)
    ensures var p, q, r := Compile(x).value, Compile(y).value, Compile(z).value;
      && CompileAll([x, y, z]) == Ok([p, q, r])
      && Truths([x, y, z], ctx) == InTurn(Eval(x, ctx), Eval(y, ctx), Eval(z, ctx))
      && RunTruths([p, q, r], ctx) == InTurn(RunPlan(p, ctx), RunPlan(q, ctx), RunPlan(r, ctx))
  {
    hide Eval, RunPlan, Compile, Safe, Truths, RunTruths, CompileAll;
    var p, q, r := Compile(x).value, Compile(y).value, Compile(z).value;
    assert [x] + ([y] + ([z] + [])) == [x, y, z] && [y] + ([z] + []) == [y, z] && [z] + [] == [z];
    assert [p] + ([q] + ([r] + [])) == [p, q, r] && [q] + ([r] + []) == [q, r] && [r] + [] == [r];
    NoneLeft(ctx);
    OneMore(z, [], [], ctx);
    OneMore(y, [z], [r], ctx);
    OneMore(x, [y, z], [q, r], ctx);
    var a, b, c := Eval(x, ctx), Eval(y, ctx), Eval(z, ctx);
    if a.Ok? && b.Ok? && c.Ok? { TruthsInTurn(a.value, b.value, c.value); }
    var d, e, f := RunPlan(p, ctx), RunPlan(q, ctx), RunPlan(r, ctx);
    if d.Ok? && e.Ok? && f.Ok? { TruthsInTurn(d.value, e.value, f.value); }
  }

  lemma NoneLeft(ctx: Context)
    ensures CompileAll([]) == Ok([]) && Truths([], ctx) == Ok([]) && RunTruths([], ctx) == Ok([])
  {
  }

  lemma OneMore(x: Node, nodes: seq<Node>, plans: seq<Plan>, ctx: Context)
    requires Compile(x).Ok? && Safe(Compile(x).value) && CompileAll(nodes) == Ok(plans)
    requires forall i :: 0 <= i < |plans| ==> Safe(plans[i])
    ensures var p := Compile(x).value;
      && CompileAll([x] + nodes) == Ok([p] + plans)
      && Truths([x] + nodes, ctx) == Onwards(Eval(x, ctx), Truths(nodes, ctx))
      && RunTruths([p] + plans, ctx) == Onwards(RunPlan(p, ctx), RunTruths(plans, ctx))
  {
    hide Eval, RunPlan, Compile, Safe;
    assert ([x] + nodes)[1..] == nodes && ([Compile(x).value] + plans)[1..] == plans;
  }

  function Onwards(a: Outcome, rest: Result<seq<Option<bool>>, Failure>): Result<seq<Option<bool>>, Failure> {
    if a.Err? then Err(a.error) else if rest.Err? then rest else Ok([a.value.Truth()] + rest.value)
  }

  lemma TruthsInTurn(a: Value, b: Value, c: Value)
    ensures [a.Truth()] + ([b.Truth()] + ([c.Truth()] + [])) == [a.Truth(), b.Truth(), c.Truth()]
  {
  }

  function InTurn(a: Outcome, b: Outcome, c: Outcome): Result<seq<Option<bool>>, Failure> {
    if a.Err? then Err(a.error) else if b.Err? then Err(b.error) else if c.Err? then Err(c.error)
    else Ok([a.value.Truth(), b.value.Truth(), c.value.Truth()])
  }

  lemma BoolAgrees(c: Connective, nodes: seq<Node>, ctx: Context)
    requires Compile(BoolOp(c, nodes)).Ok? && Safe(Compile(BoolOp(c, nodes)).value)
    requires forall i :: 0 <= i < |CompileAll(nodes).value| ==> Safe(CompileAll(nodes).value[i])
    requires Joined(c, RunTruths(CompileAll(nodes).value, ctx)) == Joined(c, Truths(nodes, ctx))
    ensures Agrees(BoolOp(c, nodes), ctx)
  {
  }
}
