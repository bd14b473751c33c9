/** Values of alert expressions, what an expression may ask of its run, and the functions it
    may call. */
module AlertValues {
  import opened Floats
  import opened Results
  import opened AlertNodes

  datatype Value = Unknown | Num(n: Float) | Bool(b: bool) {
    /** `num`: truth values count as one and zero. */
    function Number(): Option<Float> {
      match this
      case Unknown => None
      case Num(n) => Some(n)
      case Bool(b) => Some(Finite(if b then 1.0 else 0.0))
    }

    /** `truth`: known and not zero; numbers that are not finite are unknown. */
    function Truth(): Option<bool> {
      match Number()
      case Some(Finite(r)) => Some(r != 0.0)
      case _ => None
    }
  }

  /** `Value::number`: numbers that are not finite are unknown. */
  function Finitely(n: Float): Value { if n.Finite? then Num(n) else Unknown }

  function Constantly(c: Constant): Value {
    match c
    case Number(n) => Finitely(n)
    case Truth(b) => Bool(b)
  }

  function Atleast(r: real, bound: Float): bool {
    match bound
    case Finite(b) => r >= b
    case NaN => false
    case Infinite(negative) => negative
  }

  function Positive(r: real): real { if r > 0.0 then r else 0.0 }

  // ---------------------------------------------------------------- operators

  function Trunc(r: real): int { if r >= 0.0 then r.Floor else -((-r).Floor) }

  /** What is left of `a` after taking `k` times `b`. */
  function Left(a: real, b: real, k: int): real { a - b * (k as real) }

  /** The remainder with the sign of the divisor, from the one with the sign of the dividend. */
  function Modulo(a: real, b: real): real
    requires b != 0.0
  {
    var rem := Left(a, b, Trunc(a / b));
    if rem != 0.0 && (rem < 0.0) != (b < 0.0) then rem + b else rem
  }

  /** It is the floored remainder, between zero and the divisor. */
  lemma ModuloIsFloored(a: real, b: real)
    requires b != 0.0
    ensures Modulo(a, b) == Left(a, b, (a / b).Floor)
    ensures if b > 0.0 then 0.0 <= Modulo(a, b) < b else b < Modulo(a, b) <= 0.0
  {
    hide Left;
    var f := (a / b).Floor;
    LeftOfFloor(a, b);
    LeftOneMore(a, b, f);
    TruncIsFloor(a / b);
  }

  lemma TruncIsFloor(q: real)
    ensures Trunc(q) == q.Floor || Trunc(q) == q.Floor + 1
  {
  }

  lemma LeftOfFloor(a: real, b: real)
    requires b != 0.0
    ensures var rem := Left(a, b, (a / b).Floor); if b > 0.0 then 0.0 <= rem < b else b < rem <= 0.0
  {
    hide Left, Product;
    LeftIsProduct(a, b, (a / b).Floor);
    Scaled(b, a / b - (a / b).Floor as real);
  }

  function Product(x: real, y: real): real { x * y }

  lemma LeftIsProduct(a: real, b: real, k: int)
    requires b != 0.0
    ensures Left(a, b, k) == Product(b, a / b - k as real)
  {
    assert b * (a / b) == a;
  }

  lemma LeftOneMore(a: real, b: real, k: int)
    ensures Left(a, b, k + 1) == Left(a, b, k) - b
  {
  }

  lemma Scaled(b: real, x: real)
    requires b != 0.0 && 0.0 <= x < 1.0
    ensures if b > 0.0 then 0.0 <= Product(b, x) < b else b < Product(b, x) <= 0.0
  {
    if b > 0.0 {
      assert b * (1.0 - x) > 0.0;
    } else {
      assert -b * (1.0 - x) > 0.0;
    }
  }

  /** Both operands must be known and finite. */
  function Operate(op: Operator, x: Option<Float>, y: Option<Float>): Value {
    if x.None? || y.None? || !x.value.Finite? || !y.value.Finite? then Unknown
    else
      var a, b := x.value.r, y.value.r;
      match op
      case Gt => Bool(a > b)
      case Ge => Bool(a >= b)
      case Lt => Bool(a < b)
      case Le => Bool(a <= b)
      case Eq => Bool(a == b)
      case Ne => Bool(a != b)
      case Add => Num(Finite(a + b))
      case Sub => Num(Finite(a - b))
      case Mul => Num(Finite(Product(a, b)))
      case Div => if b == 0.0 then Unknown else Num(Finite(a / b))
      case Mod => if b == 0.0 then Unknown else Num(Finite(Modulo(a, b)))
  }

  // ---------------------------------------------------------------- the run an expression sees

  datatype Failure = BadExpression(text: string) | Other(text: string)

  datatype Point = Point(step: int, time: real, value: Float)

  /** Look-ups into the run, any of which may fail, and the numeric library. */
  datatype Context = Context(
    resolve: string -> Result<Option<string>, Failure>,
    newest: string -> Result<Option<Point>, Failure>,
    window: (string, Option<int>, Option<Float>) -> Result<seq<Point>, Failure>,
    step: Result<Option<Float>, Failure>,
    now: Result<real, Failure>,
    startedAt: Result<real, Failure>,
    lastCommit: Result<Option<real>, Failure>,
    windowValue: (string, seq<Point>, seq<Float>) -> Value,
    scalarValue: (string, seq<Float>) -> Value)
  {
    function Latest(name: string): Result<Option<Point>, Failure> {
      match resolve(name)
      case Err(e) => Err(e)
      case Ok(None) => Ok(None)
      case Ok(Some(key)) => newest(key)
    }

    function Points(name: string, count: Option<int>, duration: Option<Float>): Result<seq<Point>, Failure> {
      match resolve(name)
      case Err(e) => Err(e)
      case Ok(None) => Ok([])
      case Ok(Some(key)) => window(key, count, duration)
    }

    function Has(name: string): Result<bool, Failure> {
      match resolve(name)
      case Err(e) => Err(e)
      case Ok(key) => Ok(key.Some?)
    }
  }

  /** A run that has not logged anything. */
  function NoRun(): Context {
    Context(name => Ok(None), key => Ok(None), (key, count, duration) => Ok([]), Ok(None), Ok(0.0), Ok(0.0), Ok(None),
            (func, points, extra) => Unknown, (func, nums) => Unknown)
  }

  // ---------------------------------------------------------------- functions

  datatype Kind = Window | Dual | Scalar | Special

  datatype Meta = Meta(kind: Kind, low: nat, high: Option<nat>, window: Option<nat>)

  /** `function_meta`: kind, arity and default window of a function. */
  function FunctionMeta(name: string): Option<Meta> {
    if name in {"mean", "std", "var", "median", "sum", "first", "count", "slope", "zscore", "increasing", "decreasing"} then
      Some(Meta(Window, 1, Some(1), None))
    else if name == "last" then Some(Meta(Window, 1, Some(1), Some(1)))
    else if name in {"diff", "rate", "pct_change"} then Some(Meta(Window, 1, Some(1), Some(2)))
    else if name in {"ema", "stalled"} then Some(Meta(Window, 1, Some(2), None))
    else if name in {"min", "max"} then Some(Meta(Dual, 1, None, None))
    else if name in {"abs", "exp", "sqrt", "floor", "ceil"} then Some(Meta(Scalar, 1, Some(1), None))
    else if name == "log" then Some(Meta(Scalar, 1, Some(2), None))
    else if name in {"step", "elapsed"} then Some(Meta(Special, 0, Some(0), None))
    else if name in {"no_data", "age", "has", "isnan", "isinf"} then Some(Meta(Special, 1, Some(1), None))
    else None
  }

  /** `alert_validate`: every call names a known function and fits its signature. */
  predicate Validated(n: Node) {
    match n
    case Call(func, args) => AllValidated(args) && FitsSignature(func, args)
    case Negative(x) => Validated(x)
    case Binary(_, x, y) => Validated(x) && Validated(y)
    case BoolOp(_, values) => AllValidated(values)
    case Not(x) => Validated(x)
    case _ => true
  }

  predicate AllValidated(nodes: seq<Node>) { forall i :: 0 <= i < |nodes| ==> Validated(nodes[i]) }

  predicate FitsSignature(func: string, args: seq<Node>) {
    var meta := FunctionMeta(func);
    && meta.Some?
    && |args| >= meta.value.low
    && (meta.value.high.Some? ==> |args| <= meta.value.high.value)
    && (meta.value.kind.Window? ==>
          MetricName(args[0]).Some? && (args[0].MetricRef? ==> meta.value.window.Some?))
    && (meta.value.kind.Dual? && MetricName(args[0]).None? ==> |args| >= 2)
    && (meta.value.kind.Special? && func in {"has", "age", "isnan", "isinf"} ==> MetricName(args[0]).Some?)
  }
}
