/** Alert expressions: their syntax trees. */
module AlertNodes {
  import opened Floats
  import opened Results

  datatype Constant = Number(n: Float) | Truth(b: bool)

  const USIZE_MAX: int := 0xFFFF_FFFF_FFFF_FFFF

  datatype Connective = And | Or

  datatype Operator = Gt | Ge | Lt | Le | Eq | Ne | Add | Sub | Mul | Div | Mod

  predicate Comparing(op: Operator) { op in {Gt, Ge, Lt, Le, Eq, Ne} }

  /** A `BinOp` and a `Compare` differ only in their operator. A window is a number of points
      or a duration in seconds. */
  datatype Node =
    | Literal(value: Constant)
    | MetricRef(name: string)
    | RangeRef(name: string, count: Option<int>, duration: Option<Float>)
    | Call(func: string, args: seq<Node>)
    | Negative(operand: Node)
    | Binary(op: Operator, left: Node, right: Node)
    | BoolOp(connective: Connective, values: seq<Node>)
    | Not(operand: Node)

  function MetricName(n: Node): Option<string> {
    match n
    case MetricRef(name) => Some(name)
    case RangeRef(name, _, _) => Some(name)
    case _ => None
  }

  /** `metrics`: the names an expression refers to. */
  function Metrics(n: Node): set<string> {
    match n
    case Literal(_) => {}
    case MetricRef(name) => {name}
    case RangeRef(name, _, _) => {name}
    case Call(_, args) => AllMetrics(args)
    case Negative(x) => Metrics(x)
    case Binary(_, x, y) => Metrics(x) + Metrics(y)
    case BoolOp(_, values) => AllMetrics(values)
    case Not(x) => Metrics(x)
  }

  function AllMetrics(nodes: seq<Node>): set<string> {
    if nodes == [] then {} else Metrics(nodes[0]) + AllMetrics(nodes[1..])
  }

  lemma {:induction false} AllMetricsPush(nodes: seq<Node>, n: Node)
    ensures AllMetrics(nodes + [n]) == AllMetrics(nodes) + Metrics(n)
  {
    if nodes == [] {
      assert [n][1..] == [] && [] + [n] == [n];
    } else {
      AllMetricsPush(nodes[1..], n);
      assert (nodes + [n])[1..] == nodes[1..] + [n];
    }
  }
}
