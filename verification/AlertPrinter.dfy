/** Printing alert expressions, and why parsing the printed tokens gives the expression back. */
module AlertPrinter {
  import opened Floats
  import opened Results
  import opened AlertNodes
  import opened AlertParser

  // ---------------------------------------------------------------- the printer

  function Symbolic(s: Symbol, rest: Tokens): Tokens { Then(Op(s), rest) }

  function SymbolOf(op: Operator): Symbol {
    match op
    case Gt => Greater
    case Ge => GreaterEqual
    case Lt => Less
    case Le => LessEqual
    case Eq => EqualEqual
    case Ne => NotEqual
    case Add => Plus
    case Sub => Minus
    case Mul => Star
    case Div => Slash
    case Mod => Percent
  }

  function WordOf(c: Connective): Symbol { if c.Or? then WordOr else WordAnd }

  /** A number as it is written: a sign is a token of its own, and so is a word. */
  function Written(v: Float, asDuration: bool, rest: Tokens): Tokens {
    match v
    case Finite(r) =>
      var magnitude := Finite(if r < 0.0 then -r else r);
      var unsigned := Then(if asDuration then Duration(magnitude) else Numeral(magnitude), rest);
      if r < 0.0 then Symbolic(Minus, unsigned) else unsigned
    case NaN => Then(Name("nan"), rest)
    case Infinite(negative) =>
      if negative then Symbolic(Minus, Then(Name("inf"), rest)) else Then(Name("inf"), rest)
  }

  /** A metric name, bare or quoted; the three operator words are written bare. */
  function NameTokens(name: string, rest: Tokens): Tokens {
    if name == "and" then Symbolic(WordAnd, rest)
    else if name == "or" then Symbolic(WordOr, rest)
    else if name == "not" then Symbolic(WordNot, rest)
    else Then(Name(name), rest)
  }

  function WindowTokens(count: Option<int>, duration: Option<Float>, rest: Tokens): Tokens {
    match count
    case Some(n) => Written(Finite(n as real), false, rest)
    case None =>
      match duration
      case Some(d) => Written(d, true, rest)
      case None => Written(Finite(0.0), false, rest)
  }

  /** `_wrap` leaves these as they are. */
  predicate Plain(n: Node) { n.Literal? || n.MetricRef? || n.RangeRef? || n.Call? || n.Negative? }

  /** A Boolean operand that binds at least as tightly needs no parentheses. */
  predicate Binds(n: Node, parent: Option<Connective>) {
    n.BoolOp? && parent.Some? && (n.connective == And || parent.value == Or)
  }

  /** The tokens of `to_source`, followed by `rest`. */
  function Show(n: Node, rest: Tokens): Tokens
    decreases n, 0
  {
    match n
    case Literal(Number(v)) => Written(v, false, rest)
    case Literal(Truth(b)) => Then(Name(if b then "true" else "false"), rest)
    case MetricRef(name) => NameTokens(name, rest)
    case RangeRef(name, count, duration) =>
      NameTokens(name, Symbolic(OpenBracket, WindowTokens(count, duration, Symbolic(CloseBracket, rest))))
    case Call(func, args) => Then(Name(func), Symbolic(Open, ShowArgs(args, Symbolic(Close, rest))))
    case Negative(x) => Symbolic(Minus, Wrapped(x, None, rest))
    case Binary(op, x, y) => Wrapped(x, None, Symbolic(SymbolOf(op), Wrapped(y, None, rest)))
    case BoolOp(c, values) =>
      if values == [] then rest else Wrapped(values[0], Some(c), ShowMore(c, values[1..], rest))
    case Not(x) => Symbolic(WordNot, Wrapped(x, None, rest))
  }

  /** `_wrap`. */
  function Wrapped(n: Node, parent: Option<Connective>, rest: Tokens): Tokens
    decreases n, 1
  {
    if Plain(n) || Binds(n, parent) then Show(n, rest) else Symbolic(Open, Show(n, Symbolic(Close, rest)))
  }

  function ShowArgs(args: seq<Node>, rest: Tokens): Tokens
    decreases args
  {
    if args == [] then rest
    else if |args| == 1 then Show(args[0], rest)
    else Show(args[0], Symbolic(Comma, ShowArgs(args[1..], rest)))
  }

  /** Each further operand, with the connective in front of it. */
  function ShowMore(c: Connective, values: seq<Node>, rest: Tokens): Tokens
    decreases values
  {
    if values == [] then rest
    else Symbolic(WordOf(c), Wrapped(values[0], Some(c), ShowMore(c, values[1..], rest)))
  }

  function Printed(n: Node): Tokens { Show(n, End) }

  // ---------------------------------------------------------------- what survives

  /** The expression as the parser reads it back: nested operands of one connective are one
      list, a negative literal is a negation, a truth value is the number one or zero. */
  function Norm(n: Node): Node {
    match n
    case Literal(Number(Finite(r))) =>
      if r < 0.0 then Negative(Literal(Number(Finite(-r)))) else n
    case Literal(Truth(b)) => Literal(Number(Finite(if b then 1.0 else 0.0)))
    case Literal(_) => n
    case MetricRef(_) => n
    case RangeRef(_, _, _) => n
    case Call(func, args) => Call(func, Norms(args))
    case Negative(x) => Negative(Norm(x))
    case Binary(op, x, y) => Binary(op, Norm(x), Norm(y))
    case BoolOp(c, values) => BoolOp(c, Operands(c, values))
    case Not(x) => Not(Norm(x))
  }

  function Norms(nodes: seq<Node>): seq<Node> {
    if nodes == [] then [] else [Norm(nodes[0])] + Norms(nodes[1..])
  }

  /** The operands of one connective, nested ones inlined. */
  function Operands(c: Connective, values: seq<Node>): seq<Node>
    decreases values
  {
    if values == [] then []
    else
      (if values[0].BoolOp? && values[0].connective == c then Operands(c, values[0].values) else [Norm(values[0])])
      + Operands(c, values[1..])
  }

  // ---------------------------------------------------------------- which expressions

  predicate GoodWindow(count: Option<int>, duration: Option<Float>) {
    || (count.Some? && duration.None? && 0 < count.value <= USIZE_MAX)
    || (count.None? && duration.Some? && duration.value.Finite? && duration.value.r >= 0.0)
  }

  /** Finite literals, valid windows, Boolean nodes of two or more operands, function names that
      are names. */
  predicate Sound(n: Node) {
    match n
    case Literal(Number(v)) => v.Finite?
    case Literal(_) => true
    case MetricRef(_) => true
    case RangeRef(_, count, duration) => GoodWindow(count, duration)
    case Call(func, args) => func !in RESERVED && AllSound(args)
    case Negative(x) => Sound(x)
    case Binary(_, x, y) => Sound(x) && Sound(y)
    case BoolOp(_, values) => |values| >= 2 && AllSound(values)
    case Not(x) => Sound(x)
  }

  predicate AllSound(nodes: seq<Node>) { forall i :: 0 <= i < |nodes| ==> Sound(nodes[i]) }

  const RESERVED := {"and", "or", "not", "true", "false"}
}
