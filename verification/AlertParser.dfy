/** The recursive-descent parser of alert expressions, over the tokens of a source text. */
module AlertParser {
  import opened Floats
  import opened Results
  import opened AlertNodes

  datatype Symbol =
    | WordOr | PipePipe | Pipe | WordAnd | AmpAmp | Amp | WordNot | Bang | Tilde
    | Greater | GreaterEqual | Less | LessEqual | EqualEqual | NotEqual
    | Plus | Minus | Star | Slash | Percent
    | Open | Close | OpenBracket | CloseBracket | Comma

  datatype Token = Numeral(value: Float) | Duration(value: Float) | Name(text: string) | Op(symbol: Symbol) | EndOfText

  /** The tokens from the current one on, the end of the text excluded. */
  datatype Tokens = End | Then(head: Token, tail: Tokens)

  function Length(ts: Tokens): nat { match ts case End => 0 case Then(_, tail) => 1 + Length(tail) }

  datatype Problem =
    | EmptyExpression | UnexpectedToken | ExpectedSymbol(symbol: Symbol)
    | WindowOnNonMetric | WindowSize | WindowForm

  /** What went wrong, and how many tokens were left at that point. */
  datatype SyntaxError = SyntaxError(problem: Problem, left: nat)

  datatype Progress = Progress(node: Node, rest: Tokens)

  type Parsed = Result<Progress, SyntaxError>

  ghost predicate Advances(ts: Tokens, p: Parsed) { p.Ok? ==> Length(p.value.rest) < Length(ts) }

  predicate Sees(ts: Tokens, symbols: set<Symbol>) { ts.Then? && ts.head.Op? && ts.head.symbol in symbols }

  const ORS := {WordOr, PipePipe, Pipe}
  const ANDS := {WordAnd, AmpAmp, Amp}
  const NOTS := {WordNot, Bang, Tilde}
  const COMPARISONS := {Greater, GreaterEqual, Less, LessEqual, EqualEqual, NotEqual}
  const SUMS := {Plus, Minus}
  const PRODUCTS := {Star, Slash, Percent}

  function Connectives(c: Connective): set<Symbol> { if c.Or? then ORS else ANDS }

  function OperatorOf(s: Symbol): Operator {
    match s
    case Greater => Gt
    case GreaterEqual => Ge
    case Less => Lt
    case LessEqual => Le
    case EqualEqual => Eq
    case NotEqual => Ne
    case Plus => Add
    case Minus => Sub
    case Star => Mul
    case Slash => Div
    case _ => Mod
  }

  function Fail(problem: Problem, ts: Tokens): Parsed { Err(SyntaxError(problem, Length(ts))) }

  /** One operand stands for itself, several make a Boolean node. */
  function Gathered(c: Connective, nodes: seq<Node>): Node
    requires nodes != []
  {
    if |nodes| == 1 then nodes[0] else BoolOp(c, nodes)
  }

  // ---------------------------------------------------------------- the grammar

  /** `or` and `and`: operands of the next tighter level, separated by one connective. */
  function ParseBool(c: Connective, ts: Tokens): (p: Parsed)
    ensures Advances(ts, p)
    decreases Length(ts), if c.Or? then 12 else 9
  {
    ParseOperands(c, [], ts)
  }

  function ParseOperands(c: Connective, nodes: seq<Node>, ts: Tokens): (p: Parsed)
    ensures Advances(ts, p)
    decreases Length(ts), if c.Or? then 11 else 8
  {
    match if c.Or? then ParseBool(And, ts) else ParseNot(ts)
    case Err(e) => Err(e)
    case Ok(first) => MoreOperands(c, nodes + [first.node], first.rest)
  }

  function MoreOperands(c: Connective, nodes: seq<Node>, ts: Tokens): (p: Parsed)
    requires nodes != []
    ensures p.Ok? ==> Length(p.value.rest) <= Length(ts)
    decreases Length(ts), 0
  {
    if Sees(ts, Connectives(c)) then ParseOperands(c, nodes, ts.tail) else Ok(Progress(Gathered(c, nodes), ts))
  }

  function ParseNot(ts: Tokens): (p: Parsed)
    ensures Advances(ts, p)
    decreases Length(ts), 7
  {
    if Sees(ts, NOTS) then
      match ParseNot(ts.tail)
      case Err(e) => Err(e)
      case Ok(x) => Ok(Progress(Not(x.node), x.rest))
    else ParseCompare(ts)
  }

  /** A chain of comparisons is the conjunction of its links. */
  function ParseCompare(ts: Tokens): (p: Parsed)
    ensures Advances(ts, p)
    decreases Length(ts), 6
  {
    match ParseSum(ts)
    case Err(e) => Err(e)
    case Ok(left) => MoreComparisons(left.node, [], left.rest)
  }

  function MoreComparisons(left: Node, links: seq<Node>, ts: Tokens): (p: Parsed)
    ensures p.Ok? ==> Length(p.value.rest) <= Length(ts)
    decreases Length(ts), 6
  {
    if Sees(ts, COMPARISONS) then
      match ParseSum(ts.tail)
      case Err(e) => Err(e)
      case Ok(right) =>
        MoreComparisons(right.node, links + [Binary(OperatorOf(ts.head.symbol), left, right.node)], right.rest)
    else Ok(Progress(if links == [] then left else Gathered(And, links), ts))
  }

  function ParseSum(ts: Tokens): (p: Parsed)
    ensures Advances(ts, p)
    decreases Length(ts), 5
  {
    match ParseProduct(ts)
    case Err(e) => Err(e)
    case Ok(left) => MoreTerms(left.node, left.rest)
  }

  function MoreTerms(left: Node, ts: Tokens): (p: Parsed)
    ensures p.Ok? ==> Length(p.value.rest) <= Length(ts)
    decreases Length(ts), 5
  {
    if Sees(ts, SUMS) then
      match ParseProduct(ts.tail)
      case Err(e) => Err(e)
      case Ok(right) => MoreTerms(Binary(OperatorOf(ts.head.symbol), left, right.node), right.rest)
    else Ok(Progress(left, ts))
  }

  function ParseProduct(ts: Tokens): (p: Parsed)
    ensures Advances(ts, p)
    decreases Length(ts), 4
  {
    match ParseUnary(ts)
    case Err(e) => Err(e)
    case Ok(left) => MoreFactors(left.node, left.rest)
  }

  function MoreFactors(left: Node, ts: Tokens): (p: Parsed)
    ensures p.Ok? ==> Length(p.value.rest) <= Length(ts)
    decreases Length(ts), 4
  {
    if Sees(ts, PRODUCTS) then
      match ParseUnary(ts.tail)
      case Err(e) => Err(e)
      case Ok(right) => MoreFactors(Binary(OperatorOf(ts.head.symbol), left, right.node), right.rest)
    else Ok(Progress(left, ts))
  }

  function ParseUnary(ts: Tokens): (p: Parsed)
    ensures Advances(ts, p)
    decreases Length(ts), 3
  {
    if Sees(ts, SUMS) then
      match ParseUnary(ts.tail)
      case Err(e) => Err(e)
      case Ok(x) => Ok(if ts.head.symbol.Plus? then x else Progress(Negative(x.node), x.rest))
    else ParsePostfix(ts)
  }

  /** `value as usize`, which saturates. */
  function AsUsize(r: real): nat {
    if r <= 0.0 then 0 else if r.Floor > USIZE_MAX then USIZE_MAX else r.Floor
  }

  function ParsePostfix(ts: Tokens): (p: Parsed)
    ensures Advances(ts, p)
    decreases Length(ts), 2
  {
    match ParsePrimary(ts)
    case Err(e) => Err(e)
    case Ok(x) =>
      if !Sees(x.rest, {OpenBracket}) then Ok(x)
      else if !x.node.MetricRef? then Fail(WindowOnNonMetric, x.rest)
      else ParseWindow(x.node.name, x.rest.tail)
  }

  function ParseWindow(name: string, ts: Tokens): (p: Parsed)
    ensures Advances(ts, p)
  {
    if ts.End? then Fail(WindowForm, ts)
    else if ts.head.Duration? then Windowed(RangeRef(name, None, Some(ts.head.value)), ts.tail)
    else if ts.head.Numeral? then
      var v := ts.head.value;
      if !v.Finite? || v.r <= 0.0 || v.r.Floor as real != v.r then Fail(WindowSize, ts)
      else Windowed(RangeRef(name, Some(AsUsize(v.r)), None), ts.tail)
    else Fail(WindowForm, ts)
  }

  function Windowed(node: Node, ts: Tokens): (p: Parsed)
    ensures Advances(ts, p)
  {
    if Sees(ts, {CloseBracket}) then Ok(Progress(node, ts.tail)) else Fail(ExpectedSymbol(CloseBracket), ts)
  }

  function ParsePrimary(ts: Tokens): (p: Parsed)
    ensures Advances(ts, p)
    decreases Length(ts), 1
  {
    if Sees(ts, {Open}) then
      match ParseBool(Or, ts.tail)
      case Err(e) => Err(e)
      case Ok(x) => Closed(x.node, x.rest)
    else if ts.End? then Fail(UnexpectedToken, ts)
    else
      match ts.head
      case Numeral(v) => Ok(Progress(Literal(Number(v)), ts.tail))
      case Duration(v) => Ok(Progress(Literal(Number(v)), ts.tail))
      case Name(text) =>
        if text == "true" || text == "false" then
          Ok(Progress(Literal(Number(Finite(if text == "true" then 1.0 else 0.0))), ts.tail))
        else if Sees(ts.tail, {Open}) then
          if Sees(ts.tail.tail, {Close}) then Closed(Call(text, []), ts.tail.tail)
          else ParseArgs(text, [], ts.tail.tail)
        else Ok(Progress(MetricRef(text), ts.tail))
      case _ => Fail(UnexpectedToken, ts)
  }

  function Closed(node: Node, ts: Tokens): (p: Parsed)
    ensures Advances(ts, p)
  {
    if Sees(ts, {Close}) then Ok(Progress(node, ts.tail)) else Fail(ExpectedSymbol(Close), ts)
  }

  function ParseArgs(func: string, args: seq<Node>, ts: Tokens): (p: Parsed)
    ensures Advances(ts, p)
    decreases Length(ts), 13
  {
    match ParseBool(Or, ts)
    case Err(e) => Err(e)
    case Ok(x) =>
      if Sees(x.rest, {Comma}) then ParseArgs(func, args + [x.node], x.rest.tail)
      else Closed(Call(func, args + [x.node]), x.rest)
  }

  /** `parse`: one expression, up to the end of the text. */
  function Parse(ts: Tokens): Result<Node, SyntaxError> {
    if ts.End? then Err(SyntaxError(EmptyExpression, 0))
    else
      match ParseBool(Or, ts)
      case Err(e) => Err(e)
      case Ok(x) => if x.rest.End? then Ok(x.node) else Err(SyntaxError(UnexpectedToken, Length(x.rest)))
  }

  // ---------------------------------------------------------------- the parser as it runs

  /** A token vector closed by its end marker, and the tokens from a position on. */
  predicate Terminated(tokens: seq<Token>) {
    tokens != [] && forall i :: 0 <= i < |tokens| ==> (tokens[i] == EndOfText <==> i == |tokens| - 1)
  }

  function From(tokens: seq<Token>, pos: nat): (ts: Tokens)
    requires Terminated(tokens) && pos < |tokens|
    ensures Length(ts) == |tokens| - 1 - pos
    decreases |tokens| - pos
  {
    if tokens[pos] == EndOfText then End else Then(tokens[pos], From(tokens, pos + 1))
  }

  class Parser {
    const tokens: seq<Token>
    var pos: nat

    constructor (tokens: seq<Token>)
      requires Terminated(tokens)
      ensures Valid() && Rest() == From(tokens, 0)
    {
      this.tokens, pos := tokens, 0;
    }

    predicate Valid()
      reads this
    {
      Terminated(tokens) && pos < |tokens|
    }

    function Rest(): (ts: Tokens)
      requires Valid()
      reads this
      ensures ts.End? <==> tokens[pos] == EndOfText
      ensures ts.Then? ==> pos + 1 < |tokens| && ts.head == tokens[pos] && ts.tail == From(tokens, pos + 1)
      ensures Length(ts) == |tokens| - 1 - pos
    {
      From(tokens, pos)
    }

    function Matches(symbols: set<Symbol>): (b: bool)
      requires Valid()
      reads this
      ensures b == Sees(Rest(), symbols)
    {
      tokens[pos].Op? && tokens[pos].symbol in symbols
    }

    method Advance() returns (t: Token)
      requires Valid() && Rest().Then?
      modifies this
      ensures Valid() && t == old(Rest()).head && Rest() == old(Rest()).tail
    {
      t := tokens[pos];
      pos := pos + 1;
    }

    function Error(problem: Problem): (e: SyntaxError)
      requires Valid()
      reads this
      ensures e == SyntaxError(problem, Length(Rest()))
    {
      SyntaxError(problem, |tokens| - 1 - pos)
    }

    /** What a grammar method promises: the same node and the same tokens left, or the same error. */
    ghost predicate Follows(p: Parsed, r: Result<Node, SyntaxError>)
      reads this
    {
      && Valid()
      && (p.Ok? ==> r == Ok(p.value.node) && Rest() == p.value.rest)
      && (p.Err? ==> r == Err(p.error))
    }

    method ParseText() returns (r: Result<Node, SyntaxError>)
      requires Valid()
      modifies this
      ensures r == Parse(old(Rest()))
    {
      if tokens[pos] == EndOfText { return Err(Error(EmptyExpression)); }
      r := OrLevel();
      if r.Ok? && tokens[pos] != EndOfText { r := Err(Error(UnexpectedToken)); }
    }

    method OrLevel() returns (r: Result<Node, SyntaxError>)
      requires Valid()
      modifies this
      ensures Follows(ParseBool(Or, old(Rest())), r)
      decreases Length(Rest()), 12
    {
      hide ParseBool, ParseNot, From;
      ghost var goal := ParseBool(Or, Rest());
      assert goal == ParseOperands(Or, [], Rest()) by { BoolIsOperands(Or, Rest()); }
      var nodes: seq<Node> := [];
      while true
        invariant Valid() && Length(Rest()) <= Length(old(Rest()))
        invariant goal == ParseOperands(Or, nodes, Rest())
        decreases Length(Rest())
      {
        var x := AndLevel();
        if x.Err? { return Err(x.error); }
        nodes := nodes + [x.value];
        if !Matches(ORS) { break; }
        var t := Advance();
      }
      r := Ok(Gathered(Or, nodes));
    }

    method AndLevel() returns (r: Result<Node, SyntaxError>)
      requires Valid()
      modifies this
      ensures Follows(ParseBool(And, old(Rest())), r)
      decreases Length(Rest()), 9
    {
      hide ParseBool, ParseNot, From;
      ghost var goal := ParseBool(And, Rest());
      assert goal == ParseOperands(And, [], Rest()) by { BoolIsOperands(And, Rest()); }
      var nodes: seq<Node> := [];
      while true
        invariant Valid() && Length(Rest()) <= Length(old(Rest()))
        invariant goal == ParseOperands(And, nodes, Rest())
        decreases Length(Rest())
      {
        var x := NotLevel();
        if x.Err? { return Err(x.error); }
        nodes := nodes + [x.value];
        if !Matches(ANDS) { break; }
        var t := Advance();
      }
      r := Ok(Gathered(And, nodes));
    }

    method NotLevel() returns (r: Result<Node, SyntaxError>)
      requires Valid()
      modifies this
      ensures Follows(ParseNot(old(Rest())), r)
      decreases Length(Rest()), 7
    {
      hide ParseCompare, From;
      if Matches(NOTS) {
        var t := Advance();
        r := NotLevel();
        if r.Ok? { r := Ok(Not(r.value)); }
      } else {
        r := Compare();
      }
    }

    method Compare() returns (r: Result<Node, SyntaxError>)
      requires Valid()
      modifies this
      ensures Follows(ParseCompare(old(Rest())), r)
      decreases Length(Rest()), 6
    {
      hide ParseSum, From;
      ghost var goal := ParseCompare(Rest());
      var x := Arith();
      if x.Err? { return x; }
      var left, links: seq<Node> := x.value, [];
      while Matches(COMPARISONS)
        invariant Valid() && Length(Rest()) < Length(old(Rest()))
        invariant goal == MoreComparisons(left, links, Rest())
        decreases Length(Rest())
      {
        var op := Advance();
        var right := Arith();
        if right.Err? { return right; }
        links := links + [Binary(OperatorOf(op.symbol), left, right.value)];
        left := right.value;
      }
      r := Ok(if links == [] then left else Gathered(And, links));
    }

    method Arith() returns (r: Result<Node, SyntaxError>)
      requires Valid()
      modifies this
      ensures Follows(ParseSum(old(Rest())), r)
      decreases Length(Rest()), 5
    {
      hide ParseProduct, From;
      ghost var goal := ParseSum(Rest());
      var x := Term();
      if x.Err? { return x; }
      var left := x.value;
      while Matches(SUMS)
        invariant Valid() && Length(Rest()) < Length(old(Rest()))
        invariant goal == MoreTerms(left, Rest())
        decreases Length(Rest())
      {
        var op := Advance();
        var right := Term();
        if right.Err? { return right; }
        left := Binary(OperatorOf(op.symbol), left, right.value);
      }
      r := Ok(left);
    }

    method Term() returns (r: Result<Node, SyntaxError>)
      requires Valid()
      modifies this
      ensures Follows(ParseProduct(old(Rest())), r)
      decreases Length(Rest()), 4
    {
      hide ParseUnary, From;
      ghost var goal := ParseProduct(Rest());
      var x := Unary();
      if x.Err? { return x; }
      var left := x.value;
      while Matches(PRODUCTS)
        invariant Valid() && Length(Rest()) < Length(old(Rest()))
        invariant goal == MoreFactors(left, Rest())
        decreases Length(Rest())
      {
        var op := Advance();
        var right := Unary();
        if right.Err? { return right; }
        left := Binary(OperatorOf(op.symbol), left, right.value);
      }
      r := Ok(left);
    }

    method Unary() returns (r: Result<Node, SyntaxError>)
      requires Valid()
      modifies this
      ensures Follows(ParseUnary(old(Rest())), r)
      decreases Length(Rest()), 3
    {
      hide ParsePostfix, From;
      if Matches(SUMS) {
        var op := Advance();
        r := Unary();
        if r.Ok? && op.symbol == Minus { r := Ok(Negative(r.value)); }
      } else {
        r := Postfix();
      }
    }

    method Postfix() returns (r: Result<Node, SyntaxError>)
      requires Valid()
      modifies this
      ensures Follows(ParsePostfix(old(Rest())), r)
      decreases Length(Rest()), 2
    {
      hide ParsePrimary, From;
      r := Primary();
      if r.Err? || !Matches({OpenBracket}) { return; }
      if !r.value.MetricRef? { return Err(Error(WindowOnNonMetric)); }
      var bracket := Advance();
      r := Window(r.value.name);
    }

    method Window(name: string) returns (r: Result<Node, SyntaxError>)
      requires Valid()
      modifies this
      ensures Follows(ParseWindow(name, old(Rest())), r)
    {
      hide From;
      if tokens[pos] == EndOfText { return Err(Error(WindowForm)); }
      var unread := Error(WindowSize);
      var token := Advance();
      var node;
      if token.Duration? {
        node := RangeRef(name, None, Some(token.value));
      } else if token.Numeral? {
        var v := token.value;
        if !v.Finite? || v.r <= 0.0 || v.r.Floor as real != v.r { return Err(unread); }
        node := RangeRef(name, Some(AsUsize(v.r)), None);
      } else {
        return Err(unread.(problem := WindowForm));
      }
      r := Expect(CloseBracket, node);
    }

    /** `expect`: the node is complete once the closing symbol is there. */
    method Expect(symbol: Symbol, node: Node) returns (r: Result<Node, SyntaxError>)
      requires Valid()
      modifies this
      ensures Valid()
      ensures if Sees(old(Rest()), {symbol}) then r == Ok(node) && Rest() == old(Rest()).tail
              else r == Err(SyntaxError(ExpectedSymbol(symbol), Length(old(Rest()))))
    {
      if !Matches({symbol}) { return Err(Error(ExpectedSymbol(symbol))); }
      var t := Advance();
      r := Ok(node);
    }

    method Primary() returns (r: Result<Node, SyntaxError>)
      requires Valid()
      modifies this
      ensures Follows(ParsePrimary(old(Rest())), r)
      decreases Length(Rest()), 1
    {
      hide ParseBool, From;
      if Matches({Open}) {
        var t := Advance();
        r := OrLevel();
        if r.Ok? { r := Expect(Close, r.value); }
        return;
      }
      match tokens[pos] {
        case Numeral(v) =>
          var t := Advance();
          r := Ok(Literal(Number(v)));
        case Duration(v) =>
          var t := Advance();
          r := Ok(Literal(Number(v)));
        case Name(text) =>
          var t := Advance();
          if text == "true" || text == "false" {
            r := Ok(Literal(Number(Finite(if text == "true" then 1.0 else 0.0))));
          } else if Matches({Open}) {
            r := Args(text);
          } else {
            r := Ok(MetricRef(text));
          }
        case _ =>
          r := Err(Error(UnexpectedToken));
      }
    }

    method Args(func: string) returns (r: Result<Node, SyntaxError>)
      requires Valid() && Sees(Rest(), {Open})
      modifies this
      ensures Follows(if Sees(old(Rest()).tail, {Close}) then Closed(Call(func, []), old(Rest()).tail)
                      else ParseArgs(func, [], old(Rest()).tail), r)
      decreases Length(Rest()), 0
    {
      hide ParseBool, From;
      var t := Advance();
      var args: seq<Node> := [];
      if !Matches({Close}) {
        ghost var goal := ParseArgs(func, args, Rest());
        while true
          invariant Valid() && Length(Rest()) < Length(old(Rest()))
          invariant goal == ParseArgs(func, args, Rest())
          decreases Length(Rest())
        {
          var x := OrLevel();
          if x.Err? { return x; }
          args := args + [x.value];
          if !Matches({Comma}) { break; }
          var comma := Advance();
        }
      }
      r := Expect(Close, Call(func, args));
    }
  }

  lemma BoolIsOperands(c: Connective, ts: Tokens)
    ensures ParseBool(c, ts) == ParseOperands(c, [], ts)
  {
  }
}
