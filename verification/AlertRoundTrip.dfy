/** Parsing a printed alert expression gives the expression back. */
module AlertRoundTrip {
  import opened Floats
  import opened Results
  import opened AlertNodes
  import opened AlertParser
  import opened AlertPrinter

  // ---------------------------------------------------------------- what may follow

  /** Tokens that end an operand at a level of the grammar: 0 a postfix expression, 1 a product,
      2 a sum, 3 a comparison, 4 a conjunction, 5 a disjunction. */
  predicate Follow(level: nat, rest: Tokens) {
    && !Sees(rest, {Open, OpenBracket})
    && (level >= 1 ==> !Sees(rest, PRODUCTS))
    && (level >= 2 ==> !Sees(rest, SUMS))
    && (level >= 3 ==> !Sees(rest, COMPARISONS))
    && (level >= 4 ==> !Sees(rest, ANDS))
    && (level >= 5 ==> !Sees(rest, ORS))
  }

  function Level(c: Connective): nat { if c.Or? then 4 else 3 }

  ghost predicate Reads(p: Parsed, n: Node, rest: Tokens) { p == Ok(Progress(n, rest)) }

  // ---------------------------------------------------------------- one level up

  lemma AsProduct(ts: Tokens, n: Node, rest: Tokens)
    requires Reads(ParseUnary(ts), n, rest) && !Sees(rest, PRODUCTS)
    ensures Reads(ParseProduct(ts), n, rest)
  {
    hide ParseUnary;
  }

  lemma AsSum(ts: Tokens, n: Node, rest: Tokens)
    requires Reads(ParseProduct(ts), n, rest) && !Sees(rest, SUMS)
    ensures Reads(ParseSum(ts), n, rest)
  {
    hide ParseProduct;
  }

  lemma AsCompare(ts: Tokens, n: Node, rest: Tokens)
    requires Reads(ParseSum(ts), n, rest) && !Sees(rest, COMPARISONS)
    ensures Reads(ParseCompare(ts), n, rest)
  {
    hide ParseSum;
  }

  lemma AsNot(ts: Tokens, n: Node, rest: Tokens)
    requires Reads(ParseCompare(ts), n, rest) && !Sees(ts, NOTS)
    ensures Reads(ParseNot(ts), n, rest)
  {
    hide ParseCompare;
  }

  lemma AsAnd(ts: Tokens, n: Node, rest: Tokens)
    requires Reads(ParseNot(ts), n, rest) && !Sees(rest, ANDS)
    ensures Reads(ParseBool(And, ts), n, rest)
  {
    hide ParseNot;
    assert [] + [n] == [n];
    assert ParseOperands(And, [], ts) == MoreOperands(And, [] + [n], rest);
    assert MoreOperands(And, [n], rest) == Ok(Progress(n, rest));
    BoolIsOperands(And, ts);
  }

  lemma AsOr(ts: Tokens, n: Node, rest: Tokens)
    requires Reads(ParseBool(And, ts), n, rest) && !Sees(rest, ORS)
    ensures Reads(ParseBool(Or, ts), n, rest)
  {
    hide ParseNot;
    BoolIsOperands(Or, ts);
    OrStep(ts, n, rest);
    assert [] + [n] == [n];
  }

  lemma OrStep(ts: Tokens, n: Node, rest: Tokens)
    requires Reads(ParseBool(And, ts), n, rest)
    ensures ParseOperands(Or, [], ts) == MoreOperands(Or, [] + [n], rest)
  {
    hide ParseBool;
  }

  lemma UnaryIsPostfix(ts: Tokens)
    requires !Sees(ts, SUMS)
    ensures ParseUnary(ts) == ParsePostfix(ts)
  {
    hide ParsePostfix;
  }

  lemma PostfixIsPrimary(ts: Tokens)
    ensures ParsePrimary(ts).Err? ==> ParsePostfix(ts) == ParsePrimary(ts)
    ensures ParsePrimary(ts).Ok? && !Sees(ParsePrimary(ts).value.rest, {OpenBracket}) ==>
      ParsePostfix(ts) == ParsePrimary(ts)
  {
    hide ParsePrimary, ParseWindow;
  }

  /** What `primary` reads, an operand is, unless a window follows. */
  lemma FromPrimary(ts: Tokens, n: Node, rest: Tokens)
    requires Reads(ParsePrimary(ts), n, rest) && !Sees(rest, {OpenBracket}) && !Sees(ts, SUMS)
    ensures Reads(ParseUnary(ts), n, rest)
  {
    hide ParsePrimary, ParsePostfix, ParseUnary;
    UnaryIsPostfix(ts);
    PostfixIsPrimary(ts);
  }

  /** No operand starts with a negation word or a closing parenthesis. */
  lemma UnaryStarts(ts: Tokens)
    requires ParseUnary(ts).Ok?
    ensures !Sees(ts, NOTS) && !Sees(ts, {Close})
  {
    hide ParsePrimary, ParsePostfix, ParseUnary;
    if !Sees(ts, SUMS) {
      UnaryIsPostfix(ts);
      PostfixIsPrimary(ts);
      PrimaryStarts(ts);
    }
  }

  lemma PrimaryStarts(ts: Tokens)
    requires ParsePrimary(ts).Ok?
    ensures !Sees(ts, NOTS) && !Sees(ts, {Close})
  {
    hide ParseBool, ParseArgs, Closed;
  }

  lemma Lift(level: nat, ts: Tokens, n: Node, rest: Tokens)
    requires Reads(ParseUnary(ts), n, rest) && Follow(level, rest)
    ensures level >= 1 ==> Reads(ParseProduct(ts), n, rest)
    ensures level >= 2 ==> Reads(ParseSum(ts), n, rest)
    ensures level >= 3 ==> Reads(ParseCompare(ts), n, rest) && Reads(ParseNot(ts), n, rest)
    ensures level >= 4 ==> Reads(ParseBool(And, ts), n, rest)
    ensures level >= 5 ==> Reads(ParseBool(Or, ts), n, rest)
  {
    hide ParseUnary, ParseProduct, ParseSum, ParseCompare, ParseNot, ParseBool;
    UnaryStarts(ts);
    if level >= 1 { AsProduct(ts, n, rest); }
    if level >= 2 { AsSum(ts, n, rest); }
    if level >= 3 { AsCompare(ts, n, rest); AsNot(ts, n, rest); }
    if level >= 4 { AsAnd(ts, n, rest); }
    if level >= 5 { AsOr(ts, n, rest); }
  }

  // ---------------------------------------------------------------- operands

  ghost predicate Free(n: Node) { Metrics(n) !! RESERVED }

  ghost predicate AllFree(nodes: seq<Node>) { forall i :: 0 <= i < |nodes| ==> Free(nodes[i]) }

  lemma {:induction false} AllMetricsFree(nodes: seq<Node>)
    requires AllMetrics(nodes) !! RESERVED
    ensures AllFree(nodes)
  {
    if nodes != [] {
      AllMetricsFree(nodes[1..]);
      forall i | 0 <= i < |nodes|
        ensures Free(nodes[i])
      {
        if i > 0 { assert nodes[i] == nodes[1..][i - 1]; }
      }
    }
  }

  lemma NumeralRead(v: Float, rest: Tokens)
    requires v.Finite? && Follow(0, rest)
    ensures Reads(ParseUnary(Written(v, false, rest)), Norm(Literal(Number(v))), rest)
  {
    hide ParsePrimary, ParsePostfix, ParseUnary;
    var m := Finite(if v.r < 0.0 then -v.r else v.r);
    var ts := Then(Numeral(m), rest);
    assert Reads(ParsePrimary(ts), Literal(Number(m)), rest) by { NumeralPrimary(m, rest); }
    FromPrimary(ts, Literal(Number(m)), rest);
    if v.r < 0.0 { NegationRead(ts, Literal(Number(m)), rest); }
  }

  lemma NumeralPrimary(v: Float, rest: Tokens)
    ensures Reads(ParsePrimary(Then(Numeral(v), rest)), Literal(Number(v)), rest)
  {
  }

  lemma NamePrimary(name: string, rest: Tokens)
    requires !Sees(rest, {Open})
    ensures ParsePrimary(Then(Name(name), rest))
         == Ok(Progress(if name == "true" then Literal(Number(Finite(1.0)))
                        else if name == "false" then Literal(Number(Finite(0.0)))
                        else MetricRef(name), rest))
  {
    hide ParseBool, ParseArgs, Closed;
  }

  lemma NameRead(name: string, rest: Tokens)
    requires Follow(0, rest)
    ensures name == "true" ==> Reads(ParseUnary(Then(Name(name), rest)), Literal(Number(Finite(1.0))), rest)
    ensures name == "false" ==> Reads(ParseUnary(Then(Name(name), rest)), Literal(Number(Finite(0.0))), rest)
    ensures name !in {"true", "false"} ==> Reads(ParseUnary(Then(Name(name), rest)), MetricRef(name), rest)
  {
    hide ParsePrimary, ParsePostfix, ParseUnary;
    NamePrimary(name, rest);
    FromPrimary(Then(Name(name), rest), ParsePrimary(Then(Name(name), rest)).value.node, rest);
  }

  lemma WindowRead(name: string, count: Option<int>, duration: Option<Float>, rest: Tokens)
    requires name !in RESERVED && GoodWindow(count, duration)
    ensures Reads(ParseUnary(Show(RangeRef(name, count, duration), rest)), RangeRef(name, count, duration), rest)
  {
    hide ParsePrimary, ParsePostfix, ParseUnary;
    var closing := Symbolic(CloseBracket, rest);
    var window := WindowTokens(count, duration, closing);
    var ts := Then(Name(name), Symbolic(OpenBracket, window));
    NamePrimary(name, Symbolic(OpenBracket, window));
    UnaryIsPostfix(ts);
    WindowPostfix(ts, name, window);
    assert Reads(ParseWindow(name, window), RangeRef(name, count, duration), rest);
  }

  lemma WindowPostfix(ts: Tokens, name: string, window: Tokens)
    requires Reads(ParsePrimary(ts), MetricRef(name), Symbolic(OpenBracket, window))
    ensures ParsePostfix(ts) == ParseWindow(name, window)
  {
    hide ParsePrimary, ParseWindow;
  }

  /** A call reads back once its arguments do. */
  lemma CallRead(func: string, ts: Tokens, args: seq<Node>, rest: Tokens)
    requires func !in RESERVED && Follow(0, rest)
    requires if args == [] then ts == Symbolic(Close, rest)
             else !Sees(ts, {Close}) && ParseArgs(func, [], ts) == Closed(Call(func, args), Symbolic(Close, rest))
    ensures Reads(ParseUnary(Then(Name(func), Symbolic(Open, ts))), Call(func, args), rest)
  {
    hide ParsePrimary, ParsePostfix, ParseUnary, ParseArgs;
    var all := Then(Name(func), Symbolic(Open, ts));
    CallPrimary(func, ts);
    FromPrimary(all, Call(func, args), rest);
  }

  lemma CallPrimary(func: string, ts: Tokens)
    requires func !in RESERVED
    ensures ParsePrimary(Then(Name(func), Symbolic(Open, ts)))
         == if Sees(ts, {Close}) then Closed(Call(func, []), ts) else ParseArgs(func, [], ts)
  {
    hide ParseBool, ParseArgs, Closed;
  }

  lemma NegationRead(ts: Tokens, n: Node, rest: Tokens)
    requires Reads(ParseUnary(ts), n, rest)
    ensures Reads(ParseUnary(Symbolic(Minus, ts)), Negative(n), rest)
  {
    hide ParsePostfix;
  }

  lemma ParenthesesRead(ts: Tokens, n: Node, rest: Tokens)
    requires Reads(ParseBool(Or, ts), n, Symbolic(Close, rest)) && Follow(0, rest)
    ensures Reads(ParseUnary(Symbolic(Open, ts)), n, rest)
  {
    hide ParsePrimary, ParsePostfix, ParseUnary, ParseBool;
    ParenthesesPrimary(ts, n, rest);
    FromPrimary(Symbolic(Open, ts), n, rest);
  }

  lemma ParenthesesPrimary(ts: Tokens, n: Node, rest: Tokens)
    requires Reads(ParseBool(Or, ts), n, Symbolic(Close, rest))
    ensures Reads(ParsePrimary(Symbolic(Open, ts)), n, rest)
  {
    hide ParseBool, ParseArgs;
  }

  lemma NotRead(ts: Tokens, n: Node, rest: Tokens)
    requires Reads(ParseNot(ts), n, rest)
    ensures Reads(ParseNot(Symbolic(WordNot, ts)), Not(n), rest)
  {
    hide ParseCompare;
  }

  /** A binary operator between two operands, at whichever level it belongs to. */
  lemma BinaryRead(op: Operator, ts: Tokens, x: Node, us: Tokens, y: Node, rest: Tokens)
    requires Reads(ParseUnary(ts), x, Symbolic(SymbolOf(op), us)) && Reads(ParseUnary(us), y, rest)
    requires Follow(3, rest)
    ensures Reads(ParseCompare(ts), Binary(op, x, y), rest)
  {
    hide ParseUnary, ParseProduct, ParseSum, ParseCompare;
    var mid := Symbolic(SymbolOf(op), us);
    if op in {Mul, Div, Mod} {
      ProductRead(op, ts, x, us, y, rest);
      AsSum(ts, Binary(op, x, y), rest);
      AsCompare(ts, Binary(op, x, y), rest);
    } else {
      AsProduct(ts, x, mid);
      AsProduct(us, y, rest);
      if op in {Add, Sub} {
        SumRead(op, ts, x, us, y, rest);
        AsCompare(ts, Binary(op, x, y), rest);
      } else {
        AsSum(ts, x, mid);
        AsSum(us, y, rest);
        ComparisonRead(op, ts, x, us, y, rest);
      }
    }
  }

  lemma ProductRead(op: Operator, ts: Tokens, x: Node, us: Tokens, y: Node, rest: Tokens)
    requires op in {Mul, Div, Mod} && !Sees(rest, PRODUCTS)
    requires Reads(ParseUnary(ts), x, Symbolic(SymbolOf(op), us)) && Reads(ParseUnary(us), y, rest)
    ensures Reads(ParseProduct(ts), Binary(op, x, y), rest)
  {
    hide ParseUnary;
    assert MoreFactors(Binary(op, x, y), rest) == Ok(Progress(Binary(op, x, y), rest));
    assert MoreFactors(x, Symbolic(SymbolOf(op), us)) == MoreFactors(Binary(op, x, y), rest);
  }

  lemma SumRead(op: Operator, ts: Tokens, x: Node, us: Tokens, y: Node, rest: Tokens)
    requires op in {Add, Sub} && !Sees(rest, SUMS)
    requires Reads(ParseProduct(ts), x, Symbolic(SymbolOf(op), us)) && Reads(ParseProduct(us), y, rest)
    ensures Reads(ParseSum(ts), Binary(op, x, y), rest)
  {
    hide ParseProduct;
    assert MoreTerms(Binary(op, x, y), rest) == Ok(Progress(Binary(op, x, y), rest));
    assert MoreTerms(x, Symbolic(SymbolOf(op), us)) == MoreTerms(Binary(op, x, y), rest);
  }

  lemma ComparisonRead(op: Operator, ts: Tokens, x: Node, us: Tokens, y: Node, rest: Tokens)
    requires Comparing(op) && !Sees(rest, COMPARISONS)
    requires Reads(ParseSum(ts), x, Symbolic(SymbolOf(op), us)) && Reads(ParseSum(us), y, rest)
    ensures Reads(ParseCompare(ts), Binary(op, x, y), rest)
  {
    hide ParseSum;
    var link := Binary(op, x, y);
    assert [] + [link] == [link];
    assert MoreComparisons(y, [link], rest) == Ok(Progress(link, rest));
  }

  // ---------------------------------------------------------------- whole expressions

  ghost predicate Good(n: Node) { Sound(n) && Free(n) }

  ghost predicate AllGood(nodes: seq<Node>) { forall i :: 0 <= i < |nodes| ==> Good(nodes[i]) }

  lemma GoodParts(n: Node)
    requires Good(n)
    ensures n.Call? ==> AllGood(n.args) && n.func !in RESERVED
    ensures n.BoolOp? ==> AllGood(n.values) && |n.values| >= 2
    ensures n.Negative? || n.Not? ==> Good(n.operand)
    ensures n.Binary? ==> Good(n.left) && Good(n.right)
  {
    if n.Call? { AllMetricsFree(n.args); AllGoodFrom(n.args); }
    if n.BoolOp? { AllMetricsFree(n.values); AllGoodFrom(n.values); }
  }

  lemma AllGoodFrom(nodes: seq<Node>)
    requires AllSound(nodes) && AllFree(nodes)
    ensures AllGood(nodes)
  {
    forall i | 0 <= i < |nodes|
      ensures Good(nodes[i])
    {
      assert Sound(nodes[i]) && Free(nodes[i]);
    }
  }

  /** The operands that one value contributes to its connective. */
  function Item(c: Connective, v: Node): seq<Node> {
    if v.BoolOp? && v.connective == c then Operands(c, v.values) else [Norm(v)]
  }

  lemma OperandsCons(c: Connective, values: seq<Node>)
    requires values != []
    ensures Operands(c, values) == Item(c, values[0]) + Operands(c, values[1..])
  {
  }

  lemma {:induction false} OperandsCount(c: Connective, values: seq<Node>)
    requires AllSound(values)
    ensures |Operands(c, values)| >= |values|
    decreases values
  {
    if values != [] {
      OperandsCons(c, values);
      assert Sound(values[0]);
      if values[0].BoolOp? { OperandsCount(c, values[0].values); }
      OperandsCount(c, values[1..]);
    }
  }

  /** Expressions that need no parentheses read back as operands. */
  lemma {:induction false} PlainRead(n: Node, rest: Tokens)
    requires Good(n) && Plain(n) && Follow(0, rest)
    ensures Reads(ParseUnary(Show(n, rest)), Norm(n), rest)
    decreases n, 1
  {
    hide ParseUnary, Follow, Free;
    GoodParts(n);
    match n
    case Literal(Number(v)) => NumeralRead(v, rest);
    case Literal(Truth(b)) => NameRead(if b then "true" else "false", rest);
    case MetricRef(name) =>
      MetricIsFree(n, name);
      NameRead(name, rest);
    case RangeRef(name, count, duration) =>
      MetricIsFree(n, name);
      WindowRead(name, count, duration, rest);
    case Call(func, args) =>
      if args == [] {
        CallRead(func, Symbolic(Close, rest), [], rest);
      } else {
        ArgsRead(func, args, [], rest);
        assert [] + Norms(args) == Norms(args);
        CallRead(func, ShowArgs(args, Symbolic(Close, rest)), Norms(args), rest);
      }
    case Negative(x) =>
      WrappedRead(x, rest);
      NegationRead(Wrapped(x, None, rest), Norm(x), rest);
  }

  lemma MetricIsFree(n: Node, name: string)
    requires Free(n) && MetricName(n) == Some(name)
    ensures name !in RESERVED
  {
    assert name in Metrics(n);
  }

  lemma {:induction false} WrappedRead(n: Node, rest: Tokens)
    requires Good(n) && Follow(0, rest)
    ensures Reads(ParseUnary(Wrapped(n, None, rest)), Norm(n), rest)
    decreases n, 5
  {
    hide ParseUnary, ParseBool, Show, Norm, Good;
    if Plain(n) {
      PlainRead(n, rest);
    } else {
      ShownRead(n, Symbolic(Close, rest));
      ParenthesesRead(Show(n, Symbolic(Close, rest)), Norm(n), rest);
    }
  }

  /** A printed expression followed by a closing token reads back whole. */
  lemma {:induction false} ShownRead(n: Node, rest: Tokens)
    requires Good(n) && Follow(5, rest)
    ensures Reads(ParseBool(Or, Show(n, rest)), Norm(n), rest)
    decreases n, 4
  {
    hide ParseUnary, ParseBool, ParseNot, ParseCompare;
    if Plain(n) {
      PlainRead(n, rest);
      Lift(5, Show(n, rest), Norm(n), rest);
    } else if n.BoolOp? {
      ChainRead(n.connective, n, rest);
      if n.connective == And { AsOr(Show(n, rest), Norm(n), rest); }
    } else {
      LinkRead(n, rest);
      AsAnd(Show(n, rest), Norm(n), rest);
      AsOr(Show(n, rest), Norm(n), rest);
    }
  }

  lemma {:induction false} LinkRead(n: Node, rest: Tokens)
    requires Good(n) && (n.Binary? || n.Not?) && Follow(3, rest)
    ensures Reads(ParseNot(Show(n, rest)), Norm(n), rest)
    decreases n, 1
  {
    hide ParseUnary, ParseNot, ParseCompare, Free;
    GoodParts(n);
    match n
    case Binary(op, x, y) =>
      var us := Wrapped(y, None, rest);
      var ts := Wrapped(x, None, Symbolic(SymbolOf(op), us));
      assert Follow(0, Symbolic(SymbolOf(op), us));
      WrappedRead(x, Symbolic(SymbolOf(op), us));
      WrappedRead(y, rest);
      BinaryRead(op, ts, Norm(x), us, Norm(y), rest);
      UnaryStarts(ts);
      AsNot(ts, Norm(n), rest);
    case Not(x) =>
      WrappedRead(x, rest);
      Lift(3, Wrapped(x, None, rest), Norm(x), rest);
      NotRead(Wrapped(x, None, rest), Norm(x), rest);
  }

  /** A Boolean node reads back as one chain. */
  lemma {:induction false} ChainRead(c: Connective, n: Node, rest: Tokens)
    requires Good(n) && n.BoolOp? && n.connective == c && Follow(Level(c), rest) && !Sees(rest, Connectives(c))
    ensures Reads(ParseBool(c, Show(n, rest)), Norm(n), rest)
    decreases n, 3
  {
    hide ParseBool, ParseOperands, Free, Follow;
    GoodParts(n);
    ValuesRead(c, n.values, [], rest);
    BoolIsOperands(c, Show(n, rest));
    OperandsCount(c, n.values);
    assert [] + Operands(c, n.values) == Operands(c, n.values);
  }

  /** The values of a Boolean node, read as the operands of its connective. */
  lemma {:induction false} ValuesRead(c: Connective, values: seq<Node>, nodes: seq<Node>, rest: Tokens)
    requires values != [] && AllGood(values) && Follow(Level(c), rest)
    ensures Operands(c, values) != []
    ensures ParseOperands(c, nodes, Wrapped(values[0], Some(c), ShowMore(c, values[1..], rest)))
         == MoreOperands(c, nodes + Operands(c, values), rest)
    decreases values, 2
  {
    hide ParseBool, ParseOperands, Free, Wrapped, Operands, Good;
    var more := ShowMore(c, values[1..], rest);
    assert Good(values[0]);
    AllGoodSound(values);
    OperandsCount(c, values);
    OperandsCons(c, values);
    assert Follow(Level(c), more) by { MoreFollows(c, values[1..], rest); }
    ItemRead(c, values[0], nodes, more);
    MoreRead(c, values[1..], nodes + Item(c, values[0]), rest);
    assert (nodes + Item(c, values[0])) + Operands(c, values[1..]) == nodes + Operands(c, values);
  }

  lemma AllGoodSound(values: seq<Node>)
    requires AllGood(values)
    ensures AllSound(values)
  {
  }

  lemma MoreFollows(c: Connective, values: seq<Node>, rest: Tokens)
    requires Follow(Level(c), rest)
    ensures Follow(Level(c), ShowMore(c, values, rest))
  {
    hide Wrapped;
  }

  /** Further values, each behind its connective. */
  lemma {:induction false} MoreRead(c: Connective, values: seq<Node>, nodes: seq<Node>, rest: Tokens)
    requires nodes != [] && AllGood(values) && Follow(Level(c), rest)
    ensures MoreOperands(c, nodes, ShowMore(c, values, rest)) == MoreOperands(c, nodes + Operands(c, values), rest)
    decreases values, 1
  {
    hide ParseBool, ParseOperands, Free, Follow, Wrapped, Good;
    if values == [] {
      assert nodes + [] == nodes;
    } else {
      var more := ShowMore(c, values[1..], rest);
      assert Good(values[0]);
      AllGoodSound(values);
      OperandsCons(c, values);
      MoreFollows(c, values[1..], rest);
      ItemRead(c, values[0], nodes, more);
      MoreRead(c, values[1..], nodes + Item(c, values[0]), rest);
      assert (nodes + Item(c, values[0])) + Operands(c, values[1..]) == nodes + Operands(c, values);
      assert MoreOperands(c, nodes, ShowMore(c, values, rest)) == ParseOperands(c, nodes, Wrapped(values[0], Some(c), more));
    }
  }

  /** One value of a Boolean node. */
  lemma {:induction false} ItemRead(c: Connective, v: Node, nodes: seq<Node>, rest: Tokens)
    requires Good(v) && Follow(Level(c), rest)
    ensures Item(c, v) != []
    ensures ParseOperands(c, nodes, Wrapped(v, Some(c), rest)) == MoreOperands(c, nodes + Item(c, v), rest)
    decreases v, 6
  {
    hide ParseUnary, ParseBool, ParseNot, Free, Follow, Operands, MoreOperands;
    var ts := Wrapped(v, Some(c), rest);
    if v.BoolOp? && v.connective == c {
      GoodParts(v);
      ValuesRead(c, v.values, nodes, rest);
    } else {
      if v.BoolOp? && v.connective == And {
        assert !Sees(rest, ANDS) && Follow(3, rest) by { LevelMeans(c, rest); }
        ChainRead(And, v, rest);
      } else {
        assert ts == Wrapped(v, None, rest);
        LevelMeans(c, rest);
        WrappedRead(v, rest);
        Lift(Level(c), ts, Norm(v), rest);
      }
      OneOperand(c, nodes, ts, Norm(v), rest);
    }
  }

  lemma LevelMeans(c: Connective, rest: Tokens)
    requires Follow(Level(c), rest)
    ensures Follow(0, rest) && Follow(3, rest) && (c == Or ==> !Sees(rest, ANDS))
  {
  }

  lemma OneOperand(c: Connective, nodes: seq<Node>, ts: Tokens, n: Node, rest: Tokens)
    requires if c == Or then Reads(ParseBool(And, ts), n, rest) else Reads(ParseNot(ts), n, rest)
    ensures ParseOperands(c, nodes, ts) == MoreOperands(c, nodes + [n], rest)
  {
    hide ParseBool, ParseNot, MoreOperands;
  }

  lemma {:induction false} ArgsRead(func: string, args: seq<Node>, done: seq<Node>, rest: Tokens)
    requires args != [] && AllGood(args)
    ensures !Sees(ShowArgs(args, Symbolic(Close, rest)), {Close})
    ensures ParseArgs(func, done, ShowArgs(args, Symbolic(Close, rest)))
         == Closed(Call(func, done + Norms(args)), Symbolic(Close, rest))
    decreases args, 0
  {
    hide ParseBool, Closed, Free, Show, Norm, Good;
    assert Good(args[0]);
    var after := if |args| == 1 then Symbolic(Close, rest) else Symbolic(Comma, ShowArgs(args[1..], Symbolic(Close, rest)));
    var ts := Show(args[0], after);
    ShownRead(args[0], after);
    BoolStarts(ts);
    assert ShowArgs(args, Symbolic(Close, rest)) == ts;
    if |args| == 1 {
      assert Norms(args) == [Norm(args[0])] by { assert args[1..] == []; }
    } else {
      ArgsRead(func, args[1..], done + [Norm(args[0])], rest);
      assert done + [Norm(args[0])] + Norms(args[1..]) == done + Norms(args);
    }
  }

  lemma BoolStarts(ts: Tokens)
    requires ParseBool(Or, ts).Ok?
    ensures !Sees(ts, {Close})
  {
    hide ParseUnary;
    assert ParseOperands(Or, [], ts).Ok?;
    assert ParseBool(And, ts).Ok?;
    assert ParseOperands(And, [], ts).Ok?;
    assert ParseNot(ts).Ok?;
    if !Sees(ts, NOTS) {
      assert ParseCompare(ts).Ok?;
      assert ParseSum(ts).Ok?;
      assert ParseProduct(ts).Ok?;
      assert ParseUnary(ts).Ok?;
      UnaryStarts(ts);
    }
  }

  /** Parsing what was printed gives the expression, flattened, with signs as negations. */
  lemma RoundTrip(n: Node)
    requires Sound(n) && Metrics(n) !! RESERVED
    ensures Parse(Printed(n)) == Ok(Norm(n))
  {
    ShownRead(n, End);
  }

  // ---------------------------------------------------------------- reserved metric names

  function Names(ts: Tokens): set<string> {
    match ts
    case End => {}
    case Then(t, tail) => (if t.Name? then {t.text} else {}) + Names(tail)
  }

  const TRUTHS := {"true", "false"}

  /** A reading takes its metrics from the names it has read, truth values excepted. */
  ghost predicate Within(p: Parsed, names: set<string>) {
    p.Ok? ==> Names(p.value.rest) <= names && Metrics(p.value.node) <= names - TRUTHS
  }

  lemma {:induction false} BoolWithin(c: Connective, nodes: seq<Node>, ts: Tokens, names: set<string>)
    requires Names(ts) <= names && AllMetrics(nodes) <= names - TRUTHS
    ensures Within(ParseOperands(c, nodes, ts), names)
    decreases Length(ts), if c.Or? then 11 else 8
  {
    hide Names, Metrics, ParseNot;
    var item := if c.Or? then ParseBool(And, ts) else ParseNot(ts);
    if c.Or? {
      BoolIsOperands(And, ts);
      NothingNamed();
      BoolWithin(And, [], ts, names);
    } else {
      NotWithin(ts, names);
    }
    if item.Ok? {
      AllMetricsPush(nodes, item.value.node);
      MoreWithin(c, nodes + [item.value.node], item.value.rest, names);
    }
  }

  lemma NothingNamed()
    ensures AllMetrics([]) == {}
  {
  }

  lemma {:induction false} MoreWithin(c: Connective, nodes: seq<Node>, ts: Tokens, names: set<string>)
    requires nodes != [] && Names(ts) <= names && AllMetrics(nodes) <= names - TRUTHS
    ensures Within(MoreOperands(c, nodes, ts), names)
    decreases Length(ts), 0
  {
    hide ParseOperands;
    if Sees(ts, Connectives(c)) {
      BoolWithin(c, nodes, ts.tail, names);
    } else {
      GatheredMetrics(c, nodes);
    }
  }

  lemma GatheredMetrics(c: Connective, nodes: seq<Node>)
    requires nodes != []
    ensures Metrics(Gathered(c, nodes)) == AllMetrics(nodes)
  {
    if |nodes| == 1 { assert nodes[1..] == []; }
  }

  lemma {:induction false} NotWithin(ts: Tokens, names: set<string>)
    requires Names(ts) <= names
    ensures Within(ParseNot(ts), names)
    decreases Length(ts), 7
  {
    hide ParseCompare;
    if Sees(ts, NOTS) { NotWithin(ts.tail, names); } else { CompareWithin(ts, names); }
  }

  lemma {:induction false} CompareWithin(ts: Tokens, names: set<string>)
    requires Names(ts) <= names
    ensures Within(ParseCompare(ts), names)
    decreases Length(ts), 6
  {
    hide ParseSum;
    SumWithin(ts, names);
    var p := ParseSum(ts);
    if p.Ok? { LinksWithin(p.value.node, [], p.value.rest, names); }
  }

  lemma {:induction false} LinksWithin(left: Node, links: seq<Node>, ts: Tokens, names: set<string>)
    requires Names(ts) <= names && Metrics(left) <= names - TRUTHS && AllMetrics(links) <= names - TRUTHS
    ensures Within(MoreComparisons(left, links, ts), names)
    decreases Length(ts), 6
  {
    hide ParseSum;
    if Sees(ts, COMPARISONS) {
      SumWithin(ts.tail, names);
      var p := ParseSum(ts.tail);
      if p.Ok? {
        var link := Binary(OperatorOf(ts.head.symbol), left, p.value.node);
        AllMetricsPush(links, link);
        LinksWithin(p.value.node, links + [link], p.value.rest, names);
      }
    } else if links != [] {
      GatheredMetrics(And, links);
    }
  }

  lemma {:induction false} SumWithin(ts: Tokens, names: set<string>)
    requires Names(ts) <= names
    ensures Within(ParseSum(ts), names)
    decreases Length(ts), 5
  {
    hide ParseProduct;
    ProductWithin(ts, names);
    var p := ParseProduct(ts);
    if p.Ok? { TermsWithin(p.value.node, p.value.rest, names); }
  }

  lemma {:induction false} TermsWithin(left: Node, ts: Tokens, names: set<string>)
    requires Names(ts) <= names && Metrics(left) <= names - TRUTHS
    ensures Within(MoreTerms(left, ts), names)
    decreases Length(ts), 5
  {
    hide ParseProduct;
    if Sees(ts, SUMS) {
      ProductWithin(ts.tail, names);
      var p := ParseProduct(ts.tail);
      if p.Ok? { TermsWithin(Binary(OperatorOf(ts.head.symbol), left, p.value.node), p.value.rest, names); }
    }
  }

  lemma {:induction false} ProductWithin(ts: Tokens, names: set<string>)
    requires Names(ts) <= names
    ensures Within(ParseProduct(ts), names)
    decreases Length(ts), 4
  {
    hide ParseUnary;
    UnaryWithin(ts, names);
    var p := ParseUnary(ts);
    if p.Ok? { FactorsWithin(p.value.node, p.value.rest, names); }
  }

  lemma {:induction false} FactorsWithin(left: Node, ts: Tokens, names: set<string>)
    requires Names(ts) <= names && Metrics(left) <= names - TRUTHS
    ensures Within(MoreFactors(left, ts), names)
    decreases Length(ts), 4
  {
    hide ParseUnary;
    if Sees(ts, PRODUCTS) {
      UnaryWithin(ts.tail, names);
      var p := ParseUnary(ts.tail);
      if p.Ok? { FactorsWithin(Binary(OperatorOf(ts.head.symbol), left, p.value.node), p.value.rest, names); }
    }
  }

  lemma {:induction false} UnaryWithin(ts: Tokens, names: set<string>)
    requires Names(ts) <= names
    ensures Within(ParseUnary(ts), names)
    decreases Length(ts), 3
  {
    hide ParsePostfix;
    if Sees(ts, SUMS) { UnaryWithin(ts.tail, names); } else { PostfixWithin(ts, names); }
  }

  lemma {:induction false} PostfixWithin(ts: Tokens, names: set<string>)
    requires Names(ts) <= names
    ensures Within(ParsePostfix(ts), names)
    decreases Length(ts), 2
  {
    hide ParsePrimary;
    PrimaryWithin(ts, names);
    var p := ParsePrimary(ts);
    if p.Ok? && Sees(p.value.rest, {OpenBracket}) && p.value.node.MetricRef? {
      WindowWithin(p.value.node.name, p.value.rest.tail, names);
    }
  }

  lemma WindowWithin(name: string, ts: Tokens, names: set<string>)
    requires Names(ts) <= names && name in names - TRUTHS
    ensures Within(ParseWindow(name, ts), names)
  {
  }

  lemma {:induction false} PrimaryWithin(ts: Tokens, names: set<string>)
    requires Names(ts) <= names
    ensures Within(ParsePrimary(ts), names)
    decreases Length(ts), 1
  {
    hide ParseBool, ParseArgs;
    if Sees(ts, {Open}) {
      BoolWithin(Or, [], ts.tail, names);
      BoolIsOperands(Or, ts.tail);
      var p := ParseBool(Or, ts.tail);
      if p.Ok? { ClosedWithin(p.value.node, p.value.rest, names); }
    } else if ts.Then? && ts.head.Name? && Sees(ts.tail, {Open}) {
      var func, inner := ts.head.text, ts.tail.tail;
      assert Length(ts) == 1 + Length(ts.tail) && Length(ts.tail) == 1 + Length(inner);
      if Sees(inner, {Close}) {
        ClosedWithin(Call(func, []), inner, names);
      } else {
        ArgsWithin(func, [], inner, names);
      }
    }
  }

  lemma ClosedWithin(n: Node, ts: Tokens, names: set<string>)
    requires Names(ts) <= names && Metrics(n) <= names - TRUTHS
    ensures Within(Closed(n, ts), names)
  {
  }

  lemma {:induction false} ArgsWithin(func: string, args: seq<Node>, ts: Tokens, names: set<string>)
    requires Names(ts) <= names && AllMetrics(args) <= names - TRUTHS
    ensures Within(ParseArgs(func, args, ts), names)
    decreases Length(ts), 13
  {
    hide ParseBool;
    NothingNamed();
    BoolWithin(Or, [], ts, names);
    BoolIsOperands(Or, ts);
    var p := ParseBool(Or, ts);
    if p.Ok? {
      AllMetricsPush(args, p.value.node);
      if Sees(p.value.rest, {Comma}) {
        ArgsWithin(func, args + [p.value.node], p.value.rest.tail, names);
      } else {
        ClosedWithin(Call(func, args + [p.value.node]), p.value.rest, names);
      }
    }
  }

  const WORDS := {"and", "or", "not"}

  /** Printing never writes an operator word as a name. */
  lemma {:induction false} ShowNames(n: Node, rest: Tokens)
    requires Sound(n) && Names(rest) !! WORDS
    ensures Names(Show(n, rest)) !! WORDS
    decreases n, 0
  {
    match n
    case Literal(Number(v)) =>
    case Literal(Truth(b)) =>
    case MetricRef(_) =>
    case RangeRef(_, count, duration) =>
      assert Names(Symbolic(CloseBracket, rest)) == Names(rest);
      assert Names(WindowTokens(count, duration, Symbolic(CloseBracket, rest))) == Names(rest);
    case Call(func, args) => ArgsNames(args, Symbolic(Close, rest));
    case Negative(x) => WrappedNames(x, None, rest);
    case Binary(op, x, y) =>
      WrappedNames(y, None, rest);
      WrappedNames(x, None, Symbolic(SymbolOf(op), Wrapped(y, None, rest)));
    case BoolOp(c, values) =>
      MoreNames(c, values[1..], rest);
      WrappedNames(values[0], Some(c), ShowMore(c, values[1..], rest));
    case Not(x) => WrappedNames(x, None, rest);
  }

  lemma {:induction false} WrappedNames(n: Node, parent: Option<Connective>, rest: Tokens)
    requires Sound(n) && Names(rest) !! WORDS
    ensures Names(Wrapped(n, parent, rest)) !! WORDS
    decreases n, 1
  {
    hide Show;
    if Plain(n) || Binds(n, parent) { ShowNames(n, rest); } else { ShowNames(n, Symbolic(Close, rest)); }
  }

  lemma {:induction false} ArgsNames(args: seq<Node>, rest: Tokens)
    requires AllSound(args) && Names(rest) !! WORDS
    ensures Names(ShowArgs(args, rest)) !! WORDS
    decreases args
  {
    hide Show;
    if args != [] {
      assert Sound(args[0]);
      if |args| == 1 {
        ShowNames(args[0], rest);
      } else {
        ArgsNames(args[1..], rest);
        ShowNames(args[0], Symbolic(Comma, ShowArgs(args[1..], rest)));
      }
    }
  }

  lemma {:induction false} MoreNames(c: Connective, values: seq<Node>, rest: Tokens)
    requires AllSound(values) && Names(rest) !! WORDS
    ensures Names(ShowMore(c, values, rest)) !! WORDS
    decreases values
  {
    hide Wrapped;
    if values != [] {
      assert Sound(values[0]);
      MoreNames(c, values[1..], rest);
      WrappedNames(values[0], Some(c), ShowMore(c, values[1..], rest));
    }
  }

  /** Normalising keeps the metrics. */
  lemma {:induction false} NormMetrics(n: Node)
    ensures Metrics(Norm(n)) == Metrics(n)
    decreases n, 0
  {
    match n
    case Call(_, args) => NormsMetrics(args);
    case Negative(x) => NormMetrics(x);
    case Binary(_, x, y) => NormMetrics(x); NormMetrics(y);
    case BoolOp(c, values) => OperandsMetrics(c, values);
    case Not(x) => NormMetrics(x);
    case _ =>
  }

  lemma {:induction false} NormsMetrics(nodes: seq<Node>)
    ensures AllMetrics(Norms(nodes)) == AllMetrics(nodes)
    decreases nodes
  {
    if nodes != [] {
      NormMetrics(nodes[0]);
      NormsMetrics(nodes[1..]);
    }
  }

  lemma {:induction false} AllMetricsConcat(a: seq<Node>, b: seq<Node>)
    ensures AllMetrics(a + b) == AllMetrics(a) + AllMetrics(b)
  {
    if a == [] {
      assert a + b == b;
    } else {
      AllMetricsConcat(a[1..], b);
      assert (a + b)[1..] == a[1..] + b;
    }
  }

  lemma {:induction false} OperandsMetrics(c: Connective, values: seq<Node>)
    ensures AllMetrics(Operands(c, values)) == AllMetrics(values)
    decreases values
  {
    if values != [] {
      OperandsCons(c, values);
      OperandsMetrics(c, values[1..]);
      AllMetricsConcat(Item(c, values[0]), Operands(c, values[1..]));
      if values[0].BoolOp? && values[0].connective == c {
        OperandsMetrics(c, values[0].values);
      } else {
        NormMetrics(values[0]);
        assert [Norm(values[0])][1..] == [];
      }
    }
  }

  /** A metric named like a word of the language does not survive the round trip. */
  lemma ReservedIsLost(n: Node)
    requires Sound(n) && !(Metrics(n) !! RESERVED)
    ensures Parse(Printed(n)) != Ok(Norm(n))
  {
    hide Metrics, Show;
    var ts := Printed(n);
    var p := ParseBool(Or, ts);
    ShowNames(n, End);
    NormMetrics(n);
    NothingNamed();
    BoolWithin(Or, [], ts, Names(ts));
    BoolIsOperands(Or, ts);
    var name :| name in Metrics(n) && name in RESERVED;
    if p.Ok? { assert name !in Metrics(p.value.node); }
  }

  /** The round trip holds exactly for expressions without a metric named and, or, not, true, false. */
  lemma RoundTripExactly(n: Node)
    requires Sound(n)
    ensures Parse(Printed(n)) == Ok(Norm(n)) <==> Metrics(n) !! RESERVED
  {
    if Metrics(n) !! RESERVED { RoundTrip(n); } else { ReservedIsLost(n); }
  }

  /** A literal that is not finite is printed as a word, and reads back as a metric of that name. */
  lemma BoundlessIsMetric(v: Float)
    requires !v.Finite?
    ensures Parse(Printed(Literal(Number(v)))) ==
      Ok(match v
         case NaN => MetricRef("nan")
         case Infinite(negative) => if negative then Negative(MetricRef("inf")) else MetricRef("inf"))
  {
    hide ParseUnary, ParseBool;
    var word := if v.NaN? then "nan" else "inf";
    NameRead(word, End);
    Lift(5, Then(Name(word), End), MetricRef(word), End);
    if v.Infinite? && v.negative {
      NegationRead(Then(Name(word), End), MetricRef(word), End);
      Lift(5, Symbolic(Minus, Then(Name(word), End)), Negative(MetricRef(word)), End);
    }
  }
}
