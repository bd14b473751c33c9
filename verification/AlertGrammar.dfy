/** The grammar of alert expressions, and why the parser accepts exactly its texts. */
module AlertGrammar {
  import opened Floats
  import opened Results
  import opened AlertNodes
  import opened AlertParser
  import opened AlertRoundTrip

  // ---------------------------------------------------------------- the grammar

  /** A text by its structure, with every parenthesis, sign and spelling. */
  datatype Text =
    | Figure(v: Float)
    | Span(v: Float)
    | Word(truth: bool)
    | Metric(name: string)
    | Group(inner: Text)
    | Bare(func: string)
    | Apply(func: string, args: Row)
    | Window(metric: Text, size: Size)
    | Signed(minus: bool, x: Text)
    | Denied(sign: Symbol, x: Text)
    | Many(level: nat, row: Row)

  /** A window of some seconds or of some points. */
  datatype Size = Lasting(v: Float) | Counting(n: nat)

  /** One text after the other, with a symbol between. */
  datatype Row = One(x: Text) | More(before: Row, sign: Symbol, x: Text)

  /** Levels from tight to loose, after operands, windows, signs and products. */
  const SUM := 4
  const COMPARISON := 5
  const NEGATION := 6
  const CONJUNCTION := 7
  const DISJUNCTION := 8

  /** The symbols that join texts of a level. */
  function Joints(level: nat): set<Symbol> {
    match level
    case 3 => {Star, Slash, Percent}
    case 4 => {Plus, Minus}
    case 5 => {Greater, GreaterEqual, Less, LessEqual, EqualEqual, NotEqual}
    case 7 => {WordAnd, AmpAmp, Amp}
    case 8 => {WordOr, PipePipe, Pipe}
    case _ => {}
  }

  /** How loosely a text binds: operands not at all, a window, a sign, and so on. */
  function Rank(t: Text): nat {
    match t
    case Window(_, _) => 1
    case Signed(_, _) => 2
    case Many(level, _) => level
    case Denied(_, _) => NEGATION
    case _ => 0
  }

  /** Inside a text of a level only tighter ones stand without parentheses; signs and negations
      may be repeated. */
  ghost predicate Proper(t: Text) {
    match t
    case Figure(_) => true
    case Span(_) => true
    case Word(_) => true
    case Metric(name) => name !in {"true", "false"}
    case Group(inner) => Proper(inner)
    case Bare(func) => func !in {"true", "false"}
    case Apply(func, args) => func !in {"true", "false"} && ProperRow(args, {Comma}, DISJUNCTION)
    case Window(metric, size) => Proper(metric) && Rank(metric) == 0 && Built(metric).MetricRef? && size != Counting(0)
    case Signed(_, x) => Proper(x) && Rank(x) <= 2
    case Denied(sign, x) => sign in {WordNot, Bang, Tilde} && Proper(x) && Rank(x) <= NEGATION
    case Many(level, row) => row.More? && level > 0 && Joints(level) != {} && ProperRow(row, Joints(level), level - 1)
  }

  ghost predicate ProperRow(row: Row, signs: set<Symbol>, rank: nat) {
    match row
    case One(x) => Proper(x) && Rank(x) <= rank
    case More(before, sign, x) => ProperRow(before, signs, rank) && sign in signs && Proper(x) && Rank(x) <= rank
  }

  function SizeToken(size: Size): Token {
    match size
    case Lasting(v) => Duration(v)
    case Counting(n) => Numeral(Finite(n as real))
  }

  /** The tokens of a text, followed by `rest`. */
  function Spell(t: Text, rest: Tokens): Tokens {
    match t
    case Figure(v) => Then(Numeral(v), rest)
    case Span(v) => Then(Duration(v), rest)
    case Word(truth) => Then(Name(if truth then "true" else "false"), rest)
    case Metric(name) => Then(Name(name), rest)
    case Group(inner) => Then(Op(Open), Spell(inner, Then(Op(Close), rest)))
    case Bare(func) => Then(Name(func), Then(Op(Open), Then(Op(Close), rest)))
    case Apply(func, args) => Then(Name(func), Then(Op(Open), SpellRow(args, Then(Op(Close), rest))))
    case Window(metric, size) =>
      Spell(metric, Then(Op(OpenBracket), Then(SizeToken(size), Then(Op(CloseBracket), rest))))
    case Signed(minus, x) => Then(Op(if minus then Minus else Plus), Spell(x, rest))
    case Denied(sign, x) => Then(Op(sign), Spell(x, rest))
    case Many(_, row) => SpellRow(row, rest)
  }

  function SpellRow(row: Row, rest: Tokens): Tokens {
    match row
    case One(x) => Spell(x, rest)
    case More(before, sign, x) => SpellRow(before, Then(Op(sign), Spell(x, rest)))
  }

  /** The expression a text stands for: parentheses and plus signs leave no trace, products and
      sums associate to the left, a chain of comparisons compares neighbours. */
  function Built(t: Text): Node {
    match t
    case Figure(v) => Literal(Number(v))
    case Span(v) => Literal(Number(v))
    case Word(truth) => Literal(Number(Finite(if truth then 1.0 else 0.0)))
    case Metric(name) => MetricRef(name)
    case Group(inner) => Built(inner)
    case Bare(func) => Call(func, [])
    case Apply(func, args) => Call(func, Items(args))
    case Window(metric, size) => Ranged(if Built(metric).MetricRef? then Built(metric).name else "", size)
    case Signed(minus, x) => if minus then Negative(Built(x)) else Built(x)
    case Denied(_, x) => Not(Built(x))
    case Many(level, row) =>
      if level <= SUM then Folded(row)
      else if level == COMPARISON then if |Links(row)| == 1 then Links(row)[0] else BoolOp(And, Links(row))
      else BoolOp(if level == CONJUNCTION then And else Or, Items(row))
  }

  /** A window holds as many points as a machine word can count, at most. */
  function Ranged(name: string, size: Size): Node {
    match size
    case Lasting(v) => RangeRef(name, None, Some(v))
    case Counting(n) => RangeRef(name, Some(if n > 0xFFFF_FFFF_FFFF_FFFF then 0xFFFF_FFFF_FFFF_FFFF else n), None)
  }

  function Items(row: Row): (s: seq<Node>)
    ensures s != []
  {
    match row
    case One(x) => [Built(x)]
    case More(before, _, x) => Items(before) + [Built(x)]
  }

  function Folded(row: Row): Node {
    match row
    case One(x) => Built(x)
    case More(before, sign, x) => Binary(OperatorOf(sign), Folded(before), Built(x))
  }

  function Last(row: Row): Text { row.x }

  function Links(row: Row): (s: seq<Node>)
    ensures row.More? <==> s != []
  {
    match row
    case One(_) => []
    case More(before, sign, x) => Links(before) + [Binary(OperatorOf(sign), Built(Last(before)), Built(x))]
  }

  // ---------------------------------------------------------------- texts are read

  function ParseAt(level: nat, ts: Tokens): Parsed {
    match level
    case 0 => ParsePrimary(ts)
    case 1 => ParsePostfix(ts)
    case 2 => ParseUnary(ts)
    case 3 => ParseProduct(ts)
    case 4 => ParseSum(ts)
    case 5 => ParseCompare(ts)
    case 6 => ParseNot(ts)
    case 7 => ParseBool(And, ts)
    case _ => ParseBool(Or, ts)
  }

  /** Nothing follows that a text of this level would take in. */
  ghost predicate Ends(level: nat, rest: Tokens) {
    !Sees(rest, {Open, OpenBracket}) && forall l :: 0 <= l <= level ==> !Sees(rest, Joints(l))
  }

  /** A text starts with no symbol that a tighter level does not know. */
  ghost predicate Starts(level: nat, ts: Tokens) {
    && !Sees(ts, {Close})
    && (level <= 1 ==> !Sees(ts, SUMS))
    && (level <= COMPARISON ==> !Sees(ts, NOTS))
  }

  lemma {:induction false} TextStarts(t: Text, level: nat, rest: Tokens)
    requires Proper(t) && Rank(t) <= level
    ensures Starts(level, Spell(t, rest))
    decreases t
  {
    hide Built;
    match t
    case Window(metric, size) =>
      TextStarts(metric, 0, Then(Op(OpenBracket), Then(SizeToken(size), Then(Op(CloseBracket), rest))));
    case Many(l, row) => RowStarts(row, Joints(l), l - 1, rest);
    case _ =>
  }

  lemma {:induction false} RowStarts(row: Row, signs: set<Symbol>, rank: nat, rest: Tokens)
    requires ProperRow(row, signs, rank)
    ensures Starts(rank, SpellRow(row, rest))
    decreases row
  {
    match row
    case One(x) => TextStarts(x, rank, rest);
    case More(before, sign, x) => RowStarts(before, signs, rank, Then(Op(sign), Spell(x, rest)));
  }

  /** What is read at one level is read at the next, if nothing more belongs to it. */
  lemma Looser(level: nat, ts: Tokens, n: Node, rest: Tokens)
    requires level < DISJUNCTION && Reads(ParseAt(level, ts), n, rest)
    requires Starts(level, ts) && Ends(level + 1, rest)
    ensures Reads(ParseAt(level + 1, ts), n, rest)
  {
    hide ParsePrimary, ParsePostfix, ParseUnary, ParseProduct, ParseSum, ParseCompare, ParseNot, ParseBool;
    assert !Sees(rest, Joints(level + 1));
    match level
    case 0 => PostfixIsPrimary(ts);
    case 1 => UnaryIsPostfix(ts);
    case 2 => AsProduct(ts, n, rest);
    case 3 => AsSum(ts, n, rest);
    case 4 => AsCompare(ts, n, rest);
    case 5 => AsNot(ts, n, rest);
    case 6 => AsAnd(ts, n, rest);
    case _ => AsOr(ts, n, rest);
  }

  lemma {:induction false} TextRead(t: Text, level: nat, rest: Tokens)
    requires Proper(t) && Rank(t) <= level <= DISJUNCTION && Ends(level, rest)
    ensures Reads(ParseAt(level, Spell(t, rest)), Built(t), rest)
    decreases t, level
  {
    hide ParseAt, Spell, Built;
    if Rank(t) < level {
      TextRead(t, level - 1, rest);
      TextStarts(t, level - 1, rest);
      Looser(level - 1, Spell(t, rest), Built(t), rest);
    } else {
      match t
      case Group(inner) =>
        TextRead(inner, DISJUNCTION, Then(Op(Close), rest));
        GroupRead(inner, rest);
      case Apply(func, args) =>
        ArgsRead(args, func, Then(Op(Close), rest));
        RowStarts(args, {Comma}, DISJUNCTION, Then(Op(Close), rest));
        ApplyRead(func, args, rest);
      case Window(metric, size) =>
        var window := Then(Op(OpenBracket), Then(SizeToken(size), Then(Op(CloseBracket), rest)));
        if metric.Metric? {
          LeafRead(metric, window);
        } else {
          MetricGrouped(metric);
          TextRead(metric.inner, DISJUNCTION, Then(Op(Close), window));
          GroupRead(metric.inner, window);
        }
        SizeRead(metric, size, rest);
      case Signed(minus, x) =>
        TextRead(x, 2, rest);
        SignedRead(minus, x, rest);
      case Denied(sign, x) =>
        TextRead(x, NEGATION, rest);
        DeniedRead(sign, x, rest);
      case Many(_, row) =>
        RowRead(row, level, rest);
        ManyRead(level, row, rest);
      case _ => LeafRead(t, rest);
    }
  }

  lemma MetricGrouped(t: Text)
    requires Proper(t) && Rank(t) == 0 && Built(t).MetricRef? && !t.Metric?
    ensures t.Group?
  {
  }

  lemma LeafRead(t: Text, rest: Tokens)
    requires Proper(t) && (t.Figure? || t.Span? || t.Word? || t.Metric? || t.Bare?) && (t.Metric? ==> !Sees(rest, {Open}))
    ensures Reads(ParseAt(0, Spell(t, rest)), Built(t), rest)
  {
    hide ParseBool, ParseArgs;
  }

  lemma GroupRead(inner: Text, rest: Tokens)
    requires Reads(ParseAt(8, Spell(inner, Then(Op(Close), rest))), Built(inner), Then(Op(Close), rest))
    ensures Reads(ParseAt(0, Spell(Group(inner), rest)), Built(Group(inner)), rest)
  {
    hide ParseBool, ParseArgs;
  }

  lemma ApplyRead(func: string, args: Row, rest: Tokens)
    requires func !in {"true", "false"}
    requires var ts := SpellRow(args, Then(Op(Close), rest));
      Starts(8, ts) && ParseArgs(func, [], ts) == Closed(Call(func, Items(args)), Then(Op(Close), rest))
    ensures Reads(ParseAt(0, Spell(Apply(func, args), rest)), Built(Apply(func, args)), rest)
  {
    hide ParseBool, ParseArgs, SpellRow, Items;
  }

  lemma SizeRead(metric: Text, size: Size, rest: Tokens)
    requires Built(metric).MetricRef? && size != Counting(0)
    requires var window := Then(Op(OpenBracket), Then(SizeToken(size), Then(Op(CloseBracket), rest)));
      Reads(ParseAt(0, Spell(metric, window)), Built(metric), window)
    ensures Reads(ParseAt(1, Spell(Window(metric, size), rest)), Built(Window(metric, size)), rest)
  {
    hide ParsePrimary;
  }

  lemma SignedRead(minus: bool, x: Text, rest: Tokens)
    requires Reads(ParseAt(2, Spell(x, rest)), Built(x), rest)
    ensures Reads(ParseAt(2, Spell(Signed(minus, x), rest)), Built(Signed(minus, x)), rest)
  {
    hide ParsePostfix;
  }

  lemma DeniedRead(sign: Symbol, x: Text, rest: Tokens)
    requires sign in {WordNot, Bang, Tilde} && Reads(ParseAt(NEGATION, Spell(x, rest)), Built(x), rest)
    ensures Reads(ParseAt(NEGATION, Spell(Denied(sign, x), rest)), Built(Denied(sign, x)), rest)
  {
    hide ParseCompare;
  }

  /** What the loop of a level does after having read these texts. */
  function Onward(level: nat, row: Row, rest: Tokens): Parsed {
    match level
    case 3 => MoreFactors(Folded(row), rest)
    case 4 => MoreTerms(Folded(row), rest)
    case 5 => MoreComparisons(Built(Last(row)), Links(row), rest)
    case 7 => MoreOperands(And, Items(row), rest)
    case _ => MoreOperands(Or, Items(row), rest)
  }

  lemma {:induction false} RowRead(row: Row, level: nat, rest: Tokens)
    requires 0 < level <= DISJUNCTION && Joints(level) != {} && ProperRow(row, Joints(level), level - 1) && Ends(level - 1, rest)
    ensures ParseAt(level, SpellRow(row, rest)) == Onward(level, row, rest)
    decreases row, 0
  {
    hide ParseAt, Spell, Built, Onward, Proper, Items, Folded, Links, Starts;
    match row
    case One(x) =>
      TextRead(x, level - 1, rest);
      FirstRead(level, x, Spell(x, rest), rest);
    case More(before, sign, x) =>
      TextRead(x, level - 1, rest);
      RowRead(before, level, Then(Op(sign), Spell(x, rest)));
      NextRead(level, before, sign, x, Spell(x, rest), rest);
  }

  lemma FirstRead(level: nat, x: Text, ts: Tokens, rest: Tokens)
    requires 0 < level <= DISJUNCTION && Joints(level) != {} && Reads(ParseAt(level - 1, ts), Built(x), rest)
    ensures ParseAt(level, ts) == Onward(level, One(x), rest)
  {
    hide Spell, Built, ParseUnary, ParseNot, MoreFactors, MoreTerms, MoreComparisons, MoreOperands;
    assert [] + [Built(x)] == [Built(x)];
    if level == 7 { BoolIsOperands(And, ts); }
    if level == 8 { BoolIsOperands(Or, ts); OrStep(ts, Built(x), rest); }
  }

  lemma NextRead(level: nat, before: Row, sign: Symbol, x: Text, ts: Tokens, rest: Tokens)
    requires 0 < level <= DISJUNCTION && sign in Joints(level) && Reads(ParseAt(level - 1, ts), Built(x), rest)
    ensures Onward(level, before, Then(Op(sign), ts)) == Onward(level, More(before, sign, x), rest)
  {
    hide Spell, Built, ParseUnary, ParseProduct, ParseSum, ParseNot, ParseBool, ParseOperands;
    if level >= CONJUNCTION {
      OperandNext(if level == CONJUNCTION then And else Or, Items(before), ts, Built(x), rest);
    }
  }

  lemma OperandNext(c: Connective, nodes: seq<Node>, ts: Tokens, n: Node, rest: Tokens)
    requires Reads(if c.Or? then ParseBool(And, ts) else ParseNot(ts), n, rest)
    ensures ParseOperands(c, nodes, ts) == MoreOperands(c, nodes + [n], rest)
  {
    hide ParseBool, ParseNot;
  }

  lemma ManyRead(level: nat, row: Row, rest: Tokens)
    requires row.More? && Joints(level) != {} && Ends(level, rest)
    ensures Onward(level, row, rest) == Ok(Progress(Built(Many(level, row)), rest))
    ensures Spell(Many(level, row), rest) == SpellRow(row, rest)
  {
    assert !Sees(rest, Joints(level));
  }

  lemma {:induction false} ArgsRead(args: Row, func: string, rest: Tokens)
    requires ProperRow(args, {Comma}, DISJUNCTION) && Sees(rest, {Close, Comma})
    ensures ParseArgs(func, [], SpellRow(args, rest)) == Later(func, Items(args), rest)
    decreases args, 0
  {
    hide Spell, Built, ParseArgs, Later;
    match args
    case One(x) =>
      TextRead(x, DISJUNCTION, rest);
      ArgRead([], func, x, Spell(x, rest), rest);
      assert [] + [Built(x)] == [Built(x)];
    case More(before, sign, x) =>
      TextRead(x, DISJUNCTION, rest);
      var more := Then(Op(sign), Spell(x, rest));
      ArgsRead(before, func, more);
      CommaRead(func, Items(before), Spell(x, rest));
      ArgRead(Items(before), func, x, Spell(x, rest), rest);
  }

  lemma CommaRead(func: string, args: seq<Node>, rest: Tokens)
    ensures Later(func, args, Then(Op(Comma), rest)) == ParseArgs(func, args, rest)
  {
    hide ParseArgs;
  }

  lemma ArgRead(args: seq<Node>, func: string, x: Text, ts: Tokens, rest: Tokens)
    requires Reads(ParseAt(DISJUNCTION, ts), Built(x), rest)
    ensures ParseArgs(func, args, ts) == Later(func, args + [Built(x)], rest)
  {
    hide Spell, Built, ParseBool;
  }

  /** What follows an argument: the next one, or the end of the call. */
  function Later(func: string, args: seq<Node>, rest: Tokens): Parsed {
    if Sees(rest, {Comma}) then ParseArgs(func, args, rest.tail) else Closed(Call(func, args), rest)
  }

  // ---------------------------------------------------------------- whatever is read is a text

  ghost predicate Renders(t: Text, level: nat, ts: Tokens, p: Parsed) {
    Proper(t) && Rank(t) <= level && p.Ok? && Spell(t, p.value.rest) == ts && Built(t) == p.value.node
  }

  lemma {:induction false} TextAt(level: nat, ts: Tokens) returns (t: Text)
    requires level <= DISJUNCTION && ParseAt(level, ts).Ok?
    ensures Renders(t, level, ts, ParseAt(level, ts))
    decreases Length(ts), 2 * level + 1
  {
    hide ParseAt, Renders, Onward;
    if level == 0 {
      t := PrimaryText(ts);
    } else if level == 1 {
      t := PostfixText(ts);
    } else if level == 2 {
      t := UnaryText(ts);
    } else if level == NEGATION {
      t := NegationText(ts);
    } else {
      InnerRead(level, ts);
      var p := ParseAt(level - 1, ts).value;
      var x := TextAt(level - 1, ts);
      Rendered(x, level - 1, ts);
      FirstRead(level, x, ts, p.rest);
      t := OnwardText(level, One(x), p.rest);
    }
  }

  lemma InnerRead(level: nat, ts: Tokens)
    requires level in {3, 4, 5, 7, 8} && ParseAt(level, ts).Ok?
    ensures ParseAt(level - 1, ts).Ok? && Length(ParseAt(level - 1, ts).value.rest) < Length(ts)
  {
    hide ParseUnary, ParseProduct, ParseNot, MoreFactors, MoreTerms, MoreComparisons, MoreOperands;
    match level
    case 3 => ProductFirst(ts);
    case 4 => assert ParseSum(ts) == match ParseProduct(ts) case Err(e) => Err(e) case Ok(x) => MoreTerms(x.node, x.rest);
    case 5 => assert ParseSum(ts).Ok?;
    case 7 =>
      BoolIsOperands(And, ts);
      OperandFirst(And, [], ts);
    case 8 =>
      BoolIsOperands(Or, ts);
      OperandFirst(Or, [], ts);
  }

  lemma ProductFirst(ts: Tokens)
    requires ParseProduct(ts).Ok?
    ensures ParseUnary(ts).Ok?
  {
    hide ParseUnary, MoreFactors;
  }

  lemma OperandFirst(c: Connective, nodes: seq<Node>, ts: Tokens)
    requires ParseOperands(c, nodes, ts).Ok?
    ensures var p := if c.Or? then ParseBool(And, ts) else ParseNot(ts);
      p.Ok? && Length(p.value.rest) < Length(ts)
  {
    hide ParseBool, ParseNot, MoreOperands;
  }

  lemma Rendered(t: Text, level: nat, ts: Tokens)
    requires Renders(t, level, ts, ParseAt(level, ts))
    ensures Proper(t) && Rank(t) <= level && Reads(ParseAt(level, ts), Built(t), ParseAt(level, ts).value.rest)
    ensures Spell(t, ParseAt(level, ts).value.rest) == ts
  {
    hide ParseAt, Proper, Rank, Built, Spell;
  }

  lemma {:induction false} OnwardText(level: nat, row: Row, rest: Tokens) returns (t: Text)
    requires level in {3, 4, 5, 7, 8} && ProperRow(row, Joints(level), level - 1) && Onward(level, row, rest).Ok?
    ensures Renders(t, level, SpellRow(row, rest), Onward(level, row, rest))
    decreases Length(rest), 0
  {
    hide ParseAt, Renders, Onward;
    if Sees(rest, Joints(level)) {
      OnwardRead(level, row, rest);
      var p := ParseAt(level - 1, rest.tail).value;
      var x := TextAt(level - 1, rest.tail);
      Rendered(x, level - 1, rest.tail);
      NextRead(level, row, rest.head.symbol, x, rest.tail, p.rest);
      t := OnwardText(level, More(row, rest.head.symbol, x), p.rest);
    } else {
      t := OnwardDone(level, row, rest);
    }
  }

  lemma OnwardRead(level: nat, row: Row, rest: Tokens)
    requires level in {3, 4, 5, 7, 8} && Sees(rest, Joints(level)) && Onward(level, row, rest).Ok?
    ensures ParseAt(level - 1, rest.tail).Ok? && Length(ParseAt(level - 1, rest.tail).value.rest) < Length(rest.tail)
  {
    hide Spell, Built, Folded, Items, Links, ParseUnary, ParseProduct, ParseSum, ParseNot, ParseBool, ParseOperands;
    if level >= CONJUNCTION { OperandFirst(if level == CONJUNCTION then And else Or, Items(row), rest.tail); }
  }

  lemma OnwardDone(level: nat, row: Row, rest: Tokens) returns (t: Text)
    requires level in {3, 4, 5, 7, 8} && !Sees(rest, Joints(level)) && ProperRow(row, Joints(level), level - 1)
    ensures Renders(t, level, SpellRow(row, rest), Onward(level, row, rest))
  {
    t := if row.One? then row.x else Many(level, row);
  }

  lemma {:induction false} NegationText(ts: Tokens) returns (t: Text)
    requires ParseAt(NEGATION, ts).Ok?
    ensures Renders(t, NEGATION, ts, ParseAt(NEGATION, ts))
    decreases Length(ts), 2 * NEGATION
  {
    hide ParseCompare, Built, Spell;
    if Sees(ts, NOTS) {
      var x := TextAt(NEGATION, ts.tail);
      t := Denied(ts.head.symbol, x);
      Rendered(x, NEGATION, ts.tail);
      DeniedRead(ts.head.symbol, x, ParseAt(NEGATION, ts.tail).value.rest);
      assert Spell(t, ParseAt(NEGATION, ts).value.rest) == ts by { DeniedSpell(ts.head.symbol, x, ParseAt(NEGATION, ts).value.rest); }
    } else {
      t := TextAt(COMPARISON, ts);
    }
  }

  lemma DeniedSpell(sign: Symbol, x: Text, rest: Tokens)
    ensures Spell(Denied(sign, x), rest) == Then(Op(sign), Spell(x, rest))
  {
  }

  lemma {:induction false} UnaryText(ts: Tokens) returns (t: Text)
    requires ParseAt(2, ts).Ok?
    ensures Renders(t, 2, ts, ParseAt(2, ts))
    decreases Length(ts), 4
  {
    hide ParsePostfix, Built, Spell;
    if Sees(ts, SUMS) {
      var x := TextAt(2, ts.tail);
      var minus := ts.head.symbol.Minus?;
      t := Signed(minus, x);
      Rendered(x, 2, ts.tail);
      SignedRead(minus, x, ParseAt(2, ts.tail).value.rest);
      assert Spell(t, ParseAt(2, ts).value.rest) == ts by { SignedSpell(minus, x, ParseAt(2, ts).value.rest); }
    } else {
      t := TextAt(1, ts);
    }
  }

  lemma SignedSpell(minus: bool, x: Text, rest: Tokens)
    ensures Spell(Signed(minus, x), rest) == Then(Op(if minus then Minus else Plus), Spell(x, rest))
  {
  }

  lemma {:induction false} PostfixText(ts: Tokens) returns (t: Text)
    requires ParseAt(1, ts).Ok?
    ensures Renders(t, 1, ts, ParseAt(1, ts))
    decreases Length(ts), 2
  {
    hide ParsePrimary;
    t := TextAt(0, ts);
    var rest := ParsePrimary(ts).value.rest;
    if Sees(rest, {OpenBracket}) {
      var token := rest.tail.head;
      t := Window(t, if token.Duration? then Lasting(token.value) else Counting(token.value.r.Floor));
    }
  }

  lemma {:induction false} PrimaryText(ts: Tokens) returns (t: Text)
    requires ParseAt(0, ts).Ok?
    ensures Renders(t, 0, ts, ParseAt(0, ts))
    decreases Length(ts), 0
  {
    hide ParseBool, ParseArgs;
    if Sees(ts, {Open}) {
      var inner := TextAt(DISJUNCTION, ts.tail);
      t := Group(inner);
    } else {
      match ts.head
      case Numeral(v) => t := Figure(v);
      case Duration(v) => t := Span(v);
      case Name(text) =>
        if text == "true" || text == "false" {
          t := Word(text == "true");
        } else if Sees(ts.tail, {Open}) {
          if Sees(ts.tail.tail, {Close}) {
            t := Bare(text);
          } else {
            assert Length(ts) == 1 + Length(ts.tail);
            t := CallText(text, ts.tail.tail);
          }
        } else {
          t := Metric(text);
        }
    }
  }

  lemma {:induction false} CallText(func: string, ts: Tokens) returns (t: Text)
    requires func !in {"true", "false"} && ParseArgs(func, [], ts).Ok?
    ensures Renders(t, 0, Then(Name(func), Then(Op(Open), ts)), ParseArgs(func, [], ts))
    decreases Length(ts), 2 * DISJUNCTION + 3
  {
    hide ParseArgs, ParseBool, Later;
    var x, rest := FirstArg(func, [], ts);
    assert [] + [Built(x)] == [Built(x)];
    var args, after := LaterText(func, One(x), rest);
    t := Apply(func, args);
  }

  lemma {:induction false} FirstArg(func: string, args: seq<Node>, ts: Tokens) returns (x: Text, rest: Tokens)
    requires ParseArgs(func, args, ts).Ok?
    ensures Proper(x) && Rank(x) <= DISJUNCTION && Spell(x, rest) == ts && Length(rest) < Length(ts)
    ensures ParseArgs(func, args, ts) == Later(func, args + [Built(x)], rest)
    decreases Length(ts), 2 * DISJUNCTION + 2
  {
    hide ParseBool, Later, Spell, Built, Proper;
    assert ParseAt(DISJUNCTION, ts).Ok?;
    x := TextAt(DISJUNCTION, ts);
    rest := ParseAt(DISJUNCTION, ts).value.rest;
    Rendered(x, DISJUNCTION, ts);
    ArgRead(args, func, x, ts, rest);
  }

  lemma {:induction false} LaterText(func: string, row: Row, rest: Tokens) returns (args: Row, after: Tokens)
    requires ProperRow(row, {Comma}, DISJUNCTION) && Later(func, Items(row), rest).Ok?
    ensures ProperRow(args, {Comma}, DISJUNCTION) && SpellRow(args, Then(Op(Close), after)) == SpellRow(row, rest)
    ensures Later(func, Items(row), rest) == Ok(Progress(Call(func, Items(args)), after))
    decreases Length(rest), 0
  {
    hide ParseArgs;
    if Sees(rest, {Comma}) {
      var x, more := FirstArg(func, Items(row), rest.tail);
      args, after := LaterText(func, More(row, Comma, x), more);
    } else {
      args, after := row, rest.tail;
    }
  }

  // ---------------------------------------------------------------- exactly the grammar

  ghost predicate Writes(t: Text, ts: Tokens, n: Node) { Proper(t) && Spell(t, End) == ts && Built(t) == n }

  /** The parser accepts exactly the texts of the grammar, as the expressions they stand for. */
  lemma ParsesExactly(ts: Tokens, n: Node)
    ensures Parse(ts) == Ok(n) <==> exists t :: Writes(t, ts, n)
  {
    hide ParseBool, Proper, Spell, Built;
    if Parse(ts) == Ok(n) {
      var t := TextAt(DISJUNCTION, ts);
      Rendered(t, DISJUNCTION, ts);
      assert Writes(t, ts, n);
    }
    forall t | Writes(t, ts, n)
      ensures Parse(ts) == Ok(n)
    {
      WritesParse(t);
    }
  }

  lemma WritesParse(t: Text)
    requires Proper(t)
    ensures Parse(Spell(t, End)) == Ok(Built(t))
  {
    hide ParseBool, Proper, Spell, Built;
    RankBounded(t);
    TextRead(t, DISJUNCTION, End);
  }

  lemma RankBounded(t: Text)
    requires Proper(t)
    ensures Rank(t) <= DISJUNCTION
  {
  }

  /** No text has two readings. */
  lemma OneReading(t: Text, u: Text)
    requires Proper(t) && Proper(u) && Spell(t, End) == Spell(u, End)
    ensures Built(t) == Built(u)
  {
    hide Spell, Built, Proper;
    WritesParse(t);
    WritesParse(u);
  }
}
