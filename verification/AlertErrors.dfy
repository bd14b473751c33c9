/** Where the parser of alert expressions reports an error: at the first token that no text of the
    grammar could have there. */
module AlertErrors {
  import opened Results
  import opened AlertNodes
  import opened AlertParser
  import opened AlertRoundTrip
  import opened AlertGrammar

  // ---------------------------------------------------------------- tokens in common

  /** The first `n` tokens are the same, the end of a text counted as one. */
  ghost predicate Same(ts: Tokens, us: Tokens, n: nat) {
    n == 0 || (ts.End? && us.End?) || (ts.Then? && us.Then? && ts.head == us.head && Same(ts.tail, us.tail, n - 1))
  }

  function Drop(ts: Tokens, n: nat): Tokens { if n == 0 || ts.End? then ts else Drop(ts.tail, n - 1) }

  lemma {:induction false} SameDrop(ts: Tokens, us: Tokens, n: nat, more: nat)
    requires n <= Length(ts) && Same(ts, us, n + more)
    ensures n <= Length(us) && Length(Drop(us, n)) == Length(us) - n && Same(ts, us, n) && Same(Drop(ts, n), Drop(us, n), more)
  {
    if n > 0 { SameDrop(ts.tail, us.tail, n - 1, more); }
  }

  lemma {:induction false} DropDrop(ts: Tokens, n: nat, more: nat)
    ensures Drop(Drop(ts, n), more) == Drop(ts, n + more)
  {
    if n > 0 && ts.Then? { DropDrop(ts.tail, n - 1, more); }
  }

  lemma {:induction false} LengthDrop(ts: Tokens, n: nat)
    requires n <= Length(ts)
    ensures Length(Drop(ts, n)) == Length(ts) - n
  {
    if n > 0 { LengthDrop(ts.tail, n - 1); }
  }

  // ---------------------------------------------------------------- nothing is looked at ahead

  function Used(ts: Tokens, p: Parsed): int { Length(ts) - if p.Ok? then Length(p.value.rest) else p.error.left }

  /** Beyond what it has used up, reading depends on one more token only. */
  ghost predicate Alike(ts: Tokens, p: Parsed, us: Tokens, q: Parsed) {
    var k := Used(ts, p);
    && 0 <= k <= Length(ts)
    && (p.Ok? ==> p.value.rest == Drop(ts, k))
    && (Same(ts, us, k + 1) ==>
          if p.Err? then k <= Length(us) && q == Err(SyntaxError(p.error.problem, Length(us) - k))
          else q == Ok(Progress(p.value.node, Drop(us, k))))
  }

  lemma AlikeThen(ts: Tokens, p: Parsed, us: Tokens, q: Parsed, g: Parsed, h: Parsed, next: Parsed)
    requires Alike(ts, p, us, q) && p.Ok? && Alike(p.value.rest, g, Drop(us, Used(ts, p)), next)
    requires Same(ts, us, Used(ts, p) + 1) ==> h == next
    ensures Alike(ts, g, us, h)
  {
    hide Same, Drop, Length;
    var k := Used(ts, p);
    var m := Used(p.value.rest, g);
    DropDrop(ts, k, m);
    if Same(ts, us, Used(ts, g) + 1) {
      SameDrop(ts, us, k, m + 1);
      SameShorter(ts, us, k + 1, m);
      DropDrop(us, k, m);
    }
  }

  lemma {:induction false} SameShorter(ts: Tokens, us: Tokens, n: nat, more: nat)
    requires Same(ts, us, n + more)
    ensures Same(ts, us, n)
  {
    if n > 0 && ts.Then? { SameShorter(ts.tail, us.tail, n - 1, more); }
  }

  function Other(us: Tokens): Tokens { if us.Then? then us.tail else End }

  lemma AlikeNext(ts: Tokens, p: Parsed, us: Tokens, q: Parsed, r: Parsed)
    requires ts.Then? && Alike(ts.tail, p, Other(us), q)
    requires us.Then? && us.head == ts.head ==> r == q
    ensures Alike(ts, p, us, r)
  {
  }

  lemma AlikeSame(ts: Tokens, p: Parsed, us: Tokens, q: Parsed, r: Parsed)
    requires Alike(ts, p, us, q) && (Same(ts, us, 1) ==> r == q)
    ensures Alike(ts, p, us, r)
  {
    if Same(ts, us, Used(ts, p) + 1) { SameShorter(ts, us, 1, Used(ts, p)); }
  }

  lemma AlikeNone(ts: Tokens, us: Tokens, n: Node, r: Parsed)
    requires Same(ts, us, 1) ==> r == Ok(Progress(n, us))
    ensures Alike(ts, Ok(Progress(n, ts)), us, r)
  {
  }

  lemma AlikeBuilt(ts: Tokens, p: Parsed, us: Tokens, q: Parsed, n: Node, r: Parsed)
    requires Alike(ts, p, us, q) && p.Ok? && (q.Ok? && q.value.node == p.value.node ==> r == Ok(Progress(n, q.value.rest)))
    ensures Alike(ts, Ok(Progress(n, p.value.rest)), us, r)
  {
  }

  lemma AlikeFails(ts: Tokens, us: Tokens, e: SyntaxError, q: Parsed)
    requires Same(ts, us, 1) ==> q == Err(SyntaxError(e.problem, Length(us)))
    requires e.left == Length(ts)
    ensures Alike(ts, Err(e), us, q)
  {
  }

  lemma {:induction false} Local(level: nat, ts: Tokens, us: Tokens)
    requires level <= DISJUNCTION
    ensures Alike(ts, ParseAt(level, ts), us, ParseAt(level, us))
    decreases Length(ts), 2 * level + 1
  {
    hide ParseAt, Alike, Onward;
    if level == 0 {
      LocalPrimary(ts, us);
    } else if level == 1 {
      LocalPostfix(ts, us);
    } else if level == 2 || level == NEGATION {
      LocalSign(level, ts, us);
    } else {
      var p, q := ParseAt(level - 1, ts), ParseAt(level - 1, us);
      Local(level - 1, ts, us);
      if p.Err? {
        Passed(level, ts);
        if q.Err? { Passed(level, us); }
        AlikeErrs(ts, p, us, q, ParseAt(level, us));
      } else {
        Shrinks(level - 1, ts);
        var x := TextAt(level - 1, ts);
        Rendered(x, level - 1, ts);
        FirstRead(level, x, ts, p.value.rest);
        var later := Drop(us, Used(ts, p));
        LocalOnward(level, One(x), p.value.rest, later);
        if Same(ts, us, Used(ts, p) + 1) {
          AlikeOk(ts, p, us, q);
          FirstRead(level, x, us, later);
        }
        AlikeThen(ts, p, us, q, ParseAt(level, ts), ParseAt(level, us), Onward(level, One(x), later));
      }
    }
  }

  lemma AlikeOk(ts: Tokens, p: Parsed, us: Tokens, q: Parsed)
    requires Alike(ts, p, us, q) && p.Ok? && Same(ts, us, Used(ts, p) + 1)
    ensures Reads(q, p.value.node, Drop(us, Used(ts, p)))
  {
  }

  lemma AlikeErrs(ts: Tokens, p: Parsed, us: Tokens, q: Parsed, r: Parsed)
    requires Alike(ts, p, us, q) && p.Err? && (q.Err? ==> r == q)
    ensures Alike(ts, p, us, r)
  {
  }

  /** A level fails where the tighter one does. */
  lemma Passed(level: nat, ts: Tokens)
    requires level in {3, 4, 5, 7, 8} && ParseAt(level - 1, ts).Err?
    ensures ParseAt(level, ts) == ParseAt(level - 1, ts)
  {
    hide ParseUnary, MoreFactors, MoreTerms, MoreComparisons, MoreOperands, ParseNot;
    if level >= CONJUNCTION {
      var c := if level == CONJUNCTION then And else Or;
      BoolIsOperands(c, ts);
      OperandFails(c, [], ts);
    }
  }

  lemma OperandFails(c: Connective, nodes: seq<Node>, ts: Tokens)
    requires (if c.Or? then ParseBool(And, ts) else ParseNot(ts)).Err?
    ensures ParseOperands(c, nodes, ts) == if c.Or? then ParseBool(And, ts) else ParseNot(ts)
  {
    hide ParseBool, ParseNot;
  }

  lemma Shrinks(level: nat, ts: Tokens)
    requires level <= DISJUNCTION && ParseAt(level, ts).Ok?
    ensures Length(ParseAt(level, ts).value.rest) < Length(ts)
  {
  }

  lemma {:induction false} LocalOnward(level: nat, row: Row, ts: Tokens, us: Tokens)
    requires level in {3, 4, 5, 7, 8} && ProperRow(row, Joints(level), level - 1)
    ensures Alike(ts, Onward(level, row, ts), us, Onward(level, row, us))
    decreases Length(ts), 0
  {
    hide ParseAt, Alike, Onward;
    if Sees(ts, Joints(level)) {
      var sign, tail, other := ts.head.symbol, ts.tail, Other(us);
      var p, q := ParseAt(level - 1, tail), ParseAt(level - 1, other);
      var r := Onward(level, row, Then(Op(sign), other));
      Local(level - 1, tail, other);
      if p.Err? {
        OnwardFails(level, row, sign, tail);
        if q.Err? { OnwardFails(level, row, sign, other); }
        AlikeErrs(tail, p, other, q, r);
      } else {
        Shrinks(level - 1, tail);
        var x := TextAt(level - 1, tail);
        Rendered(x, level - 1, tail);
        NextRead(level, row, sign, x, tail, p.value.rest);
        var later := Drop(other, Used(tail, p));
        LocalOnward(level, More(row, sign, x), p.value.rest, later);
        if Same(tail, other, Used(tail, p) + 1) {
          AlikeOk(tail, p, other, q);
          NextRead(level, row, sign, x, other, later);
        }
        AlikeThen(tail, p, other, q, Onward(level, row, ts), r, Onward(level, More(row, sign, x), later));
      }
      AlikeNext(ts, Onward(level, row, ts), us, r, Onward(level, row, us));
    } else {
      OnwardStops(level, row, ts);
      if !Sees(us, Joints(level)) { OnwardStops(level, row, us); }
      AlikeNone(ts, us, Stopped(level, row), Onward(level, row, us));
    }
  }

  function Stopped(level: nat, row: Row): Node { Built(if row.One? then row.x else Many(level, row)) }

  lemma OnwardStops(level: nat, row: Row, ts: Tokens)
    requires level in {3, 4, 5, 7, 8} && !Sees(ts, Joints(level))
    ensures Onward(level, row, ts) == Ok(Progress(Stopped(level, row), ts))
  {
  }

  lemma OnwardFails(level: nat, row: Row, sign: Symbol, ts: Tokens)
    requires level in {3, 4, 5, 7, 8} && sign in Joints(level) && ParseAt(level - 1, ts).Err?
    ensures Onward(level, row, Then(Op(sign), ts)) == ParseAt(level - 1, ts)
  {
    hide Built, Folded, Items, Links, ParseUnary, ParseProduct, ParseSum, ParseNot, ParseBool, ParseOperands;
    if level >= CONJUNCTION { OperandFails(if level == CONJUNCTION then And else Or, Items(row), ts); }
  }

  lemma {:induction false} LocalSign(level: nat, ts: Tokens, us: Tokens)
    requires level in {2, NEGATION}
    ensures Alike(ts, ParseAt(level, ts), us, ParseAt(level, us))
    decreases Length(ts), 2 * level
  {
    hide ParseAt, Alike;
    if Sees(ts, Signs(level)) {
      var other := Other(us);
      var p, q, r := ParseAt(level, ts.tail), ParseAt(level, other), ParseAt(level, Then(ts.head, other));
      Local(level, ts.tail, other);
      SignRead(level, ts);
      SignRead(level, Then(ts.head, other));
      if p.Err? {
        AlikeErrs(ts.tail, p, other, q, r);
      } else {
        AlikeBuilt(ts.tail, p, other, q, SignNode(ts.head.symbol, p.value.node), r);
      }
      AlikeNext(ts, ParseAt(level, ts), us, r, ParseAt(level, us));
    } else {
      Local(level - 1, ts, us);
      NoSign(level, ts);
      if !Sees(us, Signs(level)) { NoSign(level, us); }
      AlikeSame(ts, ParseAt(level, ts), us, ParseAt(level - 1, us), ParseAt(level, us));
    }
  }

  function Signs(level: nat): set<Symbol> { if level == 2 then SUMS else NOTS }

  function SignNode(sign: Symbol, n: Node): Node { if sign.Plus? then n else if sign.Minus? then Negative(n) else Not(n) }

  lemma SignRead(level: nat, ts: Tokens)
    requires level in {2, NEGATION} && Sees(ts, Signs(level))
    ensures var p := ParseAt(level, ts.tail);
      ParseAt(level, ts) == if p.Err? then p else Ok(Progress(SignNode(ts.head.symbol, p.value.node), p.value.rest))
  {
    hide ParsePostfix, ParseCompare;
  }

  lemma NoSign(level: nat, ts: Tokens)
    requires level in {2, NEGATION} && !Sees(ts, Signs(level))
    ensures ParseAt(level, ts) == ParseAt(level - 1, ts)
  {
    hide ParsePostfix, ParseCompare;
  }

  // ---------------------------------------------------------------- operands

  function Selected(n: Node, ts: Tokens): Parsed {
    if !Sees(ts, {OpenBracket}) then Ok(Progress(n, ts))
    else if !n.MetricRef? then Fail(WindowOnNonMetric, ts)
    else ParseWindow(n.name, ts.tail)
  }

  lemma PostfixSelects(ts: Tokens)
    ensures var p := ParsePrimary(ts); ParsePostfix(ts) == if p.Err? then p else Selected(p.value.node, p.value.rest)
  {
    hide ParsePrimary, ParseWindow;
  }

  lemma LocalSelected(n: Node, ts: Tokens, us: Tokens)
    ensures Alike(ts, Selected(n, ts), us, Selected(n, us))
  {
    hide Alike, ParseWindow;
    if !Sees(ts, {OpenBracket}) {
      AlikeNone(ts, us, n, Selected(n, us));
    } else if !n.MetricRef? {
      AlikeFails(ts, us, SyntaxError(WindowOnNonMetric, Length(ts)), Selected(n, us));
    } else {
      LocalWindow(n.name, ts.tail, Other(us));
      AlikeNext(ts, Selected(n, ts), us, ParseWindow(n.name, Other(us)), Selected(n, us));
    }
  }

  predicate Sized(t: Token) {
    t.Duration? || (t.Numeral? && t.value.Finite? && t.value.r > 0.0 && t.value.r.Floor as real == t.value.r)
  }

  lemma LocalWindow(name: string, ts: Tokens, us: Tokens)
    ensures Alike(ts, ParseWindow(name, ts), us, ParseWindow(name, us))
  {
    hide Alike, Windowed, AsUsize;
    var p, r := ParseWindow(name, ts), ParseWindow(name, us);
    if ts.End? || !Sized(ts.head) {
      AlikeFails(ts, us, p.error, r);
    } else {
      var v := ts.head.value;
      var node := if ts.head.Duration? then RangeRef(name, None, Some(v)) else RangeRef(name, Some(AsUsize(v.r)), None);
      LocalWindowed(node, ts.tail, Other(us));
      AlikeNext(ts, p, us, Windowed(node, Other(us)), r);
    }
  }

  lemma LocalWindowed(node: Node, ts: Tokens, us: Tokens)
    ensures Alike(ts, Windowed(node, ts), us, Windowed(node, us))
  {
  }

  lemma LocalClosed(node: Node, ts: Tokens, us: Tokens)
    ensures Alike(ts, Closed(node, ts), us, Closed(node, us))
  {
  }

  lemma {:induction false} LocalPostfix(ts: Tokens, us: Tokens)
    ensures Alike(ts, ParseAt(1, ts), us, ParseAt(1, us))
    decreases Length(ts), 2
  {
    hide ParsePrimary, ParsePostfix, Alike, Selected;
    var p, q := ParsePrimary(ts), ParsePrimary(us);
    PostfixSelects(ts);
    PostfixSelects(us);
    Local(0, ts, us);
    if p.Err? {
      AlikeErrs(ts, p, us, q, ParsePostfix(us));
    } else {
      var later := Drop(us, Used(ts, p));
      LocalSelected(p.value.node, p.value.rest, later);
      if Same(ts, us, Used(ts, p) + 1) { AlikeOk(ts, p, us, q); }
      AlikeThen(ts, p, us, q, ParsePostfix(ts), ParsePostfix(us), Selected(p.value.node, later));
    }
  }

  lemma {:induction false} LocalPrimary(ts: Tokens, us: Tokens)
    ensures Alike(ts, ParseAt(0, ts), us, ParseAt(0, us))
    decreases Length(ts), 0
  {
    hide ParseAt, Alike, ParseArgs, Closed;
    if Sees(ts, {Open}) {
      var other := Other(us);
      var r := Grouped(other);
      LocalGroup(ts.tail, other);
      OpenPrimary(ts);
      if Sees(us, {Open}) { OpenPrimary(us); }
      AlikeNext(ts, ParseAt(0, ts), us, r, ParseAt(0, us));
    } else if ts.Then? && ts.head.Name? && ts.head.text !in {"true", "false"} && Sees(ts.tail, {Open}) {
      var func, other, more := ts.head.text, Other(us), Other(Other(us));
      var r := ParseAt(0, Then(ts.head, other));
      assert Length(ts) == 2 + Length(ts.tail.tail);
      LocalCall(func, ts.tail.tail, more);
      CallsPrimary(ts);
      if Sees(other, {Open}) { CallsPrimary(Then(ts.head, other)); }
      AlikeNext(ts.tail, ParseAt(0, ts), other, Called(func, more), r);
      AlikeNext(ts, ParseAt(0, ts), us, r, ParseAt(0, us));
    } else {
      LeafPrimary(ts, us);
    }
  }

  function Grouped(ts: Tokens): Parsed {
    var p := ParseBool(Or, ts);
    if p.Err? then p else Closed(p.value.node, p.value.rest)
  }

  function Called(func: string, ts: Tokens): Parsed {
    if Sees(ts, {Close}) then Closed(Call(func, []), ts) else ParseArgs(func, [], ts)
  }

  lemma OpenPrimary(ts: Tokens)
    requires Sees(ts, {Open})
    ensures ParseAt(0, ts) == Grouped(ts.tail)
  {
    hide ParseBool, Closed;
  }

  lemma CallsPrimary(ts: Tokens)
    requires ts.Then? && ts.head.Name? && ts.head.text !in {"true", "false"} && Sees(ts.tail, {Open})
    ensures ParseAt(0, ts) == Called(ts.head.text, ts.tail.tail)
  {
    hide ParseBool, ParseArgs, Closed;
  }

  lemma LeafPrimary(ts: Tokens, us: Tokens)
    requires !Sees(ts, {Open})
    requires !(ts.Then? && ts.head.Name? && ts.head.text !in {"true", "false"} && Sees(ts.tail, {Open}))
    ensures Alike(ts, ParseAt(0, ts), us, ParseAt(0, us))
  {
    hide ParseBool, ParseArgs, Closed, Alike;
    var p := ParseAt(0, ts);
    if p.Err? {
      AlikeFails(ts, us, p.error, ParseAt(0, us));
    } else {
      var other := Other(us);
      var r := ParseAt(0, Then(ts.head, other));
      AlikeNone(ts.tail, other, p.value.node, r);
      AlikeNext(ts, p, us, r, ParseAt(0, us));
    }
  }

  lemma {:induction false} LocalGroup(ts: Tokens, us: Tokens)
    ensures Alike(ts, Grouped(ts), us, Grouped(us))
    decreases Length(ts), 2 * DISJUNCTION + 2
  {
    hide ParseBool, Alike, Closed;
    var p, q := ParseBool(Or, ts), ParseBool(Or, us);
    Local(DISJUNCTION, ts, us);
    if p.Err? {
      AlikeErrs(ts, p, us, q, Grouped(us));
    } else {
      var later := Drop(us, Used(ts, p));
      LocalClosed(p.value.node, p.value.rest, later);
      if Same(ts, us, Used(ts, p) + 1) { AlikeOk(ts, p, us, q); }
      AlikeThen(ts, p, us, q, Grouped(ts), Grouped(us), Closed(p.value.node, later));
    }
  }

  lemma {:induction false} LocalCall(func: string, ts: Tokens, us: Tokens)
    ensures Alike(ts, Called(func, ts), us, Called(func, us))
    decreases Length(ts), 2 * DISJUNCTION + 3
  {
    hide ParseArgs, Alike, Closed;
    if Sees(ts, {Close}) {
      LocalClosed(Call(func, []), ts, us);
      AlikeSame(ts, Called(func, ts), us, Closed(Call(func, []), us), Called(func, us));
    } else {
      LocalArgs(func, [], ts, us);
      AlikeSame(ts, Called(func, ts), us, ParseArgs(func, [], us), Called(func, us));
    }
  }

  lemma {:induction false} LocalArgs(func: string, args: seq<Node>, ts: Tokens, us: Tokens)
    ensures Alike(ts, ParseArgs(func, args, ts), us, ParseArgs(func, args, us))
    decreases Length(ts), 2 * DISJUNCTION + 2
  {
    hide ParseArgs, ParseBool, Alike, Later;
    var p, q := ParseBool(Or, ts), ParseBool(Or, us);
    Local(DISJUNCTION, ts, us);
    ArgThen(func, args, ts);
    ArgThen(func, args, us);
    if p.Err? {
      AlikeErrs(ts, p, us, q, ParseArgs(func, args, us));
    } else {
      var later := Drop(us, Used(ts, p));
      LocalLater(func, args + [p.value.node], p.value.rest, later);
      if Same(ts, us, Used(ts, p) + 1) { AlikeOk(ts, p, us, q); }
      AlikeThen(ts, p, us, q, ParseArgs(func, args, ts), ParseArgs(func, args, us), Later(func, args + [p.value.node], later));
    }
  }

  lemma ArgThen(func: string, args: seq<Node>, ts: Tokens)
    ensures var p := ParseBool(Or, ts);
      ParseArgs(func, args, ts) == if p.Err? then p else Later(func, args + [p.value.node], p.value.rest)
    ensures ParseBool(Or, ts).Ok? ==> Length(ParseBool(Or, ts).value.rest) < Length(ts)
  {
    hide ParseBool;
  }

  lemma {:induction false} LocalLater(func: string, args: seq<Node>, ts: Tokens, us: Tokens)
    ensures Alike(ts, Later(func, args, ts), us, Later(func, args, us))
    decreases Length(ts), 0
  {
    hide ParseArgs, Alike, Closed;
    if Sees(ts, {Comma}) {
      LocalArgs(func, args, ts.tail, Other(us));
      AlikeNext(ts, Later(func, args, ts), us, ParseArgs(func, args, Other(us)), Later(func, args, us));
    } else {
      LocalClosed(Call(func, args), ts, us);
      AlikeSame(ts, Later(func, args, ts), us, Closed(Call(func, args), us), Later(func, args, us));
    }
  }

  // ---------------------------------------------------------------- what was read could go on

  /** All tokens before the last `left` ones begin this text, whatever follows it. */
  ghost predicate Begins(t: Text, ts: Tokens, left: nat) {
    left <= Length(ts) && forall rest :: Same(Spell(t, rest), ts, Length(ts) - left)
  }

  lemma {:induction false} SpellSame(t: Text, a: Tokens, b: Tokens, n: nat)
    requires Same(a, b, n)
    ensures Length(Spell(t, b)) >= Length(b) && Same(Spell(t, a), Spell(t, b), Length(Spell(t, b)) - Length(b) + n)
    decreases t
  {
    match t
    case Group(inner) => SpellSame(inner, Then(Op(Close), a), Then(Op(Close), b), n + 1);
    case Bare(_) => SpellSameBare(t, a, b, n);
    case Apply(_, args) =>
      SpellRowSame(args, Then(Op(Close), a), Then(Op(Close), b), n + 1);
      SpellSameApply(t, a, b, n);
    case Window(metric, size) =>
      var x, y := Closing(size, a), Closing(size, b);
      SameClosing(size, a, b, n);
      SpellSame(metric, x, y, n + 3);
    case Signed(_, x) => SpellSame(x, a, b, n);
    case Denied(_, x) => SpellSame(x, a, b, n);
    case Many(_, row) => SpellRowSame(row, a, b, n);
    case _ =>
  }

  function Closing(size: Size, ts: Tokens): Tokens {
    Then(Op(OpenBracket), Then(SizeToken(size), Then(Op(CloseBracket), ts)))
  }

  lemma SameClosing(size: Size, a: Tokens, b: Tokens, n: nat)
    requires Same(a, b, n)
    ensures Same(Closing(size, a), Closing(size, b), n + 3) && Length(Closing(size, b)) == 3 + Length(b)
  {
    var token := SizeToken(size);
    SameNext(Op(CloseBracket), a, b, n);
    SameNext(token, Then(Op(CloseBracket), a), Then(Op(CloseBracket), b), n + 1);
    SameNext(Op(OpenBracket), Then(token, Then(Op(CloseBracket), a)), Then(token, Then(Op(CloseBracket), b)), n + 2);
    LengthNext(Op(CloseBracket), b);
    LengthNext(token, Then(Op(CloseBracket), b));
  }

  lemma SpellSameApply(t: Text, a: Tokens, b: Tokens, n: nat)
    requires t.Apply? && Length(SpellRow(t.args, Then(Op(Close), b))) >= 1 + Length(b)
    requires var us := SpellRow(t.args, Then(Op(Close), b));
      Same(SpellRow(t.args, Then(Op(Close), a)), us, Length(us) - Length(b) + n)
    ensures Length(Spell(t, b)) >= Length(b) && Same(Spell(t, a), Spell(t, b), Length(Spell(t, b)) - Length(b) + n)
  {
    hide SpellRow;
    var ts, us := SpellRow(t.args, Then(Op(Close), a)), SpellRow(t.args, Then(Op(Close), b));
    SameNext(Op(Open), ts, us, Length(us) - Length(b) + n);
    LengthNext(Op(Open), us);
  }

  lemma SpellSameBare(t: Text, a: Tokens, b: Tokens, n: nat)
    requires t.Bare? && Same(a, b, n)
    ensures Length(Spell(t, b)) >= Length(b) && Same(Spell(t, a), Spell(t, b), Length(Spell(t, b)) - Length(b) + n)
  {
    SameNext(Op(Close), a, b, n);
    SameNext(Op(Open), Then(Op(Close), a), Then(Op(Close), b), n + 1);
    LengthNext(Op(Close), b);
    LengthNext(Op(Open), Then(Op(Close), b));
  }

  lemma LengthNext(t: Token, ts: Tokens)
    ensures Length(Then(t, ts)) == 1 + Length(ts)
  {
  }

  lemma SameNext(t: Token, a: Tokens, b: Tokens, n: nat)
    requires Same(a, b, n)
    ensures Same(Then(t, a), Then(t, b), n + 1)
  {
  }

  lemma {:induction false} SpellRowSame(row: Row, a: Tokens, b: Tokens, n: nat)
    requires Same(a, b, n)
    ensures Length(SpellRow(row, b)) >= Length(b)
    ensures Same(SpellRow(row, a), SpellRow(row, b), Length(SpellRow(row, b)) - Length(b) + n)
    decreases row
  {
    match row
    case One(x) => SpellSame(x, a, b, n);
    case More(before, sign, x) =>
      SpellSame(x, a, b, n);
      var m := Length(Spell(x, b)) - Length(b) + n;
      SpellRowSame(before, Then(Op(sign), Spell(x, a)), Then(Op(sign), Spell(x, b)), m + 1);
  }

  lemma {:induction false} PartialText(level: nat, ts: Tokens) returns (t: Text)
    requires level <= DISJUNCTION && ParseAt(level, ts).Err?
    ensures Proper(t) && Rank(t) <= level && Begins(t, ts, ParseAt(level, ts).error.left)
    decreases Length(ts), 2 * level + 1
  {
    hide ParseAt, Begins, Onward, Spell, Proper, Built;
    if level == 0 {
      t := PartialPrimary(ts);
    } else if level == 1 {
      t := PartialPostfix(ts);
    } else if level == 2 || level == NEGATION {
      t := PartialSign(level, ts);
    } else if ParseAt(level - 1, ts).Err? {
      Passed(level, ts);
      t := PartialText(level - 1, ts);
    } else {
      Shrinks(level - 1, ts);
      var p := ParseAt(level - 1, ts).value;
      var x := TextAt(level - 1, ts);
      Rendered(x, level - 1, ts);
      FirstRead(level, x, ts, p.rest);
      t := PartialOnward(level, One(x), p.rest);
    }
  }

  lemma {:induction false} PartialOnward(level: nat, row: Row, ts: Tokens) returns (t: Text)
    requires level in {3, 4, 5, 7, 8} && ProperRow(row, Joints(level), level - 1) && Onward(level, row, ts).Err?
    ensures Proper(t) && Rank(t) <= level && Begins(t, SpellRow(row, ts), Onward(level, row, ts).error.left)
    decreases Length(ts), 0
  {
    hide ParseAt, Begins, Onward, Spell, Built;
    if !Sees(ts, Joints(level)) { OnwardStops(level, row, ts); }
    var sign, tail := ts.head.symbol, ts.tail;
    if ParseAt(level - 1, tail).Err? {
      OnwardFails(level, row, sign, tail);
      var x := PartialText(level - 1, tail);
      t := Many(level, More(row, sign, x));
      BeginsMore(level, row, sign, x, tail, ParseAt(level - 1, tail).error.left);
    } else {
      Shrinks(level - 1, tail);
      var p := ParseAt(level - 1, tail).value;
      var x := TextAt(level - 1, tail);
      Rendered(x, level - 1, tail);
      NextRead(level, row, sign, x, tail, p.rest);
      t := PartialOnward(level, More(row, sign, x), p.rest);
    }
  }

  lemma BeginsMore(level: nat, row: Row, sign: Symbol, x: Text, ts: Tokens, left: nat)
    requires Begins(x, ts, left)
    ensures Begins(Many(level, More(row, sign, x)), SpellRow(row, Then(Op(sign), ts)), left)
  {
    hide Same;
    var t, us := Many(level, More(row, sign, x)), SpellRow(row, Then(Op(sign), ts));
    RowGrows(row, Then(Op(sign), ts));
    forall rest
      ensures Same(Spell(t, rest), us, Length(us) - left)
    {
      assert Spell(t, rest) == SpellRow(row, Then(Op(sign), Spell(x, rest)));
      SameNext(Op(sign), Spell(x, rest), ts, Length(ts) - left);
      SpellRowSame(row, Then(Op(sign), Spell(x, rest)), Then(Op(sign), ts), Length(ts) - left + 1);
    }
  }

  lemma RowGrows(row: Row, ts: Tokens)
    ensures Length(SpellRow(row, ts)) >= Length(ts)
  {
    SpellRowSame(row, ts, ts, 0);
  }

  lemma {:induction false} PartialSign(level: nat, ts: Tokens) returns (t: Text)
    requires level in {2, NEGATION} && ParseAt(level, ts).Err?
    ensures Proper(t) && Rank(t) <= level && Begins(t, ts, ParseAt(level, ts).error.left)
    decreases Length(ts), 2 * level
  {
    hide ParseAt, Begins, Spell;
    if Sees(ts, Signs(level)) {
      SignRead(level, ts);
      var x := PartialText(level, ts.tail);
      t := if level == 2 then Signed(ts.head.symbol.Minus?, x) else Denied(ts.head.symbol, x);
      BeginsSigned(level, x, ts, ParseAt(level, ts).error.left);
    } else {
      NoSign(level, ts);
      t := PartialText(level - 1, ts);
    }
  }

  lemma BeginsSigned(level: nat, x: Text, ts: Tokens, left: nat)
    requires level in {2, NEGATION} && Sees(ts, Signs(level)) && Begins(x, ts.tail, left)
    ensures Begins(if level == 2 then Signed(ts.head.symbol.Minus?, x) else Denied(ts.head.symbol, x), ts, left)
  {
    var t := if level == 2 then Signed(ts.head.symbol.Minus?, x) else Denied(ts.head.symbol, x);
    forall rest
      ensures Same(Spell(t, rest), ts, Length(ts) - left)
    {
      SameNext(ts.head, Spell(x, rest), ts.tail, Length(ts.tail) - left);
    }
  }

  lemma BeginsWhole(x: Text, ts: Tokens)
    ensures Begins(x, Spell(x, ts), Length(ts))
  {
    hide Spell;
    SpellSame(x, ts, ts, 0);
    forall rest
      ensures Same(Spell(x, rest), Spell(x, ts), Length(Spell(x, ts)) - Length(ts))
    {
      SpellSame(x, rest, ts, 0);
    }
  }

  lemma BeginsWindow(x: Text, size: Size, ts: Tokens, n: nat)
    requires Sees(ts, {OpenBracket}) && (n == 1 || (n == 2 && ts.tail.Then? && ts.tail.head == SizeToken(size)))
    ensures n <= Length(ts) && Begins(Window(x, size), Spell(x, ts), Length(ts) - n)
  {
    SpellSame(x, ts, ts, 0);
    forall rest
      ensures Same(Spell(Window(x, size), rest), Spell(x, ts), Length(Spell(x, ts)) - (Length(ts) - n))
    {
      var us := Then(SizeToken(size), Then(Op(CloseBracket), rest));
      assert Same(us, ts.tail, n - 1);
      SpellSame(x, Then(Op(OpenBracket), us), ts, n);
    }
  }

  lemma {:induction false} PartialPostfix(ts: Tokens) returns (t: Text)
    requires ParseAt(1, ts).Err?
    ensures Proper(t) && Rank(t) <= 1 && Begins(t, ts, ParseAt(1, ts).error.left)
    decreases Length(ts), 2
  {
    hide ParsePrimary, Begins, Spell, Proper, Built, ParseWindow;
    PostfixSelects(ts);
    if ParsePrimary(ts).Err? {
      t := PartialText(0, ts);
    } else {
      var x := TextAt(0, ts);
      var p := ParsePrimary(ts).value;
      Rendered(x, 0, ts);
      t := PartialSelected(x, p.rest);
    }
  }

  lemma PartialSelected(x: Text, ts: Tokens) returns (t: Text)
    requires Proper(x) && Rank(x) == 0 && Selected(Built(x), ts).Err?
    ensures Proper(t) && Rank(t) <= 1 && Begins(t, Spell(x, ts), Selected(Built(x), ts).error.left)
  {
    hide Begins, Spell, Built;
    if !Built(x).MetricRef? {
      t := x;
      BeginsWhole(x, ts);
    } else if ts.tail.End? || !Sized(ts.tail.head) {
      t := Window(x, Counting(1));
      BeginsWindow(x, Counting(1), ts, 1);
      LengthNext(ts.head, ts.tail);
    } else {
      var token := ts.tail.head;
      var size := if token.Duration? then Lasting(token.value) else Counting(token.value.r.Floor);
      t := Window(x, size);
      BeginsWindow(x, size, ts, 2);
      LengthNext(ts.head, ts.tail);
      LengthNext(token, ts.tail.tail);
    }
  }

  lemma {:induction false} PartialPrimary(ts: Tokens) returns (t: Text)
    requires ParseAt(0, ts).Err?
    ensures Proper(t) && Rank(t) == 0 && Begins(t, ts, ParseAt(0, ts).error.left)
    decreases Length(ts), 0
  {
    hide ParseAt, Begins, ParseArgs, ParseBool, Closed, Spell, Built;
    if Sees(ts, {Open}) {
      OpenPrimary(ts);
      var x := PartialGroup(ts.tail);
      t := Group(x);
      BeginsGroup(x, ts, ParseAt(0, ts).error.left);
    } else if ts.Then? && ts.head.Name? && ts.head.text !in {"true", "false"} && Sees(ts.tail, {Open}) {
      LengthNext(ts.head, ts.tail);
      LengthNext(ts.tail.head, ts.tail.tail);
      CallsPrimary(ts);
      var func := ts.head.text;
      if Sees(ts.tail.tail, {Close}) { BareReads(func, ts.tail.tail); }
      var args := PartialArgs(func, ts.tail.tail);
      t := Apply(func, args);
      BeginsApply(func, args, ts, ParseAt(0, ts).error.left);
    } else {
      t := Word(true);
      NothingRead(ts);
      assert Begins(t, ts, Length(ts)) by { BeginsAnyhow(t, ts); }
    }
  }

  lemma BareReads(func: string, ts: Tokens)
    requires Sees(ts, {Close})
    ensures Called(func, ts).Ok?
  {
  }

  lemma NothingRead(ts: Tokens)
    requires ParseAt(0, ts).Err? && !Sees(ts, {Open})
    requires !(ts.Then? && ts.head.Name? && ts.head.text !in {"true", "false"} && Sees(ts.tail, {Open}))
    ensures ParseAt(0, ts).error.left == Length(ts)
  {
  }

  lemma BeginsAnyhow(t: Text, ts: Tokens)
    ensures Begins(t, ts, Length(ts))
  {
  }

  /** These texts, closed, begin with all but the last tokens. */
  ghost predicate BeginsClosed(x: Text, ts: Tokens, left: nat) {
    left <= Length(ts) && forall rest :: Same(Spell(x, Then(Op(Close), rest)), ts, Length(ts) - left)
  }

  lemma {:induction false} PartialGroup(ts: Tokens) returns (x: Text)
    requires Grouped(ts).Err?
    ensures Proper(x) && BeginsClosed(x, ts, Grouped(ts).error.left)
    decreases Length(ts), 2 * DISJUNCTION + 2
  {
    hide ParseBool, Spell, Built, Proper;
    var p := ParseAt(DISJUNCTION, ts);
    if p.Err? {
      x := PartialText(DISJUNCTION, ts);
    } else {
      x := TextAt(DISJUNCTION, ts);
      Rendered(x, DISJUNCTION, ts);
      BeginsWhole(x, p.value.rest);
    }
  }

  lemma BeginsGroup(x: Text, ts: Tokens, left: nat)
    requires Sees(ts, {Open}) && BeginsClosed(x, ts.tail, left)
    ensures Begins(Group(x), ts, left)
  {
    forall rest
      ensures Same(Spell(Group(x), rest), ts, Length(ts) - left)
    {
      SameNext(ts.head, Spell(x, Then(Op(Close), rest)), ts.tail, Length(ts.tail) - left);
    }
  }

  ghost predicate RowBegins(args: Row, ts: Tokens, left: nat) {
    left <= Length(ts) && forall rest :: Same(SpellRow(args, Then(Op(Close), rest)), ts, Length(ts) - left)
  }

  lemma BeginsApply(func: string, args: Row, ts: Tokens, left: nat)
    requires ts.Then? && ts.head == Name(func) && Sees(ts.tail, {Open}) && RowBegins(args, ts.tail.tail, left)
    ensures Begins(Apply(func, args), ts, left)
  {
    var inner := ts.tail.tail;
    LengthNext(ts.head, ts.tail);
    LengthNext(ts.tail.head, inner);
    forall rest
      ensures Same(Spell(Apply(func, args), rest), ts, Length(ts) - left)
    {
      var us := SpellRow(args, Then(Op(Close), rest));
      SameNext(Op(Open), us, inner, Length(inner) - left);
      SameNext(Name(func), Then(Op(Open), us), ts.tail, Length(inner) - left + 1);
    }
  }

  lemma {:induction false} PartialArgs(func: string, ts: Tokens) returns (args: Row)
    requires ParseArgs(func, [], ts).Err?
    ensures ProperRow(args, {Comma}, DISJUNCTION) && RowBegins(args, ts, ParseArgs(func, [], ts).error.left)
    decreases Length(ts), 2 * DISJUNCTION + 2
  {
    hide ParseArgs, ParseBool, Spell, Built, Later, RowBegins;
    ArgThen(func, [], ts);
    var p := ParseAt(DISJUNCTION, ts);
    if p.Err? {
      var x := PartialText(DISJUNCTION, ts);
      args := One(x);
      BeginsOne(x, ts, p.error.left);
    } else {
      var x := TextAt(DISJUNCTION, ts);
      Rendered(x, DISJUNCTION, ts);
      assert [] + [Built(x)] == [Built(x)];
      args := PartialLater(func, One(x), p.value.rest);
    }
  }

  lemma BeginsOne(x: Text, ts: Tokens, left: nat)
    requires Begins(x, ts, left)
    ensures RowBegins(One(x), ts, left)
  {
    hide Spell, Same;
    forall rest
      ensures Same(SpellRow(One(x), Then(Op(Close), rest)), ts, Length(ts) - left)
    {
      assert SpellRow(One(x), Then(Op(Close), rest)) == Spell(x, Then(Op(Close), rest));
    }
  }

  lemma {:induction false} PartialLater(func: string, row: Row, ts: Tokens) returns (args: Row)
    requires ProperRow(row, {Comma}, DISJUNCTION) && Later(func, Items(row), ts).Err?
    ensures ProperRow(args, {Comma}, DISJUNCTION) && RowBegins(args, SpellRow(row, ts), Later(func, Items(row), ts).error.left)
    decreases Length(ts), 0
  {
    hide ParseArgs, ParseBool, Spell, Built, RowBegins;
    if Sees(ts, {Comma}) {
      ArgThen(func, Items(row), ts.tail);
      var p := ParseAt(DISJUNCTION, ts.tail);
      if p.Err? {
        var x := PartialText(DISJUNCTION, ts.tail);
        args := More(row, Comma, x);
        RowBeginsMore(row, x, ts.tail, p.error.left);
      } else {
        var x := TextAt(DISJUNCTION, ts.tail);
        Rendered(x, DISJUNCTION, ts.tail);
        args := PartialLater(func, More(row, Comma, x), p.value.rest);
      }
    } else {
      args := row;
      RowBeginsWhole(row, ts);
    }
  }

  lemma RowBeginsMore(row: Row, x: Text, ts: Tokens, left: nat)
    requires Begins(x, ts, left)
    ensures RowBegins(More(row, Comma, x), SpellRow(row, Then(Op(Comma), ts)), left)
  {
    hide Same, Spell;
    var args, us := More(row, Comma, x), SpellRow(row, Then(Op(Comma), ts));
    RowGrows(row, Then(Op(Comma), ts));
    forall rest
      ensures Same(SpellRow(args, Then(Op(Close), rest)), us, Length(us) - left)
    {
      var more := Spell(x, Then(Op(Close), rest));
      SameNext(Op(Comma), more, ts, Length(ts) - left);
      SpellRowSame(row, Then(Op(Comma), more), Then(Op(Comma), ts), Length(ts) - left + 1);
    }
  }

  lemma RowBeginsWhole(row: Row, ts: Tokens)
    ensures RowBegins(row, SpellRow(row, ts), Length(ts))
  {
    hide SpellRow;
    SpellRowSame(row, ts, ts, 0);
    forall rest
      ensures Same(SpellRow(row, Then(Op(Close), rest)), SpellRow(row, ts), Length(SpellRow(row, ts)) - Length(ts))
    {
      SpellRowSame(row, Then(Op(Close), rest), ts, 0);
    }
  }

  // ---------------------------------------------------------------- the error

  lemma {:induction false} SameBack(ts: Tokens, us: Tokens, n: nat)
    requires Same(ts, us, n)
    ensures Same(us, ts, n)
  {
    if n > 0 && ts.Then? { SameBack(ts.tail, us.tail, n - 1); }
  }

  /** Whatever shares the tokens up to an error and the one there, fails as well. */
  lemma FailsAlike(ts: Tokens, us: Tokens)
    requires Parse(ts).Err? && Parse(ts).error.left <= Length(ts)
    requires Same(us, ts, Length(ts) - Parse(ts).error.left + 1)
    ensures Parse(us).Err?
  {
    hide ParseBool, Same, Length;
    SameBack(us, ts, Length(ts) - Parse(ts).error.left + 1);
    if ts.End? {
      EmptyEnd();
      SameEnd(us);
    } else if ParseAt(DISJUNCTION, ts).Err? {
      FailsInside(ts, us);
    } else {
      FailsAfter(ts, us);
    }
  }

  lemma EmptyEnd()
    ensures Length(End) == 0
  {
  }

  lemma FailsInside(ts: Tokens, us: Tokens)
    requires var p := ParseAt(DISJUNCTION, ts); p.Err? && p.error.left <= Length(ts) && Same(ts, us, Length(ts) - p.error.left + 1)
    ensures ParseAt(DISJUNCTION, us).Err?
  {
    hide ParseAt, Same, Length, Alike;
    var p, q := ParseAt(DISJUNCTION, ts), ParseAt(DISJUNCTION, us);
    Local(DISJUNCTION, ts, us);
    AlikeErr(ts, p, us, q);
  }

  lemma FailsAfter(ts: Tokens, us: Tokens)
    requires ParseAt(DISJUNCTION, ts).Ok? && ParseAt(DISJUNCTION, ts).value.rest.Then?
    requires var left := Length(ParseAt(DISJUNCTION, ts).value.rest); left <= Length(ts) && Same(ts, us, Length(ts) - left + 1)
    ensures var q := ParseAt(DISJUNCTION, us); q.Ok? && q.value.rest.Then?
  {
    hide ParseAt, Same, Length, Alike, Drop;
    var p, q := ParseAt(DISJUNCTION, ts), ParseAt(DISJUNCTION, us);
    var k := Length(ts) - Length(p.value.rest);
    Local(DISJUNCTION, ts, us);
    AlikeOk(ts, p, us, q);
    AlikeBounds(ts, p, us, q);
    SameDrop(ts, us, k, 1);
    SameThen(p.value.rest, Drop(us, k));
  }

  lemma SameEnd(us: Tokens)
    requires Same(us, End, 1)
    ensures us.End?
  {
  }

  lemma SameThen(ts: Tokens, us: Tokens)
    requires ts.Then? && Same(ts, us, 1)
    ensures us.Then?
  {
  }

  lemma AlikeErr(ts: Tokens, p: Parsed, us: Tokens, q: Parsed)
    requires Alike(ts, p, us, q) && p.Err? && Same(ts, us, Used(ts, p) + 1)
    ensures q.Err?
  {
  }

  lemma AlikeBounds(ts: Tokens, p: Parsed, us: Tokens, q: Parsed)
    requires Alike(ts, p, us, q)
    ensures 0 <= Used(ts, p) <= Length(ts) && (p.Ok? ==> p.value.rest == Drop(ts, Used(ts, p)))
  {
  }

  /** The tokens before an error begin a text. */
  lemma StartOfText(ts: Tokens) returns (t: Text)
    requires Parse(ts).Err?
    ensures Proper(t) && Begins(t, ts, Parse(ts).error.left)
  {
    hide ParseBool, Spell, Built, Proper, Begins;
    var p := ParseAt(DISJUNCTION, ts);
    if ts.End? {
      t := Word(true);
      assert Proper(t) by { ProperWord(); }
      BeginsAnyhow(t, ts);
    } else if p.Err? {
      t := PartialText(DISJUNCTION, ts);
    } else {
      t := TextAt(DISJUNCTION, ts);
      Rendered(t, DISJUNCTION, ts);
      BeginsWhole(t, p.value.rest);
    }
  }

  lemma ProperWord()
    ensures Proper(Word(true))
  {
  }

  /** An error stands at the first token that no text could have there: the tokens before it begin
      a text, and no text begins with them and it. */
  lemma ErrorMeans(ts: Tokens)
    requires Parse(ts).Err?
    ensures var left := Parse(ts).error.left;
      && left <= Length(ts)
      && (exists t :: Proper(t) && Same(Spell(t, End), ts, Length(ts) - left))
      && (forall t :: Proper(t) ==> !Same(Spell(t, End), ts, Length(ts) - left + 1))
  {
    hide Parse, Spell, Built, Proper, Same;
    var t := StartOfText(ts);
    var n := Length(ts) - Parse(ts).error.left;
    assert Same(Spell(t, End), ts, n);
    forall u | Proper(u) && Same(Spell(u, End), ts, n + 1)
      ensures false
    {
      FailsAlike(ts, Spell(u, End));
      WritesParse(u);
    }
  }
}
