/** What the parser of parser.go does with particular shapes of input:
    the implicit last-answer operand, the Clear and Exit signals, the
    rules for calls and groups, the fixed primaries, and worked lines. */
module ParserFacts {
  import opened Wrappers
  import opened Tokenizer
  import opened Numerics
  import opened Ast
  import opened Parsing

  // ---------------------------------------------------------------------
  // The implicit left operand

  /** The operand a tree starts with: its leftmost leaf or call. */
  function Leftmost<F>(e: Expr<F>): (x: Expr<F>)
    ensures !x.BinaryOp?
    decreases e
  {
    if e.BinaryOp? then Leftmost(e.left) else e
  }

  /** Both loops only ever put the tree so far on the left, so what they
      return starts with what they were given. */
  lemma {:induction false} ExpressionTailKeepsLeftmost<F>(m: Float64<F>, ans: F, ts: seq<Token>, p: nat, acc: Expr<F>)
    requires p <= |ts|
    ensures var r := ExpressionTail(m, ans, ts, p, acc); r.Parsed? ==> Leftmost(r.expr) == Leftmost(acc)
    decreases |ts| - p
  {
    if IsAdditive(Peek(ts, p).kind) {
      var right := ParseMulDiv(m, ans, ts, p + 1);
      if right.Parsed? {
        ExpressionTailKeepsLeftmost(m, ans, ts, right.next, BinaryOp(ts[p].kind, acc, right.expr));
      }
    }
  }

  lemma {:induction false} MulDivTailKeepsLeftmost<F>(m: Float64<F>, ans: F, ts: seq<Token>, p: nat, acc: Expr<F>)
    requires p <= |ts|
    ensures var r := MulDivTail(m, ans, ts, p, acc); r.Parsed? ==> Leftmost(r.expr) == Leftmost(acc)
    decreases |ts| - p
  {
    if IsMultiplicative(Peek(ts, p).kind) {
      var right := ParsePrimitive(m, ans, ts, p + 1);
      if right.Parsed? {
        MulDivTailKeepsLeftmost(m, ans, ts, right.next, BinaryOp(ts[p].kind, acc, right.expr));
      }
    }
  }

  /** The lowest operator node on the left spine of a tree: the first
      operator that was applied. */
  function LeftNode<F>(e: Expr<F>): (x: Expr<F>)
    ensures e.BinaryOp? ==> x.BinaryOp? && !x.left.BinaryOp? && Leftmost(e) == x.left
    decreases e
  {
    if e.BinaryOp? && e.left.BinaryOp? then LeftNode(e.left) else e
  }

  /** Once the tree so far is an operator node, both loops keep its
      lowest left node. */
  lemma {:induction false} ExpressionTailKeepsLeftNode<F>(m: Float64<F>, ans: F, ts: seq<Token>, p: nat, acc: Expr<F>)
    requires p <= |ts| && acc.BinaryOp?
    ensures var r := ExpressionTail(m, ans, ts, p, acc); r.Parsed? ==> r.expr.BinaryOp? && LeftNode(r.expr) == LeftNode(acc)
    decreases |ts| - p
  {
    if IsAdditive(Peek(ts, p).kind) {
      var right := ParseMulDiv(m, ans, ts, p + 1);
      if right.Parsed? {
        ExpressionTailKeepsLeftNode(m, ans, ts, right.next, BinaryOp(ts[p].kind, acc, right.expr));
      }
    }
  }

  lemma {:induction false} MulDivTailKeepsLeftNode<F>(m: Float64<F>, ans: F, ts: seq<Token>, p: nat, acc: Expr<F>)
    requires p <= |ts| && acc.BinaryOp?
    ensures var r := MulDivTail(m, ans, ts, p, acc); r.Parsed? ==> r.expr.BinaryOp? && LeftNode(r.expr) == LeftNode(acc)
    decreases |ts| - p
  {
    if IsMultiplicative(Peek(ts, p).kind) {
      var right := ParsePrimitive(m, ans, ts, p + 1);
      if right.Parsed? {
        MulDivTailKeepsLeftNode(m, ans, ts, right.next, BinaryOp(ts[p].kind, acc, right.expr));
      }
    }
  }

  /** An expression that starts with one of the four operators, at any
      depth, applies that operator first, to the last answer and to the
      operand read after the operator: the operator is taken as the loop's
      own, never before the last answer. */
  lemma LeadingOperatorTakesAnswer<F>(m: Float64<F>, ans: F, ts: seq<Token>, p: nat)
    requires p < |ts|
    requires IsAdditive(ts[p].kind) || IsMultiplicative(ts[p].kind)
    ensures var r := ParseExpression(m, ans, ts, p);
      r.Parsed? ==>
        && r.expr.BinaryOp?
        && LeftNode(r.expr).op == ts[p].kind
        && LeftNode(r.expr).left == Number(ans)
        && Leftmost(r.expr) == Number(ans)
        && (IsAdditive(ts[p].kind) ==> ParseMulDiv(m, ans, ts, p + 1).Parsed? && LeftNode(r.expr).right == ParseMulDiv(m, ans, ts, p + 1).expr)
        && (IsMultiplicative(ts[p].kind) ==> ParsePrimitive(m, ans, ts, p + 1).Parsed? && LeftNode(r.expr).right == ParsePrimitive(m, ans, ts, p + 1).expr)
  {
    var op := ts[p].kind;
    if IsAdditive(op) {
      var right := ParseMulDiv(m, ans, ts, p + 1);
      if right.Parsed? {
        var first := BinaryOp(op, Number(ans), right.expr);
        assert LeftNode(first) == first;
        assert ParseExpression(m, ans, ts, p) == ExpressionTail(m, ans, ts, right.next, first);
        ExpressionTailKeepsLeftNode(m, ans, ts, right.next, first);
      }
    } else {
      var right := ParsePrimitive(m, ans, ts, p + 1);
      if right.Parsed? {
        var first := BinaryOp(op, Number(ans), right.expr);
        assert LeftNode(first) == first;
        assert ParseMulDiv(m, ans, ts, p) == MulDivTail(m, ans, ts, right.next, first);
        MulDivTailKeepsLeftNode(m, ans, ts, right.next, first);
        var left := ParseMulDiv(m, ans, ts, p);
        if left.Parsed? {
          assert ParseExpression(m, ans, ts, p) == ExpressionTail(m, ans, ts, left.next, left.expr);
          ExpressionTailKeepsLeftNode(m, ans, ts, left.next, left.expr);
        } else {
          assert ParseExpression(m, ans, ts, p).Failed?;
        }
      } else {
        assert ParseMulDiv(m, ans, ts, p).Failed?;
        assert ParseExpression(m, ans, ts, p).Failed?;
      }
    }
  }

  /** Without a leading operator the first operand is the first
      primitive, read at the start. */
  lemma FirstPrimitiveLeads<F>(m: Float64<F>, ans: F, ts: seq<Token>, p: nat)
    requires p <= |ts|
    requires !IsAdditive(Peek(ts, p).kind) && !IsMultiplicative(Peek(ts, p).kind)
    ensures var r := ParseExpression(m, ans, ts, p); var first := ParsePrimitive(m, ans, ts, p);
      r.Parsed? ==> first.Parsed? && Leftmost(r.expr) == Leftmost(first.expr)
  {
    var first := ParsePrimitive(m, ans, ts, p);
    if first.Parsed? {
      MulDivTailKeepsLeftmost(m, ans, ts, first.next, first.expr);
      var left := ParseMulDiv(m, ans, ts, p);
      if left.Parsed? {
        ExpressionTailKeepsLeftmost(m, ans, ts, left.next, left.expr);
      }
    }
  }

  // ---------------------------------------------------------------------
  // The Clear and Exit signals

  /** The token each signal comes from. */
  function SignalToken(err: ParseError): (k: Option<Kind>)
    ensures k.Some? <==> err == ClearSignal || err == ExitSignal
  {
    match err
    case ClearSignal => Some(CLEAR)
    case ExitSignal => Some(EXIT)
    case _ => None
  }

  /** r did not fail with a signal, or a token of that signal's kind lies
      at or after p. */
  ghost predicate SignalFrom<F>(ts: seq<Token>, p: nat, r: ParseResult<F>) {
    r.Failed? && SignalToken(r.error).Some? ==>
      exists i | p <= i < |ts| :: ts[i].kind == SignalToken(r.error).value
  }

  /** A line fails with Clear or Exit only when it holds a `clear` or
      `exit` token: the signals are raised by parsePrimitive alone and
      passed up unchanged. One lemma per routine, following their
      recursion. */
  lemma {:induction false} ExpressionSignal<F>(m: Float64<F>, ans: F, ts: seq<Token>, p: nat)
    requires p <= |ts|
    ensures SignalFrom(ts, p, ParseExpression(m, ans, ts, p))
    decreases |ts| - p, 3
  {
    if !IsAdditive(Peek(ts, p).kind) {
      MulDivSignal(m, ans, ts, p);
      var left := ParseMulDiv(m, ans, ts, p);
      if left.Parsed? {
        ExpressionTailSignal(m, ans, ts, left.next, left.expr);
      }
    } else {
      ExpressionTailSignal(m, ans, ts, p, Number(ans));
    }
  }

  lemma {:induction false} ExpressionTailSignal<F>(m: Float64<F>, ans: F, ts: seq<Token>, p: nat, acc: Expr<F>)
    requires p <= |ts|
    ensures SignalFrom(ts, p, ExpressionTail(m, ans, ts, p, acc))
    decreases |ts| - p, 1
  {
    if IsAdditive(Peek(ts, p).kind) {
      MulDivSignal(m, ans, ts, p + 1);
      var right := ParseMulDiv(m, ans, ts, p + 1);
      if right.Parsed? {
        ExpressionTailSignal(m, ans, ts, right.next, BinaryOp(ts[p].kind, acc, right.expr));
      }
    }
  }

  lemma {:induction false} MulDivSignal<F>(m: Float64<F>, ans: F, ts: seq<Token>, p: nat)
    requires p <= |ts|
    ensures SignalFrom(ts, p, ParseMulDiv(m, ans, ts, p))
    decreases |ts| - p, 2
  {
    if !IsMultiplicative(Peek(ts, p).kind) {
      PrimitiveSignal(m, ans, ts, p);
      var left := ParsePrimitive(m, ans, ts, p);
      if left.Parsed? {
        MulDivTailSignal(m, ans, ts, left.next, left.expr);
      }
    } else {
      MulDivTailSignal(m, ans, ts, p, Number(ans));
    }
  }

  lemma {:induction false} MulDivTailSignal<F>(m: Float64<F>, ans: F, ts: seq<Token>, p: nat, acc: Expr<F>)
    requires p <= |ts|
    ensures SignalFrom(ts, p, MulDivTail(m, ans, ts, p, acc))
    decreases |ts| - p, 1
  {
    if IsMultiplicative(Peek(ts, p).kind) {
      PrimitiveSignal(m, ans, ts, p + 1);
      var right := ParsePrimitive(m, ans, ts, p + 1);
      if right.Parsed? {
        MulDivTailSignal(m, ans, ts, right.next, BinaryOp(ts[p].kind, acc, right.expr));
      }
    }
  }

  lemma {:induction false} PrimitiveSignal<F>(m: Float64<F>, ans: F, ts: seq<Token>, p: nat)
    requires p <= |ts|
    ensures SignalFrom(ts, p, ParsePrimitive(m, ans, ts, p))
    decreases |ts| - p, 1
  {
    var k := Peek(ts, p).kind;
    if k == IDENTIFIER {
      CallSignal(m, ans, ts, p);
    } else if k == LPAREN {
      ExpressionSignal(m, ans, ts, p + 1);
      GroupCloseOptional(m, ans, ts, p);
    } else if k == CLEAR || k == EXIT {
      assert ts[p].kind == k;
    }
  }

  lemma {:induction false} CallSignal<F>(m: Float64<F>, ans: F, ts: seq<Token>, p: nat)
    requires p < |ts| && ts[p].kind == IDENTIFIER
    ensures SignalFrom(ts, p, ParseCall(m, ans, ts, p))
    decreases |ts| - p, 0
  {
    if Peek(ts, p + 1).kind == LPAREN && Peek(ts, p + 2).kind != RPAREN {
      ArgsSignal(m, ans, ts, p + 2, ts[p].value, []);
    }
  }

  lemma {:induction false} ArgsSignal<F>(m: Float64<F>, ans: F, ts: seq<Token>, p: nat, name: seq<Byte>, acc: seq<Expr<F>>)
    requires p <= |ts|
    ensures SignalFrom(ts, p, ParseArgs(m, ans, ts, p, name, acc))
    decreases |ts| - p, 4
  {
    ExpressionSignal(m, ans, ts, p);
    var arg := ParseExpression(m, ans, ts, p);
    ArgsNext(m, ans, ts, p, name, acc, arg);
    if arg.Parsed? && Peek(ts, arg.next).kind == COMMA {
      ArgsSignal(m, ans, ts, arg.next + 1, name, acc + [arg.expr]);
    }
  }

  /** Conversely a `clear` or `exit` where an operand is expected stops
      the parse with its signal, however deep it sits: here at the start
      of an Expression, nested in a group or in a call's arguments. */
  lemma SignalWhereOperandExpected<F>(m: Float64<F>, ans: F, ts: seq<Token>, p: nat)
    requires p < |ts| && ts[p].kind in {CLEAR, EXIT}
    ensures ParseExpression(m, ans, ts, p) == Failed(if ts[p].kind == CLEAR then ClearSignal else ExitSignal)
    ensures ParsePrimitive(m, ans, ts, p) == Failed(if ts[p].kind == CLEAR then ClearSignal else ExitSignal)
  {
    var signal := if ts[p].kind == CLEAR then ClearSignal else ExitSignal;
    assert ParsePrimitive(m, ans, ts, p) == Failed(signal);
    assert ParseMulDiv(m, ans, ts, p) == Failed(signal);
  }

  // ---------------------------------------------------------------------
  // Primaries

  /** What each kind of lookahead makes of a primitive, apart from a
      number, a call and a group: `ans`, `pi` and `e` become numbers,
      `clear` and `exit` their signals, and everything else, the end of
      the line included, an UnexpectedToken error naming it. */
  lemma PrimitiveTable<F>(m: Float64<F>, ans: F, ts: seq<Token>, p: nat)
    requires p <= |ts|
    ensures var k, r := Peek(ts, p).kind, ParsePrimitive(m, ans, ts, p);
      && (k == ANS ==> r == Parsed(Number(ans), p + 1))
      && (k == PI ==> r == Parsed(Number(m.pi), p + 1))
      && (k == E ==> r == Parsed(Number(m.e), p + 1))
      && (k == CLEAR ==> r == Failed(ClearSignal))
      && (k == EXIT ==> r == Failed(ExitSignal))
      && (k !in {NUM, IDENTIFIER, LPAREN, ANS, CLEAR, EXIT, PI, E} ==> r == Failed(UnexpectedToken(k)))
  {
  }

  /** A NUM becomes the number strconv.ParseFloat reads from its text, or
      fails with that conversion's error. */
  lemma NumberPrimitive<F>(m: Float64<F>, ans: F, ts: seq<Token>, p: nat)
    requires p < |ts| && ts[p].kind == NUM
    ensures var v, r := m.parseFloat(ts[p].value), ParsePrimitive(m, ans, ts, p);
      && (v.Some? ==> r == Parsed(Number(v.value), p + 1))
      && (v.None? ==> r == Failed(BadNumber(ts[p].value)))
  {
  }

  // ---------------------------------------------------------------------
  // Calls and groups

  /** A name not followed by `(` is an error naming the token that came
      instead. */
  lemma CallNeedsParenthesis<F>(m: Float64<F>, ans: F, ts: seq<Token>, p: nat)
    requires p < |ts| && ts[p].kind == IDENTIFIER && Peek(ts, p + 1).kind != LPAREN
    ensures ParsePrimitive(m, ans, ts, p) == Failed(UnexpectedToken(Peek(ts, p + 1).kind))
  {
  }

  /** A call is named by its IDENTIFIER, and its argument list is empty
      exactly when a `)` follows the `(` at once. */
  lemma CallShape<F>(m: Float64<F>, ans: F, ts: seq<Token>, p: nat)
    requires p < |ts| && ts[p].kind == IDENTIFIER
    ensures var r := ParsePrimitive(m, ans, ts, p);
      r.Parsed? ==> r.expr.Call? && r.expr.name == ts[p].value && (r.expr.args == [] <==> Peek(ts, p + 2).kind == RPAREN)
  {
    if Peek(ts, p + 1).kind == LPAREN {
      CallOpens(m, ans, ts, p);
    }
  }

  /** The `)` of a group is taken when present and never required: the
      group succeeds exactly when its Expression does, with the same
      tree. */
  lemma GroupCloseOptional<F>(m: Float64<F>, ans: F, ts: seq<Token>, p: nat)
    requires p < |ts| && ts[p].kind == LPAREN
    ensures var inner, r := ParseExpression(m, ans, ts, p + 1), ParsePrimitive(m, ans, ts, p);
      && (r.Parsed? <==> inner.Parsed?)
      && (inner.Failed? ==> r == inner)
      && (inner.Parsed? ==> r.expr == inner.expr &&
                            r.next == if Peek(ts, inner.next).kind == RPAREN then inner.next + 1 else inner.next)
  {
  }

  // ---------------------------------------------------------------------
  // Worked lines. Numbers are abstract, so each example names the value
  // strconv.ParseFloat gives for each literal.

  function Num(text: seq<Byte>): Token {
    Token(NUM, text)
  }

  function Op(k: Kind): Token {
    Token(k, [])
  }

  /** A primitive with no operator before or after it is a whole
      Expression by itself. */
  lemma PrimitiveAlone<F>(m: Float64<F>, ans: F, ts: seq<Token>, p: nat, x: Expr<F>, q: nat)
    requires p <= |ts| && q <= |ts|
    requires !IsAdditive(Peek(ts, p).kind) && !IsMultiplicative(Peek(ts, p).kind)
    requires !IsAdditive(Peek(ts, q).kind) && !IsMultiplicative(Peek(ts, q).kind)
    ensures ParsePrimitive(m, ans, ts, p) == Parsed(x, q) ==>
      ParseMulDiv(m, ans, ts, p) == Parsed(x, q) && ParseExpression(m, ans, ts, p) == Parsed(x, q)
  {
    TailStops(m, ans, ts, q, x);
  }

  /** `+5` adds 5 to the last answer. */
  lemma ImplicitPlusExample<F>(m: Float64<F>, ans: F, ts: seq<Token>, five: F)
    requires ts == [Op(PLUS), Num("5"), Op(EOF)] && m.parseFloat("5") == Some(five)
    ensures ParseExpression(m, ans, ts, 0) == Parsed(BinaryOp(PLUS, Number(ans), Number(five)), 2)
  {
    PrimitiveAlone(m, ans, ts, 1, Number(five), 2);
    TailStops(m, ans, ts, 2, BinaryOp(PLUS, Number(ans), Number(five)));
  }

  /** `*2` doubles it. */
  lemma ImplicitTimesExample<F>(m: Float64<F>, ans: F, ts: seq<Token>, two: F)
    requires ts == [Op(MUL), Num("2"), Op(EOF)] && m.parseFloat("2") == Some(two)
    ensures ParseExpression(m, ans, ts, 0) == Parsed(BinaryOp(MUL, Number(ans), Number(two)), 2)
  {
    var product := BinaryOp(MUL, Number(ans), Number(two));
    assert ParsePrimitive(m, ans, ts, 1) == Parsed(Number(two), 2);
    TailStops(m, ans, ts, 2, product);
    assert ParseMulDiv(m, ans, ts, 0) == Parsed(product, 2);
  }

  /** `1-2-3` folds to the left: (1-2)-3. */
  lemma LeftFoldExample<F>(m: Float64<F>, ans: F, ts: seq<Token>, one: F, two: F, three: F)
    requires ts == [Num("1"), Op(MINUS), Num("2"), Op(MINUS), Num("3"), Op(EOF)]
    requires m.parseFloat("1") == Some(one) && m.parseFloat("2") == Some(two) && m.parseFloat("3") == Some(three)
    ensures ParseExpression(m, ans, ts, 0) ==
      Parsed(BinaryOp(MINUS, BinaryOp(MINUS, Number(one), Number(two)), Number(three)), 5)
  {
    var left := BinaryOp(MINUS, Number(one), Number(two));
    PrimitiveAlone(m, ans, ts, 4, Number(three), 5);
    TailStops(m, ans, ts, 5, BinaryOp(MINUS, left, Number(three)));
    assert ExpressionTail(m, ans, ts, 3, left) == Parsed(BinaryOp(MINUS, left, Number(three)), 5);
    assert ParsePrimitive(m, ans, ts, 2) == Parsed(Number(two), 3);
    TailStops(m, ans, ts, 3, Number(two));
    assert ExpressionTail(m, ans, ts, 1, Number(one)) == Parsed(BinaryOp(MINUS, left, Number(three)), 5);
    assert ParsePrimitive(m, ans, ts, 0) == Parsed(Number(one), 1);
    TailStops(m, ans, ts, 1, Number(one));
  }

  /** `1+2*3`: `*` binds tighter than `+`. */
  lemma PrecedenceExample<F>(m: Float64<F>, ans: F, ts: seq<Token>, one: F, two: F, three: F)
    requires ts == [Num("1"), Op(PLUS), Num("2"), Op(MUL), Num("3"), Op(EOF)]
    requires m.parseFloat("1") == Some(one) && m.parseFloat("2") == Some(two) && m.parseFloat("3") == Some(three)
    ensures ParseExpression(m, ans, ts, 0) ==
      Parsed(BinaryOp(PLUS, Number(one), BinaryOp(MUL, Number(two), Number(three))), 5)
  {
    var product := BinaryOp(MUL, Number(two), Number(three));
    assert ParsePrimitive(m, ans, ts, 4) == Parsed(Number(three), 5);
    TailStops(m, ans, ts, 5, product);
    assert MulDivTail(m, ans, ts, 3, Number(two)) == Parsed(product, 5);
    assert ParsePrimitive(m, ans, ts, 2) == Parsed(Number(two), 3);
    assert ParseMulDiv(m, ans, ts, 2) == Parsed(product, 5);
    TailStops(m, ans, ts, 5, BinaryOp(PLUS, Number(one), product));
    assert ExpressionTail(m, ans, ts, 1, Number(one)) == Parsed(BinaryOp(PLUS, Number(one), product), 5);
    assert ParsePrimitive(m, ans, ts, 0) == Parsed(Number(one), 1);
    TailStops(m, ans, ts, 1, Number(one));
  }

  /** The same from the text of the line. */
  lemma PrecedenceFromText<F>(m: Float64<F>, ans: F, one: F, two: F, three: F)
    requires m.parseFloat("1") == Some(one) && m.parseFloat("2") == Some(two) && m.parseFloat("3") == Some(three)
    ensures ParseExpression(m, ans, Lex("1+2*3"), 0) ==
      Parsed(BinaryOp(PLUS, Number(one), BinaryOp(MUL, Number(two), Number(three))), 5)
  {
    LexExampleSum();
    PrecedenceExample(m, ans, Lex("1+2*3"), one, two, three);
  }

  /** `1+` fails on the end of the line: the error names EOF. */
  lemma DanglingOperatorExample<F>(m: Float64<F>, ans: F, ts: seq<Token>, one: F)
    requires ts == [Num("1"), Op(PLUS), Op(EOF)] && m.parseFloat("1") == Some(one)
    ensures ParseExpression(m, ans, ts, 0) == Failed(UnexpectedToken(EOF))
  {
    assert ParseMulDiv(m, ans, ts, 2) == Failed(UnexpectedToken(EOF));
    assert ParsePrimitive(m, ans, ts, 0) == Parsed(Number(one), 1);
    TailStops(m, ans, ts, 1, Number(one));
  }

  /** `1+clear` stops with the Clear signal, not an error of its own. */
  lemma NestedSignalExample<F>(m: Float64<F>, ans: F, ts: seq<Token>, one: F)
    requires ts == [Num("1"), Op(PLUS), Op(CLEAR), Op(EOF)] && m.parseFloat("1") == Some(one)
    ensures ParseExpression(m, ans, ts, 0) == Failed(ClearSignal)
  {
    assert ParseMulDiv(m, ans, ts, 2) == Failed(ClearSignal);
    assert ParsePrimitive(m, ans, ts, 0) == Parsed(Number(one), 1);
    TailStops(m, ans, ts, 1, Number(one));
  }

  /** `1 2` parses as 1 and leaves the second number where it is. */
  lemma TrailingTokensExample<F>(m: Float64<F>, ans: F, ts: seq<Token>, one: F)
    requires ts == [Num("1"), Num("2"), Op(EOF)] && m.parseFloat("1") == Some(one)
    ensures ParseExpression(m, ans, ts, 0) == Parsed(Number(one), 1)
  {
    PrimitiveAlone(m, ans, ts, 0, Number(one), 1);
  }

  /** `max(1, 2` is forgiven at the end of the line. */
  lemma UnclosedCallAtEndExample<F>(m: Float64<F>, ans: F, ts: seq<Token>, one: F, two: F)
    requires ts == [Token(IDENTIFIER, "max"), Op(LPAREN), Num("1"), Op(COMMA), Num("2"), Op(EOF)]
    requires m.parseFloat("1") == Some(one) && m.parseFloat("2") == Some(two)
    ensures ParseExpression(m, ans, ts, 0) == Parsed(Call("max", [Number(one), Number(two)]), 5)
  {
    var call := Call("max", [Number(one), Number(two)]);
    MaxArguments(m, ans, ts, one, two);
    CallOpens(m, ans, ts, 0);
    assert ParsePrimitive(m, ans, ts, 0) == Parsed(call, 5);
    PrimitiveAlone(m, ans, ts, 0, call, 5);
  }

  /** The arguments of `max(1, 2`. */
  lemma MaxArguments<F>(m: Float64<F>, ans: F, ts: seq<Token>, one: F, two: F)
    requires ts == [Token(IDENTIFIER, "max"), Op(LPAREN), Num("1"), Op(COMMA), Num("2"), Op(EOF)]
    requires m.parseFloat("1") == Some(one) && m.parseFloat("2") == Some(two)
    ensures ParseArgs(m, ans, ts, 2, "max", []) == Parsed(Call("max", [Number(one), Number(two)]), 5)
  {
    PrimitiveAlone(m, ans, ts, 4, Number(two), 5);
    ArgsNext(m, ans, ts, 4, "max", [Number(one)], ParseExpression(m, ans, ts, 4));
    PrimitiveAlone(m, ans, ts, 2, Number(one), 3);
    ArgsNext(m, ans, ts, 2, "max", [], ParseExpression(m, ans, ts, 2));
    assert [Number(one)] + [Number(two)] == [Number(one), Number(two)];
  }

  /** `sqrt(1 2` is not: the second number is neither `,` nor `)`. */
  lemma UnclosedCallExample<F>(m: Float64<F>, ans: F, ts: seq<Token>, one: F)
    requires ts == [Token(IDENTIFIER, "sqrt"), Op(LPAREN), Num("1"), Num("2"), Op(EOF)]
    requires m.parseFloat("1") == Some(one)
    ensures ParseExpression(m, ans, ts, 0) == Failed(UnexpectedToken(NUM))
  {
    PrimitiveAlone(m, ans, ts, 2, Number(one), 3);
    ArgsNext(m, ans, ts, 2, "sqrt", [], ParseExpression(m, ans, ts, 2));
    CallOpens(m, ans, ts, 0);
    assert ParsePrimitive(m, ans, ts, 0) == Failed(UnexpectedToken(NUM));
    assert ParseMulDiv(m, ans, ts, 0) == Failed(UnexpectedToken(NUM));
  }
}
