/** The recursive-descent parser of parser.go. The first half defines, as
    functions over a token sequence and a position, what each parsing
    routine returns; the second half is the Parser object of the source,
    the tokens of the line with a position that Eat advances, whose
    methods are proved to return exactly what those functions say. */
module Parsing {
  import opened Wrappers
  import opened Tokenizer
  import opened Numerics
  import opened Ast

  /** The errors parsing can return (parser.go:9-15, 94-104): an
      unexpected token, the error of strconv.ParseFloat, and the Clear
      and Exit signals, which the source passes as errors. */
  datatype ParseError =
    | UnexpectedToken(kind: Kind)
    | BadNumber(text: seq<Byte>)
    | ClearSignal
    | ExitSignal

  /** The Error() text of each. For BadNumber it is the range error, the
      one strconv.ParseFloat can report for a digit run. */
  function ParseMessage(err: ParseError): (text: string)
    ensures text == [] <==> err == ClearSignal || err == ExitSignal
  {
    match err
    case UnexpectedToken(k) => "unexpected token " + KindName(k)
    case BadNumber(text) => "strconv.ParseFloat: parsing \"" + text + "\": value out of range"
    case ClearSignal => ""
    case ExitSignal => ""
  }

  /** The message of an unexpected token names its kind, and different
      kinds give different messages. */
  lemma UnexpectedMessageNamesKind(a: Kind, b: Kind)
    ensures ParseMessage(UnexpectedToken(a)) == ParseMessage(UnexpectedToken(b)) ==> a == b
  {
    var prefix := "unexpected token ";
    if ParseMessage(UnexpectedToken(a)) == ParseMessage(UnexpectedToken(b)) {
      assert KindName(a) == (prefix + KindName(a))[|prefix|..];
      assert KindName(b) == (prefix + KindName(b))[|prefix|..];
      KindNamesDistinct(a, b);
    }
  }

  /** The message of the line `1+`, which runs into the end of the line. */
  lemma UnexpectedMessageExample()
    ensures ParseMessage(UnexpectedToken(EOF)) == "unexpected token EOF"
  {
  }

  /** What a parsing routine returns: a tree and the position after the
      tokens it took, or the error it stopped with. */
  datatype ParseResult<F> = Parsed(expr: Expr<F>, next: nat) | Failed(error: ParseError)

  /** The lookahead at position p. Past the end of the sequence it is the
      zero token a receive on the closed channel yields. */
  function Peek(ts: seq<Token>, p: nat): Token {
    if p < |ts| then ts[p] else Token(NoToken, [])
  }

  predicate IsAdditive(k: Kind) {
    k == PLUS || k == MINUS
  }

  predicate IsMultiplicative(k: Kind) {
    k == MUL || k == DIV
  }

  /** A tree the parser can build from ts: every operator is one of the
      four arithmetic ones, and every call names the text of an
      IDENTIFIER token of ts. */
  predicate Built<F>(e: Expr<F>, ts: seq<Token>)
    decreases e
  {
    match e
    case Number(_) => true
    case BinaryOp(op, l, r) => (IsAdditive(op) || IsMultiplicative(op)) && Built(l, ts) && Built(r, ts)
    case Call(name, args) => Token(IDENTIFIER, name) in ts && forall i | 0 <= i < |args| :: Built(args[i], ts)
  }

  // ---------------------------------------------------------------------
  // What each routine returns. `ans` is the last answer, which the source
  // reads from a package-level variable.

  /** Expression (parser.go:38-65): a leading PLUS or MINUS uses the last
      answer as the left operand; otherwise a parseMulDiv; then the
      additive loop. */
  function ParseExpression<F>(m: Float64<F>, ans: F, ts: seq<Token>, p: nat): (r: ParseResult<F>)
    requires p <= |ts|
    ensures r.Parsed? ==> p < r.next <= |ts| && !IsAdditive(Peek(ts, r.next).kind)
    decreases |ts| - p, 3
  {
    if IsAdditive(Peek(ts, p).kind) then ExpressionTail(m, ans, ts, p, Number(ans))
    else
      match ParseMulDiv(m, ans, ts, p)
      case Failed(err) => Failed(err)
      case Parsed(left, q) => ExpressionTail(m, ans, ts, q, left)
  }

  /** The loop of parser.go:52-62: while the lookahead is PLUS or MINUS,
      take it and a parseMulDiv, and fold to the left. */
  function ExpressionTail<F>(m: Float64<F>, ans: F, ts: seq<Token>, p: nat, acc: Expr<F>): (r: ParseResult<F>)
    requires p <= |ts|
    ensures r.Parsed? ==> p <= r.next <= |ts| && !IsAdditive(Peek(ts, r.next).kind)
    ensures r.Parsed? && IsAdditive(Peek(ts, p).kind) ==> p < r.next
    decreases |ts| - p, 1
  {
    var op := Peek(ts, p).kind;
    if IsAdditive(op) then
      match ParseMulDiv(m, ans, ts, p + 1)
      case Failed(err) => Failed(err)
      case Parsed(right, q) => ExpressionTail(m, ans, ts, q, BinaryOp(op, acc, right))
    else Parsed(acc, p)
  }

  /** parseMulDiv (parser.go:67-92): as Expression, one tier down. */
  function ParseMulDiv<F>(m: Float64<F>, ans: F, ts: seq<Token>, p: nat): (r: ParseResult<F>)
    requires p <= |ts|
    ensures r.Parsed? ==> p < r.next <= |ts| && !IsMultiplicative(Peek(ts, r.next).kind)
    decreases |ts| - p, 2
  {
    if IsMultiplicative(Peek(ts, p).kind) then MulDivTail(m, ans, ts, p, Number(ans))
    else
      match ParsePrimitive(m, ans, ts, p)
      case Failed(err) => Failed(err)
      case Parsed(left, q) => MulDivTail(m, ans, ts, q, left)
  }

  /** The loop of parser.go:79-89. */
  function MulDivTail<F>(m: Float64<F>, ans: F, ts: seq<Token>, p: nat, acc: Expr<F>): (r: ParseResult<F>)
    requires p <= |ts|
    ensures r.Parsed? ==> p <= r.next <= |ts| && !IsMultiplicative(Peek(ts, r.next).kind)
    ensures r.Parsed? && IsMultiplicative(Peek(ts, p).kind) ==> p < r.next
    decreases |ts| - p, 1
  {
    var op := Peek(ts, p).kind;
    if IsMultiplicative(op) then
      match ParsePrimitive(m, ans, ts, p + 1)
      case Failed(err) => Failed(err)
      case Parsed(right, q) => MulDivTail(m, ans, ts, q, BinaryOp(op, acc, right))
    else Parsed(acc, p)
  }

  /** parsePrimitive (parser.go:106-172). */
  function ParsePrimitive<F>(m: Float64<F>, ans: F, ts: seq<Token>, p: nat): (r: ParseResult<F>)
    requires p <= |ts|
    ensures r.Parsed? ==> p < r.next <= |ts|
    decreases |ts| - p, 1
  {
    var t := Peek(ts, p);
    match t.kind
    case NUM =>
      var v := m.parseFloat(t.value);
      if v.None? then Failed(BadNumber(t.value)) else Parsed(Number(v.value), p + 1)
    case IDENTIFIER => ParseCall(m, ans, ts, p)
    case LPAREN => ParseGroup(m, ans, ts, p)
    case ANS => Parsed(Number(ans), p + 1)
    case CLEAR => Failed(ClearSignal)
    case EXIT => Failed(ExitSignal)
    case PI => Parsed(Number(m.pi), p + 1)
    case E => Parsed(Number(m.e), p + 1)
    case _ => Failed(UnexpectedToken(t.kind))
  }

  /** The IDENTIFIER branch (parser.go:118-146): a LPAREN must follow;
      the argument list is empty when a RPAREN comes next; the closing
      RPAREN is taken when present and may be missing only at the end of
      the line. */
  function ParseCall<F>(m: Float64<F>, ans: F, ts: seq<Token>, p: nat): (r: ParseResult<F>)
    requires p < |ts| && ts[p].kind == IDENTIFIER
    ensures r.Parsed? ==> p < r.next <= |ts|
    decreases |ts| - p, 0
  {
    var name := ts[p].value;
    var k := Peek(ts, p + 1).kind;
    if k != LPAREN then Failed(UnexpectedToken(k))
    else
      CloseCall(ts,
        if Peek(ts, p + 2).kind == RPAREN then Parsed(Call(name, []), p + 2)
        else ParseArgs(m, ans, ts, p + 2, name, []))
  }

  /** The end of a call (parser.go:141-146): a RPAREN is taken, a missing
      one is forgiven at EOF, any other token is an error. */
  function CloseCall<F>(ts: seq<Token>, call: ParseResult<F>): (r: ParseResult<F>)
    ensures r.Parsed? <==> call.Parsed? && Peek(ts, call.next).kind in {RPAREN, EOF}
    ensures r.Parsed? ==> r.expr == call.expr
    ensures r.Parsed? && Peek(ts, call.next).kind == RPAREN ==> r.next == call.next + 1 && call.next < |ts|
    ensures r.Parsed? && Peek(ts, call.next).kind == EOF ==> r.next == call.next
    ensures r.Failed? && call.Parsed? ==> r.error == UnexpectedToken(Peek(ts, call.next).kind)
    ensures call.Failed? ==> r == call
  {
    match call
    case Failed(err) => Failed(err)
    case Parsed(c, q) =>
      var close := Peek(ts, q).kind;
      if close == RPAREN then Parsed(c, q + 1)
      else if close == EOF then Parsed(c, q)
      else Failed(UnexpectedToken(close))
  }

  /** The LPAREN branch (parser.go:147-154): the inner Expression decides
      the result; a RPAREN after it is taken when present and is never
      required. */
  function ParseGroup<F>(m: Float64<F>, ans: F, ts: seq<Token>, p: nat): (r: ParseResult<F>)
    requires p < |ts|
    ensures r.Parsed? ==> p < r.next <= |ts|
    decreases |ts| - p, 0
  {
    match ParseExpression(m, ans, ts, p + 1)
    case Failed(err) => Failed(err)
    case Parsed(e, q) => Parsed(e, if Peek(ts, q).kind == RPAREN then q + 1 else q)
  }

  /** The argument loop of parser.go:126-140: an Expression, then more
      after each COMMA. The call it returns has the arguments acc and then
      those it parsed, in source order. */
  function ParseArgs<F>(m: Float64<F>, ans: F, ts: seq<Token>, p: nat, name: seq<Byte>, acc: seq<Expr<F>>): (r: ParseResult<F>)
    requires p <= |ts|
    ensures r.Parsed? ==> p < r.next <= |ts|
    ensures r.Parsed? ==>
      (r.expr.Call? && r.expr.name == name && |r.expr.args| > |acc| && r.expr.args[..|acc|] == acc)
    decreases |ts| - p, 4
  {
    match ParseExpression(m, ans, ts, p)
    case Failed(err) => Failed(err)
    case Parsed(arg, q) =>
      if Peek(ts, q).kind == COMMA then ParseArgs(m, ans, ts, q + 1, name, acc + [arg])
      else Parsed(Call(name, acc + [arg]), q)
  }

  // ---------------------------------------------------------------------
  // Single steps of the routines above, one unfolding each

  /** A call whose LPAREN is present reads its arguments unless a RPAREN
      follows at once, and then closes. */
  lemma CallOpens<F>(m: Float64<F>, ans: F, ts: seq<Token>, p: nat)
    requires p + 1 < |ts| && ts[p].kind == IDENTIFIER && ts[p + 1].kind == LPAREN
    ensures Peek(ts, p + 2).kind == RPAREN ==>
      ParseCall(m, ans, ts, p) == CloseCall(ts, Parsed(Call(ts[p].value, []), p + 2))
    ensures Peek(ts, p + 2).kind != RPAREN ==>
      ParseCall(m, ans, ts, p) == CloseCall(ts, ParseArgs(m, ans, ts, p + 2, ts[p].value, []))
  {
  }

  /** One round of the argument loop: an argument, then a COMMA to go on
      or anything else to stop. */
  lemma ArgsNext<F>(m: Float64<F>, ans: F, ts: seq<Token>, p: nat, name: seq<Byte>, acc: seq<Expr<F>>, arg: ParseResult<F>)
    requires p <= |ts| && arg == ParseExpression(m, ans, ts, p)
    ensures arg.Failed? ==> ParseArgs(m, ans, ts, p, name, acc) == Failed(arg.error)
    ensures arg.Parsed? && Peek(ts, arg.next).kind == COMMA ==>
      arg.next < |ts| && ParseArgs(m, ans, ts, p, name, acc) == ParseArgs(m, ans, ts, arg.next + 1, name, acc + [arg.expr])
    ensures arg.Parsed? && Peek(ts, arg.next).kind != COMMA ==>
      ParseArgs(m, ans, ts, p, name, acc) == Parsed(Call(name, acc + [arg.expr]), arg.next)
  {
  }

  /** Expression, started at p, is in its loop at `end` with x as the
      tree so far: what it returns is what the loop returns from there. */
  ghost predicate ExpressionReaches<F>(m: Float64<F>, ans: F, ts: seq<Token>, p: nat, end: nat, x: Expr<F>) {
    p <= |ts| && end <= |ts| && ParseExpression(m, ans, ts, p) == ExpressionTail(m, ans, ts, end, x)
  }

  /** The same for parseMulDiv. */
  ghost predicate MulDivReaches<F>(m: Float64<F>, ans: F, ts: seq<Token>, p: nat, end: nat, x: Expr<F>) {
    p <= |ts| && end <= |ts| && ParseMulDiv(m, ans, ts, p) == MulDivTail(m, ans, ts, end, x)
  }

  /** Expression without a leading operator starts with a parseMulDiv;
      when that stops at a lookahead that is not `*` or `/`, the loop of
      Expression goes on from there with what it read. */
  lemma ExpressionStart<F>(m: Float64<F>, ans: F, ts: seq<Token>, p: nat, x: Expr<F>, end: nat)
    requires p <= |ts| && end <= |ts|
    requires !IsAdditive(Peek(ts, p).kind) && !IsMultiplicative(Peek(ts, end).kind)
    ensures MulDivReaches(m, ans, ts, p, end, x) ==> ExpressionReaches(m, ans, ts, p, end, x)
  {
  }

  /** parseMulDiv without a leading operator starts with a parsePrimitive. */
  lemma MulDivStart<F>(m: Float64<F>, ans: F, ts: seq<Token>, p: nat, x: Expr<F>, q: nat)
    requires p <= |ts| && !IsMultiplicative(Peek(ts, p).kind)
    ensures ParsePrimitive(m, ans, ts, p) == Parsed(x, q) ==> MulDivReaches(m, ans, ts, p, q, x)
  {
  }

  /** One turn of the loop of parseMulDiv, seen from the start of the
      routine: having reached the operator at q with e.left, it takes the
      operator and a parsePrimitive and carries on with e. */
  lemma MulDivJoin<F>(m: Float64<F>, ans: F, ts: seq<Token>, p: nat, q: nat, e: Expr<F>, end: nat)
    requires e.BinaryOp? && IsMultiplicative(e.op) && p <= |ts| && q < |ts| && ts[q].kind == e.op
    ensures MulDivReaches(m, ans, ts, p, q, e.left) && ParsePrimitive(m, ans, ts, q + 1) == Parsed(e.right, end) ==>
      MulDivReaches(m, ans, ts, p, end, e)
  {
  }

  /** The same for Expression and a sum or difference, whose right
      operand is a parseMulDiv that stops at a lookahead that is not `*`
      or `/`. */
  lemma ExpressionJoin<F>(m: Float64<F>, ans: F, ts: seq<Token>, p: nat, q: nat, e: Expr<F>, end: nat)
    requires e.BinaryOp? && IsAdditive(e.op) && p <= |ts| && q < |ts| && ts[q].kind == e.op
    requires end <= |ts| && !IsMultiplicative(Peek(ts, end).kind)
    ensures ExpressionReaches(m, ans, ts, p, q, e.left) && MulDivReaches(m, ans, ts, q + 1, end, e.right) ==>
      ExpressionReaches(m, ans, ts, p, end, e)
  {
  }

  /** Both loops stop at a lookahead that is not their operator and hand
      back the tree built so far. */
  lemma TailStops<F>(m: Float64<F>, ans: F, ts: seq<Token>, q: nat, acc: Expr<F>)
    requires q <= |ts|
    ensures !IsAdditive(Peek(ts, q).kind) ==> ExpressionTail(m, ans, ts, q, acc) == Parsed(acc, q)
    ensures !IsMultiplicative(Peek(ts, q).kind) ==> MulDivTail(m, ans, ts, q, acc) == Parsed(acc, q)
  {
  }

  /** A group whose Expression stops at a RPAREN: both parentheses are
      taken. */
  lemma GroupJoin<F>(m: Float64<F>, ans: F, ts: seq<Token>, p: nat, x: Expr<F>, q: nat)
    requires p < q < |ts| && ts[p].kind == LPAREN && ts[q].kind == RPAREN
    ensures ExpressionReaches(m, ans, ts, p + 1, q, x) ==> ParseGroup(m, ans, ts, p) == Parsed(x, q + 1)
  {
  }

  /** `IDENTIFIER ( )`: a call without arguments. */
  lemma CallWithoutArguments<F>(m: Float64<F>, ans: F, ts: seq<Token>, p: nat)
    requires p + 2 < |ts| && ts[p].kind == IDENTIFIER && ts[p + 1].kind == LPAREN && ts[p + 2].kind == RPAREN
    ensures ParseCall(m, ans, ts, p) == Parsed(Call(ts[p].value, []), p + 3)
  {
  }

  /** `IDENTIFIER ( arguments )` whose argument loop stops at a RPAREN,
      which is taken. */
  lemma CallWithArguments<F>(m: Float64<F>, ans: F, ts: seq<Token>, p: nat, c: Expr<F>, q: nat)
    requires p + 2 < |ts| && ts[p].kind == IDENTIFIER && ts[p + 1].kind == LPAREN && ts[p + 2].kind != RPAREN
    requires q < |ts| && ts[q].kind == RPAREN
    ensures ParseArgs(m, ans, ts, p + 2, ts[p].value, []) == Parsed(c, q) ==> ParseCall(m, ans, ts, p) == Parsed(c, q + 1)
  {
  }

  /** One turn of the argument loop: an Expression that stops at q, then
      either a COMMA and more arguments, or the end of the list. */
  lemma ArgsStep<F>(m: Float64<F>, ans: F, ts: seq<Token>, p: nat, name: seq<Byte>, acc: seq<Expr<F>>, arg: Expr<F>, q: nat)
    requires q <= |ts| && !IsAdditive(Peek(ts, q).kind)
    ensures ExpressionReaches(m, ans, ts, p, q, arg) && Peek(ts, q).kind == COMMA ==>
      ParseArgs(m, ans, ts, p, name, acc) == ParseArgs(m, ans, ts, q + 1, name, acc + [arg])
    ensures ExpressionReaches(m, ans, ts, p, q, arg) && Peek(ts, q).kind != COMMA ==>
      ParseArgs(m, ans, ts, p, name, acc) == Parsed(Call(name, acc + [arg]), q)
  {
  }

  // ---------------------------------------------------------------------
  // What the parser builds: every operator node carries one of the four
  // arithmetic operators, and every call is named by the text of an
  // IDENTIFIER token of the line. One lemma per routine; together they
  // are one induction following the routines' own recursion.

  lemma {:induction false} ExpressionBuilt<F>(m: Float64<F>, ans: F, ts: seq<Token>, p: nat)
    requires p <= |ts|
    ensures var r := ParseExpression(m, ans, ts, p); r.Parsed? ==> Built(r.expr, ts)
    decreases |ts| - p, 3
  {
    if !IsAdditive(Peek(ts, p).kind) {
      MulDivBuilt(m, ans, ts, p);
      var left := ParseMulDiv(m, ans, ts, p);
      if left.Parsed? {
        ExpressionTailBuilt(m, ans, ts, left.next, left.expr);
      }
    } else {
      ExpressionTailBuilt(m, ans, ts, p, Number(ans));
    }
  }

  lemma {:induction false} ExpressionTailBuilt<F>(m: Float64<F>, ans: F, ts: seq<Token>, p: nat, acc: Expr<F>)
    requires p <= |ts| && Built(acc, ts)
    ensures var r := ExpressionTail(m, ans, ts, p, acc); r.Parsed? ==> Built(r.expr, ts)
    decreases |ts| - p, 1
  {
    if IsAdditive(Peek(ts, p).kind) {
      MulDivBuilt(m, ans, ts, p + 1);
      var right := ParseMulDiv(m, ans, ts, p + 1);
      if right.Parsed? {
        ExpressionTailBuilt(m, ans, ts, right.next, BinaryOp(ts[p].kind, acc, right.expr));
      }
    }
  }

  lemma {:induction false} MulDivBuilt<F>(m: Float64<F>, ans: F, ts: seq<Token>, p: nat)
    requires p <= |ts|
    ensures var r := ParseMulDiv(m, ans, ts, p); r.Parsed? ==> Built(r.expr, ts)
    decreases |ts| - p, 2
  {
    if !IsMultiplicative(Peek(ts, p).kind) {
      PrimitiveBuilt(m, ans, ts, p);
      var left := ParsePrimitive(m, ans, ts, p);
      if left.Parsed? {
        MulDivTailBuilt(m, ans, ts, left.next, left.expr);
      }
    } else {
      MulDivTailBuilt(m, ans, ts, p, Number(ans));
    }
  }

  lemma {:induction false} MulDivTailBuilt<F>(m: Float64<F>, ans: F, ts: seq<Token>, p: nat, acc: Expr<F>)
    requires p <= |ts| && Built(acc, ts)
    ensures var r := MulDivTail(m, ans, ts, p, acc); r.Parsed? ==> Built(r.expr, ts)
    decreases |ts| - p, 1
  {
    if IsMultiplicative(Peek(ts, p).kind) {
      PrimitiveBuilt(m, ans, ts, p + 1);
      var right := ParsePrimitive(m, ans, ts, p + 1);
      if right.Parsed? {
        MulDivTailBuilt(m, ans, ts, right.next, BinaryOp(ts[p].kind, acc, right.expr));
      }
    }
  }

  lemma {:induction false} PrimitiveBuilt<F>(m: Float64<F>, ans: F, ts: seq<Token>, p: nat)
    requires p <= |ts|
    ensures var r := ParsePrimitive(m, ans, ts, p); r.Parsed? ==> Built(r.expr, ts)
    decreases |ts| - p, 1
  {
    var k := Peek(ts, p).kind;
    if k == IDENTIFIER {
      CallBuilt(m, ans, ts, p);
    } else if k == LPAREN {
      ExpressionBuilt(m, ans, ts, p + 1);
    }
  }

  lemma {:induction false} CallBuilt<F>(m: Float64<F>, ans: F, ts: seq<Token>, p: nat)
    requires p < |ts| && ts[p].kind == IDENTIFIER
    ensures var r := ParseCall(m, ans, ts, p); r.Parsed? ==> Built(r.expr, ts)
    decreases |ts| - p, 0
  {
    var name := ts[p].value;
    assert Token(IDENTIFIER, name) in ts by {
      assert ts[p] == Token(IDENTIFIER, name);
    }
    if Peek(ts, p + 1).kind == LPAREN && Peek(ts, p + 2).kind != RPAREN {
      ArgsBuilt(m, ans, ts, p + 2, name, []);
    }
  }

  lemma {:induction false} ArgsBuilt<F>(m: Float64<F>, ans: F, ts: seq<Token>, p: nat, name: seq<Byte>, acc: seq<Expr<F>>)
    requires p <= |ts| && Token(IDENTIFIER, name) in ts
    requires forall i | 0 <= i < |acc| :: Built(acc[i], ts)
    ensures var r := ParseArgs(m, ans, ts, p, name, acc); r.Parsed? ==> Built(r.expr, ts)
    decreases |ts| - p, 4
  {
    ExpressionBuilt(m, ans, ts, p);
    var arg := ParseExpression(m, ans, ts, p);
    if arg.Parsed? {
      var more := acc + [arg.expr];
      assert forall i | 0 <= i < |more| :: Built(more[i], ts) by {
        forall i | 0 <= i < |more|
          ensures Built(more[i], ts)
        {
          if i < |acc| {
            assert more[i] == acc[i];
          }
        }
      }
      if Peek(ts, arg.next).kind == COMMA {
        ArgsBuilt(m, ans, ts, arg.next + 1, name, more);
      }
    }
  }

  /** The result of a method of Parser agrees with the function that
      specifies it: the same tree and the parser left at its `next`, or
      the same error. */
  ghost predicate Agrees<F>(spec: ParseResult<F>, r: Result<Expr<F>, ParseError>, pos: nat) {
    match spec
    case Parsed(e, q) => r == Ok(e) && pos == q
    case Failed(err) => r == Err(err)
  }

  // ---------------------------------------------------------------------
  // The parser object

  /** Parser (parser.go:17-20). The channel becomes the sequence of the
      tokens it delivers and NextToken the token at position pos. */
  class Parser<F> {
    const tokens: seq<Token>
    const m: Float64<F>
    const lastAnswer: F
    var pos: nat

    ghost predicate Valid()
      reads this
    {
      pos <= |tokens|
    }

    /** NewParser (parser.go:31-36): the first token is the lookahead. */
    constructor (ts: seq<Token>, m: Float64<F>, lastAnswer: F)
      ensures Valid() && tokens == ts && pos == 0
      ensures this.m == m && this.lastAnswer == lastAnswer
    {
      tokens := ts;
      this.m := m;
      this.lastAnswer := lastAnswer;
      pos := 0;
    }

    /** The field NextToken. */
    function NextToken(): Token
      reads this
      requires Valid()
    {
      Peek(tokens, pos)
    }

    /** Eat (parser.go:22-29). */
    method Eat(expected: Kind) returns (t: Token, err: Option<ParseError>)
      requires Valid()
      modifies this
      ensures Valid()
      ensures old(NextToken()).kind == expected ==>
        t == old(NextToken()) && err == None
        && pos == (if old(pos) < |tokens| then old(pos) + 1 else old(pos))
      ensures old(NextToken()).kind != expected ==>
        t == Token(NoToken, []) && err == Some(UnexpectedToken(old(NextToken()).kind)) && pos == old(pos)
    {
      if NextToken().kind == expected {
        t := NextToken();
        if pos < |tokens| {
          pos := pos + 1;
        }
        err := None;
      } else {
        t := Token(NoToken, []);
        err := Some(UnexpectedToken(NextToken().kind));
      }
    }

    method Expression() returns (r: Result<Expr<F>, ParseError>)
      requires Valid()
      modifies this
      ensures Valid() && old(pos) <= pos
      ensures Agrees(ParseExpression(m, lastAnswer, tokens, old(pos)), r, pos)
      decreases |tokens| - pos, 4
    {
      ghost var p0 := pos;
      var ret: Expr<F>;
      if IsAdditive(NextToken().kind) {
        ret := Number(lastAnswer);
      } else {
        var left := MulDiv();
        if left.Err? {
          return Err(left.error);
        }
        ret := left.value;
      }
      while IsAdditive(NextToken().kind)
        invariant Valid() && p0 <= pos
        invariant ExpressionTail(m, lastAnswer, tokens, pos, ret) == ParseExpression(m, lastAnswer, tokens, p0)
        decreases |tokens| - pos
      {
        var op := NextToken().kind;
        var _, _ := Eat(op);
        var right := MulDiv();
        if right.Err? {
          return Err(right.error);
        }
        ret := BinaryOp(op, ret, right.value);
      }
      return Ok(ret);
    }

    method MulDiv() returns (r: Result<Expr<F>, ParseError>)
      requires Valid()
      modifies this
      ensures Valid() && old(pos) <= pos
      ensures Agrees(ParseMulDiv(m, lastAnswer, tokens, old(pos)), r, pos)
      decreases |tokens| - pos, 3
    {
      ghost var p0 := pos;
      var ret: Expr<F>;
      if IsMultiplicative(NextToken().kind) {
        ret := Number(lastAnswer);
      } else {
        var left := Primitive();
        if left.Err? {
          return Err(left.error);
        }
        ret := left.value;
      }
      while IsMultiplicative(NextToken().kind)
        invariant Valid() && p0 <= pos
        invariant MulDivTail(m, lastAnswer, tokens, pos, ret) == ParseMulDiv(m, lastAnswer, tokens, p0)
        decreases |tokens| - pos
      {
        var op := NextToken().kind;
        var _, _ := Eat(op);
        var right := Primitive();
        if right.Err? {
          return Err(right.error);
        }
        ret := BinaryOp(op, ret, right.value);
      }
      return Ok(ret);
    }

    method Primitive() returns (r: Result<Expr<F>, ParseError>)
      requires Valid()
      modifies this
      ensures Valid() && old(pos) <= pos
      ensures Agrees(ParsePrimitive(m, lastAnswer, tokens, old(pos)), r, pos)
      decreases |tokens| - pos, 2
    {
      var k := NextToken().kind;
      if k == NUM {
        var num, _ := Eat(NUM);
        var v := m.parseFloat(num.value);
        if v.None? {
          return Err(BadNumber(num.value));
        }
        return Ok(Number(v.value));
      } else if k == IDENTIFIER {
        r := FunctionCall();
      } else if k == LPAREN {
        var _, _ := Eat(LPAREN);
        var e := Expression();
        if e.Err? {
          return Err(e.error);
        }
        var _, _ := Eat(RPAREN);
        return Ok(e.value);
      } else if k == ANS {
        var _, _ := Eat(ANS);
        return Ok(Number(lastAnswer));
      } else if k == CLEAR {
        return Err(ClearSignal);
      } else if k == EXIT {
        return Err(ExitSignal);
      } else if k == PI {
        var _, _ := Eat(PI);
        return Ok(Number(m.pi));
      } else if k == E {
        var _, _ := Eat(E);
        return Ok(Number(m.e));
      } else {
        return Err(UnexpectedToken(k));
      }
    }

    /** The IDENTIFIER branch of parsePrimitive (parser.go:118-146). */
    method FunctionCall() returns (r: Result<Expr<F>, ParseError>)
      requires Valid() && NextToken().kind == IDENTIFIER
      modifies this
      ensures Valid() && old(pos) <= pos
      ensures Agrees(ParseCall(m, lastAnswer, tokens, old(pos)), r, pos)
      decreases |tokens| - pos, 1
    {
      ghost var p0 := pos;
      var identifier, _ := Eat(IDENTIFIER);
      var _, err := Eat(LPAREN);
      if err.Some? {
        return Err(err.value);
      }
      CallOpens(m, lastAnswer, tokens, p0);
      var call: Result<Expr<F>, ParseError>;
      if NextToken().kind == RPAREN {
        call := Ok(Call(identifier.value, []));
      } else {
        call := Arguments(identifier.value);
        if call.Err? {
          return call;
        }
      }
      var _, err2 := Eat(RPAREN);
      if err2.Some? && NextToken().kind != EOF {
        return Err(err2.value);
      }
      return call;
    }

    /** The argument loop of the IDENTIFIER branch (parser.go:126-140):
        expressions separated by COMMA, gathered in order. */
    method Arguments(name: seq<Byte>) returns (r: Result<Expr<F>, ParseError>)
      requires Valid()
      modifies this
      ensures Valid() && old(pos) <= pos
      ensures Agrees(ParseArgs(m, lastAnswer, tokens, old(pos), name, []), r, pos)
      decreases |tokens| - pos, 5
    {
      ghost var start := pos;
      var args: seq<Expr<F>> := [];
      while true
        invariant Valid() && start <= pos
        invariant ParseArgs(m, lastAnswer, tokens, pos, name, args) == ParseArgs(m, lastAnswer, tokens, start, name, [])
        decreases |tokens| - pos
      {
        ghost var before := pos;
        var arg := Expression();
        ArgsNext(m, lastAnswer, tokens, before, name, args, ParseExpression(m, lastAnswer, tokens, before));
        if arg.Err? {
          return Err(arg.error);
        }
        args := args + [arg.value];
        if NextToken().kind == COMMA {
          var _, _ := Eat(COMMA);
        } else {
          return Ok(Call(name, args));
        }
      }
    }
  }
}
