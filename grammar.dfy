/** The grammar the parser of parser.go recognises, seen from the other
    side: a printer that writes any arithmetic tree as tokens with as few
    parentheses as the precedence and left-associativity of the parser
    allow, and the theorem that parsing the printed tokens gives back the
    very same tree. Because the printer leaves out every parenthesis the
    grammar does not need, the theorem says at once that `*` and `/` bind
    tighter than `+` and `-`, that both tiers fold to the left, and that
    function arguments are kept in order. */
module Grammar {
  import opened Wrappers
  import opened Tokenizer
  import opened Numerics
  import opened Ast
  import opened Parsing

  /** A tree the printer can write: every operator is one of the four
      the parser builds, and every number is written by `lit` as a text
      that strconv.ParseFloat reads back as the same number. */
  ghost predicate Printable<F>(m: Float64<F>, lit: F -> seq<Byte>, e: Expr<F>)
    decreases e
  {
    match e
    case Number(v) => m.parseFloat(lit(v)) == Some(v)
    case BinaryOp(op, l, r) =>
      (IsAdditive(op) || IsMultiplicative(op)) && Printable(m, lit, l) && Printable(m, lit, r)
    case Call(_, args) => forall i | 0 <= i < |args| :: Printable(m, lit, args[i])
  }

  /** The tier an operator belongs to: 0 for `+ -`, 1 for `* /`. */
  function Tier(op: Kind): nat {
    if IsAdditive(op) then 0 else 1
  }

  /** e written at `level`: 0 where an Expression is expected, 1 where a
      parseMulDiv is, 2 where a parsePrimitive is. An operator is
      parenthesised only when its tier is below the level; its left
      operand is written at its own tier and its right operand one tier
      higher, which is what a left fold reads back. */
  function Print<F>(lit: F -> seq<Byte>, e: Expr<F>, level: nat): (u: seq<Token>)
    decreases e
  {
    match e
    case Number(v) => [Token(NUM, lit(v))]
    case Call(name, args) =>
      [Token(IDENTIFIER, name), Token(LPAREN, [])] + PrintArgs(lit, args) + [Token(RPAREN, [])]
    case BinaryOp(op, l, r) =>
      var inner := Print(lit, l, Tier(op)) + [Token(op, [])] + Print(lit, r, Tier(op) + 1);
      if level <= Tier(op) then inner else [Token(LPAREN, [])] + inner + [Token(RPAREN, [])]
  }

  /** Arguments, each written where an Expression is expected, separated
      by COMMA tokens. */
  function PrintArgs<F>(lit: F -> seq<Byte>, args: seq<Expr<F>>): seq<Token>
    decreases args
  {
    if |args| == 0 then []
    else if |args| == 1 then Print(lit, args[0], 0)
    else Print(lit, args[0], 0) + [Token(COMMA, [])] + PrintArgs(lit, args[1..])
  }

  /** u sits in ts from position p on. */
  predicate Occurs(ts: seq<Token>, p: nat, u: seq<Token>) {
    p + |u| <= |ts| && Matches(ts, p, u)
  }

  /** Token by token: the tokens of u are those of ts from p on. */
  predicate Matches(ts: seq<Token>, p: nat, u: seq<Token>)
    decreases u
  {
    |u| == 0 || (p < |ts| && ts[p] == u[0] && Matches(ts, p + 1, u[1..]))
  }

  lemma {:induction false} OccursSlice(ts: seq<Token>, p: nat, u: seq<Token>)
    requires p + |u| <= |ts| && ts[p..p + |u|] == u
    ensures Occurs(ts, p, u)
    decreases u
  {
    if |u| > 0 {
      assert ts[p] == ts[p..p + |u|][0];
      assert ts[p + 1..p + 1 + |u[1..]|] == ts[p..p + |u|][1..];
      OccursSlice(ts, p + 1, u[1..]);
    }
  }

  lemma {:induction false} OccursSplit(ts: seq<Token>, p: nat, a: seq<Token>, b: seq<Token>)
    requires Occurs(ts, p, a + b)
    ensures Occurs(ts, p, a) && Occurs(ts, p + |a|, b)
    decreases a
  {
    if |a| == 0 {
      assert a + b == b;
    } else {
      assert (a + b)[0] == a[0];
      assert (a + b)[1..] == a[1..] + b;
      OccursSplit(ts, p + 1, a[1..], b);
    }
  }

  lemma {:induction false} OccursAt(ts: seq<Token>, p: nat, u: seq<Token>, i: nat)
    requires Occurs(ts, p, u) && i < |u|
    ensures p + i < |ts| && ts[p + i] == u[i] && Peek(ts, p + i) == u[i]
    decreases i
  {
    if i > 0 {
      OccursAt(ts, p + 1, u[1..], i - 1);
    }
  }

  /** Where the parts of an operator written at or below its own tier
      lie: the left operand from p, the operator at q, the right operand
      from q + 1 to the end. */
  lemma OperatorLayout<F>(m: Float64<F>, lit: F -> seq<Byte>, ts: seq<Token>, p: nat, e: Expr<F>, level: nat, tier: nat)
      returns (q: nat)
    requires e.BinaryOp? && tier == Tier(e.op) && level <= tier
    requires Printable(m, lit, e) && Occurs(ts, p, Print(lit, e, level))
    ensures Printable(m, lit, e.left) && Printable(m, lit, e.right)
    ensures q == p + |Print(lit, e.left, tier)| && q < |ts|
    ensures Occurs(ts, p, Print(lit, e.left, tier))
    ensures ts[q].kind == e.op
    ensures Occurs(ts, q + 1, Print(lit, e.right, tier + 1))
    ensures p + |Print(lit, e, level)| == q + 1 + |Print(lit, e.right, tier + 1)|
  {
    var left, op, right := Print(lit, e.left, tier), [Token(e.op, [])], Print(lit, e.right, tier + 1);
    assert Print(lit, e, level) == left + op + right;
    OccursSplit(ts, p, left + op, right);
    OccursSplit(ts, p, left, op);
    q := p + |left|;
    OccursAt(ts, q, op, 0);
  }

  /** Every printed form starts with a NUM, an IDENTIFIER or a LPAREN, so
      it never starts with an operator, a COMMA or a RPAREN. */
  lemma {:induction false} PrintStart<F>(lit: F -> seq<Byte>, e: Expr<F>, level: nat)
    ensures |Print(lit, e, level)| > 0
    ensures Print(lit, e, level)[0].kind in {NUM, IDENTIFIER, LPAREN}
    decreases e
  {
    match e
    case Number(_) =>
    case Call(_, _) =>
    case BinaryOp(op, l, r) =>
      if level <= Tier(op) {
        PrintStart(lit, l, Tier(op));
      }
  }

  /** A tree that is not an operator of this level's own tier prints the
      same at this level as at the next, and its text starts with no
      operator. */
  lemma LevelStart<F>(lit: F -> seq<Byte>, ts: seq<Token>, p: nat, e: Expr<F>, level: nat)
    requires level < 2 && !(e.BinaryOp? && Tier(e.op) == level)
    requires Occurs(ts, p, Print(lit, e, level))
    ensures Print(lit, e, level) == Print(lit, e, level + 1)
    ensures p < |ts| && !IsAdditive(Peek(ts, p).kind) && !IsMultiplicative(Peek(ts, p).kind)
  {
    PrintStart(lit, e, level);
    OccursAt(ts, p, Print(lit, e, level), 0);
  }

  // ---------------------------------------------------------------------
  // Parsing a printed tree. The four lemmas are one induction over the
  // tree; the second component of `decreases` orders the lemmas that
  // call each other on the same tree.

  /** parsePrimitive reads a tree written at level 2 back in full. */
  lemma {:induction false} PrimitiveReadsBack<F>(m: Float64<F>, ans: F, lit: F -> seq<Byte>, ts: seq<Token>, p: nat, e: Expr<F>)
    requires Printable(m, lit, e) && Occurs(ts, p, Print(lit, e, 2))
    ensures ParsePrimitive(m, ans, ts, p) == Parsed(e, p + |Print(lit, e, 2)|)
    decreases e, 5, 0
  {
    match e
    case Number(v) =>
      OccursAt(ts, p, Print(lit, e, 2), 0);
    case BinaryOp(_, _, _) =>
      GroupReadsBack(m, ans, lit, ts, p, e);
    case Call(_, _) =>
      CallReadsBack(m, ans, lit, ts, p, e);
  }

  /** An operator written in parentheses: `( Expression )`. */
  lemma {:induction false} GroupReadsBack<F>(m: Float64<F>, ans: F, lit: F -> seq<Byte>, ts: seq<Token>, p: nat, e: Expr<F>)
    requires e.BinaryOp? && Printable(m, lit, e) && Occurs(ts, p, Print(lit, e, 2))
    ensures p < |ts| && ts[p].kind == LPAREN
    ensures ParseGroup(m, ans, ts, p) == Parsed(e, p + |Print(lit, e, 2)|)
    decreases e, 4, 0
  {
    var q := GroupLayout(lit, ts, p, e);
    ExpressionReadsBack(m, ans, lit, ts, p + 1, e);
    GroupJoin(m, ans, ts, p, e, q);
  }

  /** Where the parts of a parenthesised operator lie: LPAREN at p, the
      operator written at level 0 from p + 1, RPAREN at q. */
  lemma GroupLayout<F>(lit: F -> seq<Byte>, ts: seq<Token>, p: nat, e: Expr<F>) returns (q: nat)
    requires e.BinaryOp? && Occurs(ts, p, Print(lit, e, 2))
    ensures p < q < |ts| && ts[p].kind == LPAREN && ts[q].kind == RPAREN
    ensures Occurs(ts, p + 1, Print(lit, e, 0)) && q == p + 1 + |Print(lit, e, 0)|
    ensures p + |Print(lit, e, 2)| == q + 1
  {
    var inner := Print(lit, e, 0);
    var open, close := [Token(LPAREN, [])], [Token(RPAREN, [])];
    assert Print(lit, e, 2) == open + inner + close;
    OccursSplit(ts, p, open + inner, close);
    OccursSplit(ts, p, open, inner);
    OccursAt(ts, p, open, 0);
    q := p + 1 + |inner|;
    OccursAt(ts, q, close, 0);
  }

  /** A function call: `IDENTIFIER ( arguments )`. */
  lemma {:induction false} CallReadsBack<F>(m: Float64<F>, ans: F, lit: F -> seq<Byte>, ts: seq<Token>, p: nat, e: Expr<F>)
    requires e.Call? && Printable(m, lit, e) && Occurs(ts, p, Print(lit, e, 2))
    ensures p < |ts| && ts[p].kind == IDENTIFIER
    ensures ParseCall(m, ans, ts, p) == Parsed(e, p + |Print(lit, e, 2)|)
    decreases e, 1, 0
  {
    var q := CallLayout(lit, ts, p, e);
    if |e.args| == 0 {
      CallWithoutArguments(m, ans, ts, p);
    } else {
      ArgumentsReadBack(m, ans, lit, ts, p + 2, q, e.name, [], e.args);
      assert [] + e.args == e.args;
      CallWithArguments(m, ans, ts, p, e, q);
    }
  }

  /** Where the parts of a call lie: its name at p, LPAREN at p + 1, the
      arguments from p + 2, RPAREN at q. */
  lemma CallLayout<F>(lit: F -> seq<Byte>, ts: seq<Token>, p: nat, e: Expr<F>) returns (q: nat)
    requires e.Call? && Occurs(ts, p, Print(lit, e, 2))
    ensures p + 1 < q < |ts| && ts[p] == Token(IDENTIFIER, e.name) && ts[p + 1].kind == LPAREN && ts[q].kind == RPAREN
    ensures Occurs(ts, p + 2, PrintArgs(lit, e.args)) && q == p + 2 + |PrintArgs(lit, e.args)|
    ensures p + |Print(lit, e, 2)| == q + 1
    ensures |e.args| > 0 ==> ts[p + 2].kind != RPAREN
  {
    var list := PrintArgs(lit, e.args);
    var head, close := [Token(IDENTIFIER, e.name), Token(LPAREN, [])], [Token(RPAREN, [])];
    assert Print(lit, e, 2) == head + list + close;
    OccursSplit(ts, p, head + list, close);
    OccursSplit(ts, p, head, list);
    OccursAt(ts, p, head, 0);
    OccursAt(ts, p, head, 1);
    q := p + 2 + |list|;
    OccursAt(ts, q, close, 0);
    if |e.args| > 0 {
      PrintArgsStart(lit, e.args);
      OccursAt(ts, p + 2, list, 0);
    }
  }

  lemma PrintArgsStart<F>(lit: F -> seq<Byte>, args: seq<Expr<F>>)
    requires |args| > 0
    ensures |PrintArgs(lit, args)| > 0 && PrintArgs(lit, args)[0].kind != RPAREN
  {
    PrintStart(lit, args[0], 0);
  }

  /** parseMulDiv reads a tree written at level 1 and then carries on
      exactly as its loop would with that tree as the left operand. */
  lemma {:induction false} MulDivReadsBack<F>(m: Float64<F>, ans: F, lit: F -> seq<Byte>, ts: seq<Token>, p: nat, e: Expr<F>)
    requires Printable(m, lit, e) && Occurs(ts, p, Print(lit, e, 1))
    ensures MulDivReaches(m, ans, ts, p, p + |Print(lit, e, 1)|, e)
    decreases e, if e.BinaryOp? && IsMultiplicative(e.op) then 2 else 6, 0
  {
    if e.BinaryOp? && IsMultiplicative(e.op) {
      ProductReadsBack(m, ans, lit, ts, p, e);
    } else {
      LevelStart(lit, ts, p, e, 1);
      PrimitiveReadsBack(m, ans, lit, ts, p, e);
      MulDivStart(m, ans, ts, p, e, p + |Print(lit, e, 1)|);
    }
  }

  /** A product or quotient at level 1: its left operand is read by the
      same parseMulDiv, its right operand by the parsePrimitive of the
      loop. */
  lemma {:induction false} ProductReadsBack<F>(m: Float64<F>, ans: F, lit: F -> seq<Byte>, ts: seq<Token>, p: nat, e: Expr<F>)
    requires e.BinaryOp? && IsMultiplicative(e.op)
    requires Printable(m, lit, e) && Occurs(ts, p, Print(lit, e, 1))
    ensures MulDivReaches(m, ans, ts, p, p + |Print(lit, e, 1)|, e)
    decreases e, 1, 0
  {
    var q := OperatorLayout(m, lit, ts, p, e, 1, 1);
    ProductPartsReadBack(m, ans, lit, ts, p, q, p + |Print(lit, e, 1)|, e);
  }

  /** The same, given where the operator of the product lies. */
  lemma {:induction false} ProductPartsReadBack<F>(m: Float64<F>, ans: F, lit: F -> seq<Byte>, ts: seq<Token>, p: nat, q: nat, end: nat, e: Expr<F>)
    requires e.BinaryOp? && IsMultiplicative(e.op)
    requires Printable(m, lit, e.left) && Occurs(ts, p, Print(lit, e.left, 1))
    requires Printable(m, lit, e.right) && Occurs(ts, q + 1, Print(lit, e.right, 2))
    requires q < |ts| && ts[q].kind == e.op && q == p + |Print(lit, e.left, 1)|
    requires end == q + 1 + |Print(lit, e.right, 2)|
    ensures MulDivReaches(m, ans, ts, p, end, e)
    decreases e, 0, 0
  {
    MulDivReadsBack(m, ans, lit, ts, p, e.left);
    PrimitiveReadsBack(m, ans, lit, ts, q + 1, e.right);
    MulDivJoin(m, ans, ts, p, q, e, end);
  }

  /** Expression reads a tree written at level 0, provided the token after
      it is not one that would extend its last product, and then carries
      on exactly as its loop would with that tree as the left operand. */
  lemma {:induction false} ExpressionReadsBack<F>(m: Float64<F>, ans: F, lit: F -> seq<Byte>, ts: seq<Token>, p: nat, e: Expr<F>)
    requires Printable(m, lit, e) && Occurs(ts, p, Print(lit, e, 0))
    requires !IsMultiplicative(Peek(ts, p + |Print(lit, e, 0)|).kind)
    ensures ExpressionReaches(m, ans, ts, p, p + |Print(lit, e, 0)|, e)
    decreases e, if e.BinaryOp? then 3 else 7, 0
  {
    if e.BinaryOp? && IsAdditive(e.op) {
      SumReadsBack(m, ans, lit, ts, p, e);
    } else {
      LevelStart(lit, ts, p, e, 0);
      MulDivReadsBack(m, ans, lit, ts, p, e);
      ExpressionStart(m, ans, ts, p, e, p + |Print(lit, e, 0)|);
    }
  }

  /** A sum or difference at level 0: its left operand is read by the same
      Expression, its right operand by the parseMulDiv of the loop. */
  lemma {:induction false} SumReadsBack<F>(m: Float64<F>, ans: F, lit: F -> seq<Byte>, ts: seq<Token>, p: nat, e: Expr<F>)
    requires e.BinaryOp? && IsAdditive(e.op)
    requires Printable(m, lit, e) && Occurs(ts, p, Print(lit, e, 0))
    requires !IsMultiplicative(Peek(ts, p + |Print(lit, e, 0)|).kind)
    ensures ExpressionReaches(m, ans, ts, p, p + |Print(lit, e, 0)|, e)
    decreases e, 1, 0
  {
    var q := OperatorLayout(m, lit, ts, p, e, 0, 0);
    SumPartsReadBack(m, ans, lit, ts, p, q, p + |Print(lit, e, 0)|, e);
  }

  /** The same, given where the operator of the sum lies. */
  lemma {:induction false} SumPartsReadBack<F>(m: Float64<F>, ans: F, lit: F -> seq<Byte>, ts: seq<Token>, p: nat, q: nat, end: nat, e: Expr<F>)
    requires e.BinaryOp? && IsAdditive(e.op)
    requires Printable(m, lit, e.left) && Occurs(ts, p, Print(lit, e.left, 0))
    requires Printable(m, lit, e.right) && Occurs(ts, q + 1, Print(lit, e.right, 1))
    requires q < |ts| && ts[q].kind == e.op && q == p + |Print(lit, e.left, 0)|
    requires end == q + 1 + |Print(lit, e.right, 1)| && !IsMultiplicative(Peek(ts, end).kind)
    ensures ExpressionReaches(m, ans, ts, p, end, e)
    decreases e, 0, 0
  {
    ExpressionReadsBack(m, ans, lit, ts, p, e.left);
    MulDivReadsBack(m, ans, lit, ts, q + 1, e.right);
    ExpressionJoin(m, ans, ts, p, q, e, end);
  }

  /** The argument loop reads the printed arguments `rest` of a call,
      after the arguments `done` have been read into the list, and stops
      at the end of them. */
  lemma {:induction false} ArgumentsReadBack<F>(m: Float64<F>, ans: F, lit: F -> seq<Byte>, ts: seq<Token>, p: nat, end: nat,
                                                name: seq<Byte>, done: seq<Expr<F>>, rest: seq<Expr<F>>)
    requires |rest| > 0 && forall i | 0 <= i < |rest| :: Printable(m, lit, rest[i])
    requires Occurs(ts, p, PrintArgs(lit, rest)) && end == p + |PrintArgs(lit, rest)| && Peek(ts, end).kind == RPAREN
    ensures ParseArgs(m, ans, ts, p, name, done) == Parsed(Call(name, done + rest), end)
    decreases rest, 1, 0
  {
    if |rest| > 1 {
      MoreArgumentsReadBack(m, ans, lit, ts, p, end, name, done, rest);
    } else {
      assert PrintArgs(lit, rest) == Print(lit, rest[0], 0);
      ExpressionReadsBack(m, ans, lit, ts, p, rest[0]);
      LastArgument(m, ans, ts, p, end, name, done, rest);
    }
  }

  /** Once the only remaining argument is read up to a RPAREN, the loop
      returns the call. */
  lemma LastArgument<F>(m: Float64<F>, ans: F, ts: seq<Token>, p: nat, end: nat,
                        name: seq<Byte>, done: seq<Expr<F>>, rest: seq<Expr<F>>)
    requires |rest| == 1 && end <= |ts| && Peek(ts, end).kind == RPAREN
    ensures ExpressionReaches(m, ans, ts, p, end, rest[0]) ==>
      ParseArgs(m, ans, ts, p, name, done) == Parsed(Call(name, done + rest), end)
  {
    ArgsStep(m, ans, ts, p, name, done, rest[0], end);
    assert done + [rest[0]] == done + rest;
  }

  /** Where the parts of two or more printed arguments lie: the first
      from p, its COMMA at q, the others from q + 1 to the end. */
  lemma ArgumentLayout<F>(lit: F -> seq<Byte>, ts: seq<Token>, p: nat, rest: seq<Expr<F>>) returns (q: nat)
    requires |rest| > 1 && Occurs(ts, p, PrintArgs(lit, rest))
    ensures q == p + |Print(lit, rest[0], 0)| && q < |ts|
    ensures Occurs(ts, p, Print(lit, rest[0], 0))
    ensures ts[q] == Token(COMMA, [])
    ensures Occurs(ts, q + 1, PrintArgs(lit, rest[1..]))
    ensures p + |PrintArgs(lit, rest)| == q + 1 + |PrintArgs(lit, rest[1..])|
  {
    var arg, comma, tail := Print(lit, rest[0], 0), [Token(COMMA, [])], PrintArgs(lit, rest[1..]);
    assert PrintArgs(lit, rest) == arg + comma + tail;
    OccursSplit(ts, p, arg + comma, tail);
    OccursSplit(ts, p, arg, comma);
    q := p + |arg|;
    OccursAt(ts, q, comma, 0);
  }

  /** The first of two or more arguments is read, its COMMA taken, and
      the loop goes on with the others. */
  lemma {:induction false} MoreArgumentsReadBack<F>(m: Float64<F>, ans: F, lit: F -> seq<Byte>, ts: seq<Token>, p: nat, end: nat,
                                                    name: seq<Byte>, done: seq<Expr<F>>, rest: seq<Expr<F>>)
    requires |rest| > 1 && forall i | 0 <= i < |rest| :: Printable(m, lit, rest[i])
    requires Occurs(ts, p, PrintArgs(lit, rest)) && end == p + |PrintArgs(lit, rest)| && Peek(ts, end).kind == RPAREN
    ensures ParseArgs(m, ans, ts, p, name, done) == Parsed(Call(name, done + rest), end)
    decreases rest, 0, 0
  {
    var q := ArgumentLayout(lit, ts, p, rest);
    ExpressionReadsBack(m, ans, lit, ts, p, rest[0]);
    ArgsStep(m, ans, ts, p, name, done, rest[0], q);
    ArgumentsReadBack(m, ans, lit, ts, q + 1, end, name, done + [rest[0]], rest[1..]);
    MoveFirst(done, rest);
  }

  lemma MoveFirst<T>(done: seq<T>, rest: seq<T>)
    requires |rest| > 0
    ensures done + [rest[0]] + rest[1..] == done + rest
  {
    assert [rest[0]] + rest[1..] == rest;
  }

  /** Printing then parsing is the identity: the tokens of any printable
      tree, followed by EOF, parse back to that tree, and the whole line
      is consumed up to the EOF. Whatever the last answer is. */
  lemma ParsePrintRoundTrip<F>(m: Float64<F>, ans: F, lit: F -> seq<Byte>, e: Expr<F>)
    requires Printable(m, lit, e)
    ensures var ts := Print(lit, e, 0) + [Token(EOF, [])];
      ParseExpression(m, ans, ts, 0) == Parsed(e, |ts| - 1)
  {
    var u := Print(lit, e, 0);
    var ts := u + [Token(EOF, [])];
    AtEndOfInput(u);
    LineReadsBack(m, ans, lit, ts, e);
  }

  /** A tree written at level 0 from the start of a line and followed by
      EOF is what parseExpression returns for the line. */
  lemma LineReadsBack<F>(m: Float64<F>, ans: F, lit: F -> seq<Byte>, ts: seq<Token>, e: Expr<F>)
    requires Printable(m, lit, e) && Occurs(ts, 0, Print(lit, e, 0))
    requires Peek(ts, |Print(lit, e, 0)|).kind == EOF
    ensures ParseExpression(m, ans, ts, 0) == Parsed(e, |Print(lit, e, 0)|)
  {
    ExpressionReadsBack(m, ans, lit, ts, 0, e);
    ExpressionEnds(m, ans, ts, |Print(lit, e, 0)|, e);
  }

  /** An Expression that reaches EOF ends there. */
  lemma ExpressionEnds<F>(m: Float64<F>, ans: F, ts: seq<Token>, end: nat, e: Expr<F>)
    requires end <= |ts| && Peek(ts, end).kind == EOF
    ensures ExpressionReaches(m, ans, ts, 0, end, e) ==> ParseExpression(m, ans, ts, 0) == Parsed(e, end)
  {
    TailStops(m, ans, ts, end, e);
  }

  /** A line's tokens are followed by EOF. */
  lemma AtEndOfInput(u: seq<Token>)
    ensures Occurs(u + [Token(EOF, [])], 0, u)
    ensures Peek(u + [Token(EOF, [])], |u|) == Token(EOF, [])
  {
    var ts := u + [Token(EOF, [])];
    assert ts[0..|u|] == u;
    OccursSlice(ts, 0, u);
  }
}
