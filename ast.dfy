/** The syntax tree of ast.go and its evaluation: the three node kinds,
    the function table with each entry's arity and evaluation order, and
    the errors evaluation can report. Evaluation is a pure recursive walk,
    so it is a function; a Go `(float64, error)` pair is an Evaluation. */
module Ast {
  import opened Wrappers
  import opened Tokenizer
  import opened Numerics

  /** Expr and its three implementations NumberNode, BinaryOpNode and
      FunctionNode (ast.go:8-16, 171-174, 188). BinaryOpNode keeps the
      TokenType of its operator, as in the source. */
  datatype Expr<F> =
    | Number(value: F)
    | BinaryOp(op: Kind, left: Expr<F>, right: Expr<F>)
    | Call(name: seq<Byte>, args: seq<Expr<F>>)

  /** The entries of FunctionTable (ast.go:49-169). */
  datatype Builtin = Sqrt | Abs | Pow | Cos | Sin | Tan | Acos | Asin | Atan | Max | Min

  const FunctionTable: map<seq<Byte>, Builtin> := map[
    "sqrt" := Sqrt, "abs" := Abs, "pow" := Pow,
    "cos" := Cos, "sin" := Sin, "tan" := Tan,
    "acos" := Acos, "asin" := Asin, "atan" := Atan,
    "max" := Max, "min" := Min
  ]

  /** The argument count each entry checks for before evaluating anything. */
  function Arity(f: Builtin): nat {
    match f
    case Pow => 2
    case Max => 2
    case Min => 2
    case _ => 1
  }

  /** Evaluation errors: ArgumentError (ast.go:41-45), naming the function
      and the arity it wants, and the unknown-function error of ast.go:185. */
  datatype EvalError =
    | ArgumentError(fn: seq<Byte>, arity: nat)
    | UnknownFunction(name: seq<Byte>)

  /** The text each error prints as; both name the function at fault. */
  function Message(err: EvalError): (text: string)
    ensures err.ArgumentError? ==> |err.fn| < |text| && text[..|err.fn|] == err.fn
    ensures err.UnknownFunction? ==> 9 + |err.name| < |text| && text[9..9 + |err.name|] == err.name
  {
    match err
    case ArgumentError(fn, arity) =>
      fn + (if arity == 1 then " takes one argument" else " takes two arguments")
    case UnknownFunction(name) => "function " + name + " does not exist"
  }

  /** What every Eval returns: a value, and an error when it failed. */
  datatype Evaluation<F> = Evaluation(value: F, error: Option<EvalError>)

  /** The failing return `return 0, err`. */
  function Fail<F>(m: Float64<F>, err: EvalError): Evaluation<F> {
    Evaluation(m.zero, Some(err))
  }

  /** The switch of BinaryOpNode.Eval (ast.go:28-37). An operator outside
      the four leaves `ret` at its zero value. */
  function Apply<F>(m: Float64<F>, op: Kind, left: F, right: F): F {
    match op
    case PLUS => m.add(left, right)
    case MINUS => m.sub(left, right)
    case MUL => m.mul(left, right)
    case DIV => m.quo(left, right)
    case _ => m.zero
  }

  /** The math function a table entry applies to its evaluated arguments. */
  function Semantics<F>(m: Float64<F>, f: Builtin, xs: seq<F>): F
    requires |xs| == Arity(f)
  {
    match f
    case Sqrt => m.sqrt(xs[0])
    case Abs => m.abs(xs[0])
    case Cos => m.cos(xs[0])
    case Sin => m.sin(xs[0])
    case Tan => m.tan(xs[0])
    case Acos => m.acos(xs[0])
    case Asin => m.asin(xs[0])
    case Atan => m.atan(xs[0])
    case Pow => m.pow(xs[0], xs[1])
    case Max => m.max(xs[0], xs[1])
    case Min => m.min(xs[0], xs[1])
  }

  /** Expr.Eval for all three node kinds (ast.go:18-39, 176-186, 190-192),
      with the table entries of ast.go:50-168 inlined: every entry checks
      its arity first; the one-argument entries and pow and max evaluate
      argument 0 and then argument 1, stopping at the first error; min
      evaluates argument 1 first, then argument 0, and reports only
      argument 0's error. */
  function Eval<F>(m: Float64<F>, e: Expr<F>): (r: Evaluation<F>)
    ensures r.error.Some? ==> r.value == m.zero
    decreases e
  {
    match e
    case Number(v) => Evaluation(v, None)
    case BinaryOp(op, left, right) =>
      var l := Eval(m, left);
      if l.error.Some? then Fail(m, l.error.value)
      else
        var r := Eval(m, right);
        if r.error.Some? then Fail(m, r.error.value)
        else Evaluation(Apply(m, op, l.value, r.value), None)
    case Call(name, args) =>
      if name !in FunctionTable then Fail(m, UnknownFunction(name))
      else
        var f := FunctionTable[name];
        if |args| != Arity(f) then Fail(m, ArgumentError(name, Arity(f)))
        else if Arity(f) == 1 then
          var a := Eval(m, args[0]);
          if a.error.Some? then Fail(m, a.error.value)
          else Evaluation(Semantics(m, f, [a.value]), None)
        else if f == Min then
          var b := Eval(m, args[1]);
          var a := Eval(m, args[0]);
          if a.error.Some? then Fail(m, a.error.value)
          else Evaluation(Semantics(m, f, [a.value, b.value]), None)
        else
          var a := Eval(m, args[0]);
          if a.error.Some? then Fail(m, a.error.value)
          else
            var b := Eval(m, args[1]);
            if b.error.Some? then Fail(m, b.error.value)
            else Evaluation(Semantics(m, f, [a.value, b.value]), None)
  }

  // ---------------------------------------------------------------------
  // Where errors come from

  /** The error a call node reports by itself, before looking at any
      argument: an unknown name, or a known name with the wrong count. */
  function CallCheck(name: seq<Byte>, argc: nat): (r: Option<EvalError>)
    ensures r == None <==> name in FunctionTable && argc == Arity(FunctionTable[name])
  {
    if name !in FunctionTable then Some(UnknownFunction(name))
    else if argc != Arity(FunctionTable[name]) then Some(ArgumentError(name, Arity(FunctionTable[name])))
    else None
  }

  /** Some call node of e reports err by itself. */
  predicate Blames<F>(e: Expr<F>, err: EvalError)
    decreases e
  {
    match e
    case Number(_) => false
    case BinaryOp(_, l, r) => Blames(l, err) || Blames(r, err)
    case Call(name, args) =>
      CallCheck(name, |args|) == Some(err) || exists i | 0 <= i < |args| :: Blames(args[i], err)
  }

  /** Every call node of e names a known function with the right count. */
  predicate CallsOk<F>(e: Expr<F>)
    decreases e
  {
    match e
    case Number(_) => true
    case BinaryOp(_, l, r) => CallsOk(l) && CallsOk(r)
    case Call(name, args) =>
      CallCheck(name, |args|) == None && forall i | 0 <= i < |args| :: CallsOk(args[i])
  }

  /** Every error Eval reports comes, unchanged, from a call node of the
      tree that is at fault: an unknown name or a wrong argument count. */
  lemma {:induction false} EvalErrorIsBlamed<F>(m: Float64<F>, e: Expr<F>)
    ensures Eval(m, e).error.Some? ==> Blames(e, Eval(m, e).error.value)
    decreases e
  {
    match e
    case Number(_) =>
    case BinaryOp(_, l, r) =>
      EvalErrorIsBlamed(m, l);
      EvalErrorIsBlamed(m, r);
    case Call(name, args) =>
      if |args| > 0 {
        EvalErrorIsBlamed(m, args[0]);
      }
      if |args| > 1 {
        EvalErrorIsBlamed(m, args[1]);
      }
  }

  /** A tree whose every call is to a known function with the right
      number of arguments evaluates without error. */
  lemma {:induction false} CallsOkNeverFails<F>(m: Float64<F>, e: Expr<F>)
    requires CallsOk(e)
    ensures Eval(m, e).error == None
    decreases e
  {
    match e
    case Number(_) =>
    case BinaryOp(_, l, r) =>
      CallsOkNeverFails(m, l);
      CallsOkNeverFails(m, r);
    case Call(name, args) =>
      if |args| > 0 {
        CallsOkNeverFails(m, args[0]);
      }
      if |args| > 1 {
        CallsOkNeverFails(m, args[1]);
      }
  }

  // ---------------------------------------------------------------------
  // The behaviour of each node kind

  /** NumberNode.Eval returns its value and never fails. */
  lemma NumberNeverFails<F>(m: Float64<F>, v: F)
    ensures Eval(m, Number(v)) == Evaluation(v, None)
  {
  }

  /** BinaryOpNode.Eval: left first; left's error wins; right's error is
      reported only when left succeeded; otherwise the operator applies. */
  lemma BinaryOpOrder<F>(m: Float64<F>, op: Kind, left: Expr<F>, right: Expr<F>)
    ensures var r := Eval(m, BinaryOp(op, left, right));
      var l, rr := Eval(m, left), Eval(m, right);
      (l.error.Some? ==> r == Fail(m, l.error.value))
      && (l.error.None? && rr.error.Some? ==> r == Fail(m, rr.error.value))
      && (l.error.None? && rr.error.None? ==> r == Evaluation(Apply(m, op, l.value, rr.value), None))
  {
  }

  /** An unknown name fails with "function <name> does not exist"
      whatever the arguments are, so none of them is evaluated. */
  lemma UnknownFunctionIgnoresArguments<F>(m: Float64<F>, name: seq<Byte>, args: seq<Expr<F>>)
    requires name !in FunctionTable
    ensures Eval(m, Call(name, args)) == Fail(m, UnknownFunction(name))
    ensures Message(UnknownFunction(name)) == "function " + name + " does not exist"
  {
  }

  /** A wrong argument count fails with the entry's ArgumentError whatever
      the arguments are, even arguments that would fail themselves. */
  lemma ArityCheckedFirst<F>(m: Float64<F>, name: seq<Byte>, args: seq<Expr<F>>)
    requires name in FunctionTable && |args| != Arity(FunctionTable[name])
    ensures Eval(m, Call(name, args)) == Fail(m, ArgumentError(name, Arity(FunctionTable[name])))
  {
  }

  /** A table entry other than min, called with the right count:
      the first failing argument, in source order, decides the error; when
      none fails the entry's math function is applied to the values. */
  lemma LeftToRightFirstErrorWins<F>(m: Float64<F>, name: seq<Byte>, args: seq<Expr<F>>)
    requires name in FunctionTable && FunctionTable[name] != Min
    requires |args| == Arity(FunctionTable[name])
    ensures var r := Eval(m, Call(name, args));
      (Eval(m, args[0]).error.Some? ==> r == Fail(m, Eval(m, args[0]).error.value))
      && (|args| == 2 && Eval(m, args[0]).error.None? && Eval(m, args[1]).error.Some?
          ==> r == Fail(m, Eval(m, args[1]).error.value))
      && ((forall i | 0 <= i < |args| :: Eval(m, args[i]).error.None?)
          ==> r == Evaluation(Semantics(m, FunctionTable[name], seq(|args|, i requires 0 <= i < |args| => Eval(m, args[i]).value)), None))
  {
    var vs := seq(|args|, i requires 0 <= i < |args| => Eval(m, args[i]).value);
    if |args| == 2 {
      assert vs == [Eval(m, args[0]).value, Eval(m, args[1]).value];
    } else {
      assert vs == [Eval(m, args[0]).value];
    }
  }

  /** min reports argument 0's error; an error of argument 1 alone is
      dropped, and the result is then the minimum of argument 0 and the
      zero that the failed evaluation returned. */
  lemma MinDropsSecondError<F>(m: Float64<F>, a: Expr<F>, b: Expr<F>)
    ensures var r := Eval(m, Call("min", [a, b]));
      (Eval(m, a).error.Some? ==> r == Fail(m, Eval(m, a).error.value))
      && (Eval(m, a).error.None? && Eval(m, b).error.Some? ==> r == Evaluation(m.min(Eval(m, a).value, m.zero), None))
      && (Eval(m, a).error.None? && Eval(m, b).error.None? ==> r == Evaluation(m.min(Eval(m, a).value, Eval(m, b).value), None))
  {
    assert FunctionTable["min"] == Min;
  }

  /** The table has exactly the eleven names, with the documented arities. */
  lemma TableArities()
    ensures FunctionTable.Keys == {"sqrt", "abs", "pow", "cos", "sin", "tan", "acos", "asin", "atan", "max", "min"}
    ensures forall n | n in FunctionTable ::
      Arity(FunctionTable[n]) == (if n in {"pow", "max", "min"} then 2 else 1)
  {
  }

  /** The fixed arity texts, for example "sqrt takes one argument". */
  lemma ArgumentMessageExamples()
    ensures Message(ArgumentError("sqrt", Arity(Sqrt))) == "sqrt takes one argument"
  {
  }

  lemma UnknownMessageExample()
    ensures Message(UnknownFunction("foo")) == "function foo does not exist"
  {
  }
}
