/** The read-evaluate-print loop of main.go: each line is tokenized,
    parsed and evaluated, and the one piece of state the program keeps
    between lines, the last answer, is updated. The terminal is reduced
    to the events it delivers and the outputs written to it. */
module MainLoop {
  import opened Wrappers
  import opened Tokenizer
  import opened Numerics
  import opened Ast
  import opened Parsing
  import opened ParserFacts

  /** What terminal.ReadLine delivers (main.go:28-34): a line, a read
      error other than end of input, or the end of input. */
  datatype Event = Line(text: seq<Byte>) | ReadFailure | EndOfInput

  /** What the loop writes to the terminal: the clear-screen sequence of
      main.go:41, an error message, or a value printed by Fprintln. */
  datatype Output<F> = ClearScreen | Text(message: string) | Value(value: F)

  /** What one line does: the last answer afterwards, what is written,
      and whether the program exits. */
  datatype Reply<F> = Reply(answer: F, shown: Option<Output<F>>, exit: bool)

  /** The body of the loop for one line (main.go:35-56), with `ans` the
      last answer before it. */
  function Respond<F>(m: Float64<F>, ans: F, line: seq<Byte>): (r: Reply<F>)
    ensures r.exit ==> r.answer == ans && r.shown.None?
    ensures r.shown.Some? && r.shown.value.Value? ==> r.shown.value.value == r.answer
    ensures r.answer != ans ==> ParseExpression(m, ans, Lex(line), 0).Parsed?
  {
    match ParseExpression(m, ans, Lex(line), 0)
    case Failed(ClearSignal) => Reply(ans, Some(ClearScreen), false)
    case Failed(ExitSignal) => Reply(ans, None, true)
    case Failed(err) => Reply(ans, Some(Text(ParseMessage(err))), false)
    case Parsed(e, _) =>
      var v := Eval(m, e);
      Reply(v.value, Some(if v.error.Some? then Text(Message(v.error.value)) else Value(v.value)), false)
  }

  /** The state of the loop between events: the last answer, everything
      written so far, and whether the loop still runs. */
  datatype State<F> = State(answer: F, transcript: seq<Output<F>>, running: bool)

  /** The state before the first line: lastAnswer is NaN (main.go:12). */
  function Start<F>(m: Float64<F>): (s: State<F>)
    ensures s.answer == m.nan && s.transcript == [] && s.running
  {
    State(m.nan, [], true)
  }

  function Written<F>(o: Option<Output<F>>): seq<Output<F>> {
    if o.Some? then [o.value] else []
  }

  /** One event: a read error is skipped, the end of input ends the loop,
      a line is answered; nothing happens once the loop has ended. */
  function Step<F>(m: Float64<F>, s: State<F>, ev: Event): (t: State<F>)
    ensures !s.running ==> t == s
    ensures |s.transcript| <= |t.transcript| <= |s.transcript| + 1 && t.transcript[..|s.transcript|] == s.transcript
  {
    if !s.running then s
    else
      match ev
      case ReadFailure => s
      case EndOfInput => s.(running := false)
      case Line(text) =>
        var r := Respond(m, s.answer, text);
        State(r.answer, s.transcript + Written(r.shown), !r.exit)
  }

  /** The events handled one after another. */
  function Replay<F>(m: Float64<F>, s: State<F>, events: seq<Event>): State<F>
    decreases |events|
  {
    if |events| == 0 then s else Replay(m, Step(m, s, events[0]), events[1..])
  }

  // ---------------------------------------------------------------------
  // The loop as the source writes it

  /** The package-level lastAnswer, with the terminal's output kept as a
      transcript. */
  class Session<F> {
    const m: Float64<F>
    var lastAnswer: F
    var transcript: seq<Output<F>>
    var running: bool

    function Current(): State<F>
      reads this
    {
      State(lastAnswer, transcript, running)
    }

    constructor (m: Float64<F>)
      ensures this.m == m && Current() == Start(m)
    {
      this.m := m;
      lastAnswer := m.nan;
      transcript := [];
      running := true;
    }

    /** One line: Tokenize, NewParser, Expression, then the dispatch on
        the error and the assignment of Eval's value (main.go:35-56). */
    method HandleLine(line: seq<Byte>)
      modifies this
      ensures var r := Respond(m, old(lastAnswer), line);
        lastAnswer == r.answer && transcript == old(transcript) + Written(r.shown) && running == (old(running) && !r.exit)
    {
      var tokens := Tokenize(line);
      var parser := new Parser(tokens, m, lastAnswer);
      var ast := parser.Expression();
      if ast.Err? {
        if ast.error == ClearSignal {
          transcript := transcript + [ClearScreen];
        } else if ast.error == ExitSignal {
          running := false;
        } else {
          transcript := transcript + [Text(ParseMessage(ast.error))];
        }
        return;
      }
      var v := Eval(m, ast.value);
      lastAnswer := v.value;
      if v.error.Some? {
        transcript := transcript + [Text(Message(v.error.value))];
      } else {
        transcript := transcript + [Value(lastAnswer)];
      }
    }

    /** The loop of main.go:27-57 over the events the terminal delivers,
        until the end of input or an exit. */
    method Run(events: seq<Event>)
      modifies this
      ensures Current() == Replay(m, old(Current()), events)
    {
      var i := 0;
      while i < |events| && running
        invariant 0 <= i <= |events|
        invariant Replay(m, old(Current()), events) == Replay(m, Current(), events[i..])
        decreases |events| - i
      {
        assert events[i..][1..] == events[i + 1..];
        if events[i].Line? {
          HandleLine(events[i].text);
        } else if events[i].EndOfInput? {
          running := false;
        }
        i := i + 1;
      }
      if i < |events| {
        StoppedStaysStopped(m, Current(), events[i..]);
      }
    }
  }

  // ---------------------------------------------------------------------
  // What a line does to the last answer

  /** `clear` writes the clear-screen sequence and keeps the last
      answer. */
  lemma ClearKeepsAnswer<F>(m: Float64<F>, ans: F, line: seq<Byte>)
    requires ParseExpression(m, ans, Lex(line), 0) == Failed(ClearSignal)
    ensures Respond(m, ans, line) == Reply(ans, Some(ClearScreen), false)
  {
  }

  /** Any other parse error is written out, Eval is not run, and the last
      answer is kept. */
  lemma ParseErrorKeepsAnswer<F>(m: Float64<F>, ans: F, line: seq<Byte>, err: ParseError)
    requires ParseExpression(m, ans, Lex(line), 0) == Failed(err) && err != ClearSignal && err != ExitSignal
    ensures Respond(m, ans, line) == Reply(ans, Some(Text(ParseMessage(err))), false)
  {
  }

  /** A parsed line always replaces the last answer with Eval's value,
      which is zero when evaluation fails; the value is written on
      success, the error's message on failure. */
  lemma ParsedLineSetsAnswer<F>(m: Float64<F>, ans: F, line: seq<Byte>)
    ensures var p, r := ParseExpression(m, ans, Lex(line), 0), Respond(m, ans, line);
      p.Parsed? ==>
        var v := Eval(m, p.expr);
        && r.answer == v.value && !r.exit
        && (v.error.Some? ==> r.answer == m.zero && r.shown == Some(Text(Message(v.error.value))))
        && (v.error.None? ==> r.shown == Some(Value(r.answer)))
  {
  }

  /** The program exits only on a line holding an `exit` token, and does
      on every line that starts with one. */
  lemma ExitNeedsExitToken<F>(m: Float64<F>, ans: F, line: seq<Byte>)
    ensures Respond(m, ans, line).exit ==> exists i | 0 <= i < |Lex(line)| :: Lex(line)[i].kind == EXIT
    ensures |Lex(line)| > 0 && Lex(line)[0].kind == EXIT ==> Respond(m, ans, line).exit
  {
    LexEndsWithEof(line, 0);
    ExpressionSignal(m, ans, Lex(line), 0);
    if Lex(line)[0].kind == EXIT {
      SignalWhereOperandExpected(m, ans, Lex(line), 0);
    }
  }

  /** The line `1+` prints "unexpected token EOF" and keeps the last
      answer. */
  lemma DanglingOperatorLine<F>(m: Float64<F>, ans: F, one: F)
    requires m.parseFloat("1") == Some(one)
    ensures Respond(m, ans, "1+") == Reply(ans, Some(Text("unexpected token EOF")), false)
  {
    LexExampleDangling();
    DanglingOperatorExample(m, ans, Lex("1+"), one);
    UnexpectedMessageExample();
  }

  /** On the first line `ans` is the NaN the program starts with. */
  lemma FirstAnswerIsNaN<F>(m: Float64<F>)
    ensures Respond(m, Start(m).answer, "ans") == Reply(m.nan, Some(Value(m.nan)), false)
  {
    var ts := Lex("ans");
    LexAnswerKeyword();
    PrimitiveAlone(m, m.nan, ts, 0, Number(m.nan), 1);
  }

  /** The line `ans` lexes to the one keyword token. */
  lemma LexAnswerKeyword()
    ensures Lex("ans") == [Token(ANS, []), Token(EOF, [])]
  {
    var s: seq<Byte> := "ans";
    assert WordEnd(s, 0) == 3;
    assert s[0..3] == "ans";
    assert ScanAt(s, 0) == Scanned(Some(Token(ANS, [])), 3);
  }

  // ---------------------------------------------------------------------
  // The loop over events

  /** A read error other than the end of input skips the line. */
  lemma ReadFailureChangesNothing<F>(m: Float64<F>, s: State<F>)
    ensures Step(m, s, ReadFailure) == s
  {
  }

  /** Once the loop has ended, by the end of input or an exit, later
      events change nothing. */
  lemma {:induction false} StoppedStaysStopped<F>(m: Float64<F>, s: State<F>, events: seq<Event>)
    requires !s.running
    ensures Replay(m, s, events) == s
    decreases |events|
  {
    if |events| > 0 {
      StoppedStaysStopped(m, Step(m, s, events[0]), events[1..]);
    }
  }

  /** Handling a list of events in two parts is handling it at once. */
  lemma {:induction false} ReplayAppend<F>(m: Float64<F>, s: State<F>, a: seq<Event>, b: seq<Event>)
    ensures Replay(m, s, a + b) == Replay(m, Replay(m, s, a), b)
    decreases |a|
  {
    if |a| == 0 {
      assert a + b == b;
    } else {
      assert (a + b)[1..] == a[1..] + b;
      ReplayAppend(m, Step(m, s, a[0]), a[1..], b);
    }
  }

  /** The transcript only grows: what has been written stays written. */
  lemma {:induction false} TranscriptGrows<F>(m: Float64<F>, s: State<F>, events: seq<Event>)
    ensures var t := Replay(m, s, events);
      |s.transcript| <= |t.transcript| <= |s.transcript| + |events| && t.transcript[..|s.transcript|] == s.transcript
    decreases |events|
  {
    if |events| > 0 {
      var s1 := Step(m, s, events[0]);
      TranscriptGrows(m, s1, events[1..]);
      var t := Replay(m, s, events);
      assert t.transcript[..|s1.transcript|][..|s.transcript|] == t.transcript[..|s.transcript|];
    }
  }

  /** Only lines change the answer carried from line to line: read
      errors and the end of input leave it alone, and Respond shows that a
      line changes it only when the line parses. */
  lemma {:induction false} AnswerChangesOnlyOnLines<F>(m: Float64<F>, s: State<F>, events: seq<Event>)
    ensures var t := Replay(m, s, events);
      t.answer == s.answer || exists i | 0 <= i < |events| :: events[i].Line?
    decreases |events|
  {
    if |events| > 0 {
      AnswerChangesOnlyOnLines(m, Step(m, s, events[0]), events[1..]);
      var t := Replay(m, s, events);
      if t.answer != s.answer && !events[0].Line? {
        var i :| 0 <= i < |events[1..]| && events[1..][i].Line?;
        assert events[i + 1].Line?;
      }
    }
  }
}
