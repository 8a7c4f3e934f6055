# A terminal calculator, modelled in Dafny

The calculator reads one line at a time and answers it. Each line goes through four stages:

1. The tokenizer turns the line into tokens: numbers, names, keywords and seven operators, ending with EOF.
2. A recursive-descent parser with one token of lookahead builds a syntax tree from the tokens.
3. The tree is evaluated, using a table of eleven math functions.
4. The main loop prints the value and keeps it as the last answer, which the next line can refer to as `ans`. A line starting with an operator (`+5`, `*2`) takes the last answer as its left operand.

The model follows the source file by file:

- **`tokenizer.dfy`, module `Tokenizer`**
  - `Tokenize` is the scanner as a method: the outer scan loop, the digit loop and the letter loop, appending one token at a time.
  - It is proved equal to `Lex`, a recursive reference definition.
  - Lemmas about `Lex` show:
    - the output ends with a single EOF;
    - every token is well formed;
    - there is at most one token per byte;
    - spelling the tokens back out gives the input's digits, letters and operators in order.
- **`ast.dfy`, module `Ast`**
  - The syntax tree as a datatype.
  - `Eval` is a function, because the Go evaluator is a recursive case analysis.
  - Lemmas state where errors come from, their order of precedence, the arity checks, and the asymmetric `min`.
- **`parser.dfy`, module `Parsing`**
  - Functions over a token sequence and a position say what each parsing routine returns.
  - The `Parser` class holds the tokens and a position that `Eat` advances. Its recursive methods are proved to return what those functions say.
- **`grammar.dfy`, module `Grammar`** relates the parser to a printer of trees:
  - parsing a printed tree gives the tree back;
  - so `*` and `/` bind tighter than `+` and `-`, both tiers fold to the left, and call arguments stay in order.
- **`behaviour.dfy`, module `ParserFacts`** covers:
  - the implicit last-answer operand;
  - where `clear` and `exit` can come from;
  - the table of primaries;
  - the two leniencies about a missing `)`;
  - worked lines.
- **`session.dfy`, module `MainLoop`**
  - The loop body of `main` as the function `Respond`.
  - The loop itself as the class `Session`, whose `lastAnswer` starts as NaN. Its `HandleLine` and `Run` methods are proved against `Respond`, `Step` and `Replay`.

Supporting files:

- **`numerics.dfy`** keeps every float64 operation abstract. It is a record of function values: the arithmetic operators, the `math` functions, the constants, and `strconv.ParseFloat`, which may fail.
- **`wrappers.dfy`** holds `Option` and `Result`.

## Model

| member | source | states |
|---|---|---|
| Tokenizer.OperatorKind | tokenizer.go:94-109 | exactly the seven operator bytes `+ - ( ) * / ,` yield a token, its kind is one of the seven operator kinds, and the token spells back to the byte |
| Tokenizer.KindName | tokenizer.go:14-30 | every kind that the tokenizer produces has a non-empty name; only the zero token's kind has an empty one |
| Tokenizer.KindNamesDistinct | tokenizer.go:14-30 | no two kinds share a name |
| Tokenizer.NumberEnd | tokenizer.go:44-59 | the digit loop ends within the line, and takes at least the digit it starts on |
| Tokenizer.NumberRun | tokenizer.go:44-61 | a NUM's text holds only digits and dots, with at most one dot |
| Tokenizer.NumberIsMaximal | tokenizer.go:44-61 | a NUM is the whole run: the byte after it is neither a digit nor a dot it could take |
| Tokenizer.WordEnd | tokenizer.go:65-75 | the letter loop takes the maximal run of letters |
| Tokenizer.WordToken | tokenizer.go:76-90 | exactly `ans`, `exit`, `clear`, `pi` and `e` become keywords with empty text; any other run becomes an IDENTIFIER carrying the run |
| Tokenizer.WordIsMaximal | tokenizer.go:65-90 | a letter run becomes its keyword or IDENTIFIER token, and the run is maximal |
| Tokenizer.ScanAt | tokenizer.go:38-111 | each pass of the scan loop strictly advances the index and stays within the line |
| Tokenizer.ScanAtAccountsForBytes | tokenizer.go:38-111 | a pass either skips one byte that belongs to no token, or emits a token spelled by exactly the bytes it moves over |
| Tokenizer.ScanNumber | tokenizer.go:44-59 | the digit loop with its `hasDot` flag stops where NumberEnd says |
| Tokenizer.ScanWord | tokenizer.go:65-75 | the letter loop stops where WordEnd says |
| Tokenizer.Tokenize | tokenizer.go:32-116 | the scanner returns exactly `Lex(line)` |
| Tokenizer.AppendStep | tokenizer.go:38-111 | one pass of the scan loop keeps the invariant of Tokenize |
| Tokenizer.LexEndsWithEof | tokenizer.go:38-113 | the output ends with one EOF that carries no text, and no other token is EOF |
| Tokenizer.LexLength | tokenizer.go:38-111 | there are at most as many tokens before EOF as bytes in the line |
| Tokenizer.LexWellFormed | tokenizer.go:44-109 | every token before EOF is a number, an identifier, a keyword or an operator with the shape the scanner gives it |
| Tokenizer.LexAccountsForEveryByte | tokenizer.go:38-111 | spelling the tokens back out gives the line's digits, letters and operator bytes in order; dots are set aside on both sides |
| Tokenizer.LexDropsOnlySkippedBytes | tokenizer.go:38-111 | the spelled-back tokens are the line with some bytes removed, and every removed byte is one the tokenizer skips, stray dots included |
| Tokenizer.StrayDotExample | tokenizer.go:44-110 | `.5` lexes to NUM `5` and EOF: the leading dot is skipped |
| Tokenizer.LexSpellsOnlyTokenBytes | tokenizer.go:38-111 | whitespace and bytes outside the token alphabet never reach a token |
| Tokenizer.LexExampleSum | tokenizer.go:38-113 | `1+2*3` lexes to NUM, PLUS, NUM, MUL, NUM, EOF |
| Tokenizer.LexExampleDangling | tokenizer.go:38-113 | `1+` lexes to NUM, PLUS, EOF |
| Tokenizer.LexExampleTwoDots | tokenizer.go:44-61 | a second dot ends a number: `1.2.3` gives NUM `1.2` and NUM `3` |
| Ast.Eval | ast.go:18-192 | every failing evaluation returns zero together with its error |
| Ast.CallCheck | ast.go:176-185 | a call reports no error by itself exactly when its name is in the table and it has that entry's arity |
| Ast.EvalErrorIsBlamed | ast.go:18-186 | every error Eval reports comes, unchanged, from a call node of the tree with an unknown name or a wrong count |
| Ast.CallsOkNeverFails | ast.go:18-192 | a tree whose calls all name known functions with the right count evaluates without error |
| Ast.NumberNeverFails | ast.go:190-192 | a number node returns its value and never fails |
| Ast.BinaryOpOrder | ast.go:18-39 | left is evaluated first and its error wins; right's error is reported only when left succeeded; otherwise the operator is applied |
| Ast.UnknownFunctionIgnoresArguments | ast.go:176-185 | an unknown name fails with "function <name> does not exist", whatever its arguments are |
| Ast.ArityCheckedFirst | ast.go:49-168 | a wrong count fails with the entry's ArgumentError, even when the arguments would fail themselves |
| Ast.LeftToRightFirstErrorWins | ast.go:50-157 | every entry except min evaluates its arguments in order, the first error wins, and otherwise the math function is applied to the values |
| Ast.MinDropsSecondError | ast.go:158-168 | min reports argument 0's error; an error of argument 1 alone is dropped, and its zero is used as the value |
| Ast.TableArities | ast.go:49-169 | the table holds exactly the eleven names: arity 1 for sqrt, abs, cos, sin, tan, acos, asin and atan; arity 2 for pow, max and min |
| Ast.Message | ast.go:41-185 | an arity error's text begins with the function's name; an unknown-function text carries the name after "function " |
| Ast.ArgumentMessageExamples | ast.go:41-58 | the fixed arity texts, for example "sqrt takes one argument" |
| Ast.UnknownMessageExample | ast.go:185 | the unknown-function text, for example "function foo does not exist" |
| Parsing.ParseMessage | parser.go:13-15 | every error that is written out has a non-empty message; only the clear and exit signals, which are never written, have none |
| Parsing.UnexpectedMessageNamesKind | parser.go:13-15 | two unexpected-token messages are equal only when they name the same kind |
| Parsing.UnexpectedMessageExample | parser.go:13-15 | an unexpected end of input reads "unexpected token EOF" |
| Parsing.ParseExpression | parser.go:38-65 | a successful Expression takes at least one token and stops at a lookahead that is not `+` or `-` |
| Parsing.ExpressionTail | parser.go:52-62 | the additive loop stops only at a lookahead that is not `+` or `-`, and takes a token when it starts on one |
| Parsing.ParseMulDiv | parser.go:67-92 | a successful parseMulDiv takes at least one token and stops at a lookahead that is not `*` or `/` |
| Parsing.MulDivTail | parser.go:79-89 | the multiplicative loop stops only at a lookahead that is not `*` or `/` |
| Parsing.ParsePrimitive | parser.go:106-172 | a successful parsePrimitive takes at least one token |
| Parsing.ParseCall | parser.go:118-146 | a successful call takes at least its name and stays within the tokens |
| Parsing.CloseCall | parser.go:142-146 | a call closes exactly when a `)` or EOF follows; the `)` is taken, a missing one is forgiven only at EOF, and any other token is an UnexpectedToken error naming it |
| Parsing.ParseGroup | parser.go:147-154 | a successful group takes at least its `(` |
| Parsing.ParseArgs | parser.go:124-140 | the argument loop returns a call with that name whose arguments extend those already gathered, in order |
| Parsing.CallOpens | parser.go:118-146 | after `name (`, the argument list is read unless a `)` follows at once, and then the call is closed |
| Parsing.ArgsNext | parser.go:126-140 | one round of the argument loop: an argument's error stops it, a COMMA goes on, anything else ends the list |
| Parsing.ExpressionStart | parser.go:38-65 | without a leading `+` or `-`, Expression begins with a parseMulDiv and its loop goes on from where that stopped |
| Parsing.MulDivStart | parser.go:67-79 | without a leading `*` or `/`, parseMulDiv begins with a parsePrimitive |
| Parsing.MulDivJoin | parser.go:79-89 | one turn of the `*` `/` loop folds the new operand onto the right of the tree so far |
| Parsing.ExpressionJoin | parser.go:52-62 | one turn of the `+` `-` loop folds the new operand onto the right of the tree so far |
| Parsing.TailStops | parser.go:52-64 | both loops hand back the tree so far, without taking a token, at a lookahead that is not their operator |
| Parsing.GroupJoin | parser.go:147-154 | a group whose Expression stops at a `)` takes both parentheses |
| Parsing.CallWithoutArguments | parser.go:118-146 | `name ( )` is a call without arguments that takes three tokens |
| Parsing.CallWithArguments | parser.go:118-146 | an argument list that stops at a `)` gives the call, and the `)` is taken |
| Parsing.ArgsStep | parser.go:126-140 | an argument followed by a COMMA lets the loop go on after the COMMA; otherwise the list ends there |
| Parsing.ExpressionBuilt | parser.go:38-65 | every tree Expression builds has operators among `+ - * /` and calls named by IDENTIFIER tokens of the line |
| Parsing.ExpressionTailBuilt | parser.go:52-62 | the same for the additive loop |
| Parsing.MulDivBuilt | parser.go:67-92 | the same for parseMulDiv |
| Parsing.MulDivTailBuilt | parser.go:79-89 | the same for the multiplicative loop |
| Parsing.PrimitiveBuilt | parser.go:106-172 | the same for parsePrimitive |
| Parsing.CallBuilt | parser.go:118-146 | the same for a call |
| Parsing.ArgsBuilt | parser.go:124-140 | the same for the argument loop |
| Parsing.Parser.constructor | parser.go:31-36 | NewParser makes the first token the lookahead |
| Parsing.Parser.Eat | parser.go:22-29 | with the expected kind ahead, Eat returns that token and advances one position; otherwise it returns UnexpectedToken naming the lookahead and does not move |
| Parsing.Parser.Expression | parser.go:38-65 | returns the tree or the error ParseExpression gives, and on success stops where it says |
| Parsing.Parser.MulDiv | parser.go:67-92 | the same for ParseMulDiv |
| Parsing.Parser.Primitive | parser.go:106-172 | the same for ParsePrimitive |
| Parsing.Parser.FunctionCall | parser.go:118-146 | the same for ParseCall |
| Parsing.Parser.Arguments | parser.go:124-141 | the same for ParseArgs, gathering the arguments in order |
| Grammar.PrimitiveReadsBack | parser.go:106-172 | parsePrimitive reads a printed number, call or parenthesised operator back in full |
| Grammar.GroupReadsBack | parser.go:147-154 | a parenthesised operator reads back as itself, both parentheses taken |
| Grammar.CallReadsBack | parser.go:118-146 | a printed call reads back with its name and all its arguments in order |
| Grammar.MulDivReadsBack | parser.go:67-92 | parseMulDiv reads a printed product tier back, then carries on as its loop would |
| Grammar.ProductReadsBack | parser.go:79-89 | a printed product or quotient reads back folded to the left |
| Grammar.ProductPartsReadBack | parser.go:79-89 | the same, given where the operator lies |
| Grammar.ExpressionReadsBack | parser.go:38-65 | Expression reads a printed tree back, then carries on as its loop would |
| Grammar.SumReadsBack | parser.go:52-62 | a printed sum or difference reads back folded to the left, with products inside it as its operands |
| Grammar.SumPartsReadBack | parser.go:52-62 | the same, given where the operator lies |
| Grammar.ArgumentsReadBack | parser.go:126-140 | the argument loop reads printed arguments back, in order, up to the closing `)` |
| Grammar.MoreArgumentsReadBack | parser.go:126-140 | with two or more arguments left, the first is read, its COMMA taken, and the loop goes on |
| Grammar.LastArgument | parser.go:126-140 | the last argument, read up to a `)`, ends the list |
| Grammar.ParsePrintRoundTrip | parser.go:38-172 | parsing the printed tokens of any printable tree, followed by EOF, gives back the tree and stops at the EOF |
| Grammar.LineReadsBack | parser.go:38-65 | a printed tree followed by EOF is what Expression returns for the line |
| Grammar.ExpressionEnds | parser.go:52-64 | an Expression whose loop reaches EOF returns there |
| ParserFacts.ExpressionTailKeepsLeftmost | parser.go:52-62 | the additive loop only ever puts the tree so far on the left |
| ParserFacts.MulDivTailKeepsLeftmost | parser.go:79-89 | the multiplicative loop only ever puts the tree so far on the left |
| ParserFacts.LeadingOperatorTakesAnswer | parser.go:38-92 | in an Expression starting with `+ - * /`, the innermost leftmost operation is that operator applied to the last answer and to the operand read right after it (a term for `+ -`, a primitive for `* /`), however many operations follow |
| ParserFacts.ExpressionTailKeepsLeftNode | parser.go:52-62 | the left-associative loop of Expression keeps the innermost leftmost operation of what it started from |
| ParserFacts.MulDivTailKeepsLeftNode | parser.go:79-89 | the left-associative loop of MulDiv keeps the innermost leftmost operation of what it started from |
| ParserFacts.FirstPrimitiveLeads | parser.go:38-77 | without a leading operator, a successful Expression has the first primitive, which parsed, as its leftmost operand |
| ParserFacts.SignalToken | parser.go:158-161 | exactly the Clear and Exit signals come from a token |
| ParserFacts.ExpressionSignal | parser.go:38-65 | Expression fails with Clear or Exit only when a `clear` or `exit` token lies ahead |
| ParserFacts.ExpressionTailSignal | parser.go:52-62 | the same for the additive loop |
| ParserFacts.MulDivSignal | parser.go:67-92 | the same for parseMulDiv |
| ParserFacts.MulDivTailSignal | parser.go:79-89 | the same for the multiplicative loop |
| ParserFacts.PrimitiveSignal | parser.go:106-172 | the same for parsePrimitive |
| ParserFacts.CallSignal | parser.go:118-146 | the same for a call |
| ParserFacts.ArgsSignal | parser.go:126-140 | the same for the argument loop |
| ParserFacts.SignalWhereOperandExpected | parser.go:158-161 | `clear` or `exit` where an operand is expected stops parsing with its signal |
| ParserFacts.PrimitiveTable | parser.go:155-170 | `ans`, `pi` and `e` become the last answer, π and e, each taking one token; `clear` and `exit` give their signals; any other lookahead fails with UnexpectedToken naming it |
| ParserFacts.NumberPrimitive | parser.go:108-117 | a NUM becomes the number ParseFloat reads from its text, or fails with that conversion's error |
| ParserFacts.CallNeedsParenthesis | parser.go:119-123 | a name not followed by `(` fails with UnexpectedToken naming what came instead |
| ParserFacts.CallShape | parser.go:118-146 | a call is named by its IDENTIFIER, and its argument list is empty exactly when `)` follows `(` at once |
| ParserFacts.GroupCloseOptional | parser.go:147-154 | a group succeeds exactly when its Expression does, and gives that tree; the `)` is taken when present and never required |
| ParserFacts.PrimitiveAlone | parser.go:52-92 | a primitive with no operator before or after it is a whole Expression |
| ParserFacts.ImplicitPlusExample | parser.go:40-41 | `+5` parses to the last answer plus 5 |
| ParserFacts.ImplicitTimesExample | parser.go:69-70 | `*2` parses to the last answer times 2 |
| ParserFacts.LeftFoldExample | parser.go:52-62 | `1-2-3` parses to (1-2)-3 |
| ParserFacts.PrecedenceExample | parser.go:38-92 | `1+2*3` parses to 1+(2*3) |
| ParserFacts.PrecedenceFromText | parser.go:38-92 | the same, from the text of the line through the tokenizer |
| ParserFacts.DanglingOperatorExample | parser.go:168-170 | `1+` fails with UnexpectedToken EOF |
| ParserFacts.NestedSignalExample | parser.go:158-159 | `1+clear` stops with the Clear signal |
| ParserFacts.TrailingTokensExample | parser.go:52-65 | in `1 2`, the 1 is returned and the 2 is neither taken nor rejected |
| ParserFacts.UnclosedCallAtEndExample | parser.go:142-146 | `max(1, 2` is forgiven at the end of the line |
| ParserFacts.MaxArguments | parser.go:126-140 | the argument loop of `max(1, 2` gathers 1 and 2 in order |
| ParserFacts.UnclosedCallExample | parser.go:142-145 | `sqrt(1 2` fails with UnexpectedToken NUM |
| MainLoop.Respond | main.go:35-56 | an exiting line keeps the answer and writes nothing; a value written is the new answer; the answer changes only on a line that parsed |
| MainLoop.Start | main.go:12 | the last answer starts as NaN, with nothing written and the loop running |
| MainLoop.Step | main.go:28-56 | once the loop has ended nothing changes, and each event writes at most one output, after what was already written |
| MainLoop.Session.constructor | main.go:12 | a new session is in the start state |
| MainLoop.Session.HandleLine | main.go:35-56 | tokenizing, parsing and evaluating a line updates the answer, the output and the running flag exactly as Respond says |
| MainLoop.Session.Run | main.go:27-57 | the loop over the terminal's events ends in the state Replay gives |
| MainLoop.ClearKeepsAnswer | main.go:38-42 | `clear` writes the clear-screen output and keeps the last answer |
| MainLoop.ParseErrorKeepsAnswer | main.go:46-48 | any other parse error writes its message, runs no evaluation and keeps the last answer |
| MainLoop.ParsedLineSetsAnswer | main.go:51-56 | a parsed line replaces the last answer with Eval's value, even on failure, when it is zero; the value is written on success, the error's message on failure |
| MainLoop.ExitNeedsExitToken | main.go:43-45 | the program exits only on a line holding an `exit` token, and always on a line starting with one |
| MainLoop.FirstAnswerIsNaN | main.go:12 | `ans` on the first line evaluates to NaN |
| MainLoop.DanglingOperatorLine | main.go:46-48 | the line `1+` writes "unexpected token EOF" and keeps the last answer |
| MainLoop.LexAnswerKeyword | tokenizer.go:76-79 | the line `ans` lexes to the ANS keyword and EOF |
| MainLoop.ReadFailureChangesNothing | main.go:29-34 | a read error other than the end of input skips the line and changes nothing |
| MainLoop.StoppedStaysStopped | main.go:27-57 | after the end of input or an exit, further events change nothing |
| MainLoop.ReplayAppend | main.go:27-57 | handling events in two parts is handling them at once |
| MainLoop.TranscriptGrows | main.go:27-57 | what has been written stays written, and each event adds at most one output |
| MainLoop.AnswerChangesOnlyOnLines | main.go:27-57 | only events that are lines change the last answer; read errors and the end of input never do |

## Left out

- Concurrency: the goroutine and buffered channel of `Tokenize` (tokenizer.go:33-35) are not modelled.
  - The scanner returns the sequence of tokens it would send.
  - The parser reads that sequence through a position.
  - A receive on the closed channel after EOF yields the zero token. The lookahead past the end of the sequence plays that role: kind `NoToken`, no text.
- Parsing.Parser: keeps its tokens as an immutable sequence with a position field, not an array. What `Eat` and `NextToken` do is the same.
- Parsing.Parser.Expression: when parsing fails, the position the parser was left at is not stated. Every caller discards the parser on an error.
- The terminal, which `MainLoop` reduces to events and outputs:
  - raw mode, `term.NewTerminal` and `term.Restore`;
  - the bytes of the clear-screen sequence;
  - `os.Exit` (main.go:15-26, 41, 44-45, 58-59);
  - the newline printed after the loop ends.
- MainLoop.Respond: an exit is a flag that ends the loop, not a process exit.
- Floating point: float64 arithmetic, the `math` functions, `math.Pi`, `math.E`, `math.NaN()` and zero are fields of the `Float64` record. No IEEE-754 property is used or proved.
- Parsing.ParseMessage: `strconv.ParseFloat` is the record's `parseFloat`, which returns `None` where Go returns an error.
  - The error is reported as `BadNumber` with the text Go prints for a range error.
  - A NUM token's text is a digit run with at most one dot, so a range error is the only failure it can have.
- Message formatting:
  - `fmt.Sprintf` and `fmt.Errorf` messages are built as strings with the same words.
  - Values printed by `Fprintln` are kept as values, not as their decimal text.
- Character classes: `unicode.IsSpace`, `IsDigit` and `IsLetter` are applied to single bytes read as Latin-1 code points, which is what `rune(input[i])` gives.
  - Multi-byte UTF-8 input is seen byte by byte.
  - Go does the same, so nothing is lost.
- Ast.MinDropsSecondError: `min` evaluating its second argument first and discarding that argument's error is kept as written (ast.go:158-165).
