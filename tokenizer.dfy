/** The scanner of tokenizer.go: token kinds, the byte classes it tests,
    a reference definition of the token sequence of a line (Lex), the
    index-advancing scanner itself (Tokenize) proved equal to it, and the
    properties of Lex. */
module Tokenizer {
  import opened Wrappers

  /** One byte of the line. Go indexes the input string by byte and
      classifies `rune(input[i])`, so every byte is read as the Latin-1
      code point of the same value. */
  type Byte = c: char | c as int < 0x100

  /** TokenType (tokenizer.go:14-30). NoToken is the zero TokenType "",
      which is what a receive on the token channel yields once it has been
      closed after EOF. */
  datatype Kind =
    | PLUS | MINUS | MUL | DIV | LPAREN | RPAREN | COMMA
    | NUM | IDENTIFIER | EOF | ANS | CLEAR | EXIT | PI | E
    | NoToken

  datatype Token = Token(kind: Kind, value: seq<Byte>)

  /** The string a TokenType holds, as used in error messages: empty only
      for the zero TokenType. */
  function KindName(k: Kind): (name: string)
    ensures name == [] <==> k == NoToken
  {
    match k
    case PLUS => "PLUS"
    case MINUS => "MINUS"
    case MUL => "MUL"
    case DIV => "DIV"
    case LPAREN => "LPAREN"
    case RPAREN => "RPAREN"
    case COMMA => "COMMA"
    case NUM => "NUM"
    case IDENTIFIER => "IDENTIFIER"
    case EOF => "EOF"
    case ANS => "ANS"
    case CLEAR => "CLEAR"
    case EXIT => "EXIT"
    case PI => "PI"
    case E => "E"
    case NoToken => ""
  }

  // Go's unicode.IsSpace, unicode.IsDigit and unicode.IsLetter restricted
  // to the code points 0 through 0xFF, which are all a byte can be.

  predicate IsSpace(c: Byte) {
    var n := c as int;
    (0x09 <= n <= 0x0D) || n == 0x20 || n == 0x85 || n == 0xA0
  }

  predicate IsDigit(c: Byte) {
    '0' <= c <= '9'
  }

  predicate IsLetter(c: Byte) {
    var n := c as int;
    ('A' <= c <= 'Z') || ('a' <= c <= 'z')
    || n == 0xAA || n == 0xB5 || n == 0xBA
    || (0xC0 <= n <= 0xD6) || (0xD8 <= n <= 0xF6) || (0xF8 <= n <= 0xFF)
  }

  /** The seven single-byte operators (tokenizer.go:94-109). */
  function OperatorKind(c: Byte): (k: Option<Kind>)
    ensures k.Some? <==> c in {'+', '-', '(', ')', '*', '/', ','}
    ensures k.Some? ==> k.value in {PLUS, MINUS, LPAREN, RPAREN, MUL, DIV, COMMA}
    ensures k.Some? ==> Spelling(Token(k.value, [])) == [c]
  {
    match c
    case '+' => Some(PLUS)
    case '-' => Some(MINUS)
    case '(' => Some(LPAREN)
    case ')' => Some(RPAREN)
    case '*' => Some(MUL)
    case '/' => Some(DIV)
    case ',' => Some(COMMA)
    case _ => None
  }

  /** A byte that ends up inside some token. */
  predicate IsTokenByte(c: Byte) {
    IsDigit(c) || IsLetter(c) || OperatorKind(c).Some?
  }

  function Dots(s: seq<Byte>): nat {
    if s == [] then 0 else (if s[0] == '.' then 1 else 0) + Dots(s[1..])
  }

  lemma {:induction false} DotsAppend(s: seq<Byte>, t: seq<Byte>)
    ensures Dots(s + t) == Dots(s) + Dots(t)
  {
    if s == [] {
      assert s + t == t;
    } else {
      assert (s + t)[1..] == s[1..] + t;
      assert (s + t)[0] == s[0];
      DotsAppend(s[1..], t);
    }
  }

  /** End of the digit run the number loop scans from i (tokenizer.go:48-59):
      digits are taken, and one '.' as long as none has been taken yet. */
  function NumberEnd(s: seq<Byte>, i: nat, hasDot: bool): (j: nat)
    requires i <= |s|
    ensures i <= j <= |s|
    ensures i < |s| && IsDigit(s[i]) ==> i < j
    decreases |s| - i
  {
    if i < |s| && IsDigit(s[i]) then NumberEnd(s, i + 1, hasDot)
    else if i < |s| && s[i] == '.' && !hasDot then NumberEnd(s, i + 1, true)
    else i
  }

  /** The run NumberEnd delimits holds only digits and dots, at most one
      dot in all, and cannot be extended: the next byte is no digit, and no
      dot unless the run already has one. */
  lemma {:induction false} NumberRun(s: seq<Byte>, i: nat, hasDot: bool)
    requires i <= |s|
    ensures var j := NumberEnd(s, i, hasDot);
      (forall k | i <= k < j :: IsDigit(s[k]) || s[k] == '.')
      && Dots(s[i..j]) <= (if hasDot then 0 else 1)
      && (j == |s| || (!IsDigit(s[j]) && (s[j] != '.' || hasDot || Dots(s[i..j]) == 1)))
    decreases |s| - i
  {
    var j := NumberEnd(s, i, hasDot);
    if i < |s| && (IsDigit(s[i]) || (s[i] == '.' && !hasDot)) {
      var d := hasDot || s[i] == '.';
      NumberRun(s, i + 1, d);
      assert s[i..j] == [s[i]] + s[i + 1..j];
      DotsAppend([s[i]], s[i + 1..j]);
    } else {
      assert s[i..j] == [];
    }
  }

  /** End of the letter run the letter loop scans from i (tokenizer.go:67-75). */
  function WordEnd(s: seq<Byte>, i: nat): (j: nat)
    requires i <= |s|
    ensures i <= j <= |s|
    ensures i < |s| && IsLetter(s[i]) ==> i < j
    ensures forall k | i <= k < j :: IsLetter(s[k])
    ensures j == |s| || !IsLetter(s[j])
    decreases |s| - i
  {
    if i < |s| && IsLetter(s[i]) then WordEnd(s, i + 1) else i
  }

  predicate IsKeyword(w: seq<Byte>) {
    w == "ans" || w == "exit" || w == "clear" || w == "pi" || w == "e"
  }

  /** The token a letter run becomes (tokenizer.go:76-90). */
  function WordToken(w: seq<Byte>): (t: Token)
    ensures IsKeyword(w) <==> t.kind in {ANS, EXIT, CLEAR, PI, E}
    ensures IsKeyword(w) ==> t.value == []
    ensures !IsKeyword(w) ==> t == Token(IDENTIFIER, w)
  {
    if w == "ans" then Token(ANS, [])
    else if w == "exit" then Token(EXIT, [])
    else if w == "clear" then Token(CLEAR, [])
    else if w == "pi" then Token(PI, [])
    else if w == "e" then Token(E, [])
    else Token(IDENTIFIER, w)
  }

  /** What one pass of the outer scan loop does at index i
      (tokenizer.go:39-110): the token it emits, if any, and the index it
      moves on to. */
  datatype Scanned = Scanned(token: Option<Token>, next: nat)

  function ScanAt(s: seq<Byte>, i: nat): (r: Scanned)
    requires i < |s|
    ensures i < r.next <= |s|
  {
    if IsSpace(s[i]) then Scanned(None, i + 1)
    else if IsDigit(s[i]) then
      var j := NumberEnd(s, i, false);
      Scanned(Some(Token(NUM, s[i..j])), j)
    else if IsLetter(s[i]) then
      var j := WordEnd(s, i);
      Scanned(Some(WordToken(s[i..j])), j)
    else if OperatorKind(s[i]).Some? then
      Scanned(Some(Token(OperatorKind(s[i]).value, [])), i + 1)
    else
      Scanned(None, i + 1)
  }

  /** One pass of the scan loop either skips exactly one byte that
      belongs to no token, or emits one well-formed token spelled exactly
      by the bytes it moves over. */
  lemma ScanAtAccountsForBytes(s: seq<Byte>, i: nat)
    requires i < |s|
    ensures var r := ScanAt(s, i);
      (r.token.None? ==> r.next == i + 1 && !IsTokenByte(s[i]))
      && (r.token.Some? ==> Spelling(r.token.value) == s[i..r.next] && WellFormedToken(r.token.value))
  {
    if IsSpace(s[i]) {
    } else if IsDigit(s[i]) {
      NumberRun(s, i, false);
      var j := NumberEnd(s, i, false);
      assert ScanAt(s, i) == Scanned(Some(Token(NUM, s[i..j])), j);
      assert s[i..j][0] == s[i];
    } else if IsLetter(s[i]) {
      var j := WordEnd(s, i);
      assert ScanAt(s, i) == Scanned(Some(WordToken(s[i..j])), j);
      assert Spelling(WordToken(s[i..j])) == s[i..j];
    } else if OperatorKind(s[i]).Some? {
      assert s[i..i + 1] == [s[i]];
    }
  }

  /** The tokens the scanner emits from index i to the end of the line,
      the final EOF included: the reference definition of tokenizer.go:37-113. */
  function LexFrom(s: seq<Byte>, i: nat): seq<Token>
    requires i <= |s|
    decreases |s| - i
  {
    if i == |s| then [Token(EOF, [])]
    else
      var r := ScanAt(s, i);
      if r.token.Some? then [r.token.value] + LexFrom(s, r.next) else LexFrom(s, r.next)
  }

  function Lex(s: seq<Byte>): seq<Token> {
    LexFrom(s, 0)
  }

  /** The labelled loop numLoop (tokenizer.go:46-59): from a digit at
      start, advance over digits and the first '.'. */
  method ScanNumber(line: seq<Byte>, start: nat) returns (i: nat)
    requires start < |line| && IsDigit(line[start])
    ensures i == NumberEnd(line, start, false)
    ensures start < i <= |line|
  {
    i := start;
    var hasDot := false;
    while i < |line|
      invariant start <= i <= |line|
      invariant NumberEnd(line, i, hasDot) == NumberEnd(line, start, false)
      decreases |line| - i
    {
      var c := line[i];
      if IsDigit(c) {
        i := i + 1;
      } else if c == '.' && !hasDot {
        hasDot := true;
        i := i + 1;
      } else {
        break;
      }
    }
  }

  /** The labelled loop letterLoop (tokenizer.go:66-75): from a letter at
      start, advance over letters. */
  method ScanWord(line: seq<Byte>, start: nat) returns (i: nat)
    requires start < |line| && IsLetter(line[start])
    ensures i == WordEnd(line, start)
    ensures start < i <= |line|
  {
    i := start;
    while i < |line|
      invariant start <= i <= |line|
      invariant WordEnd(line, i) == WordEnd(line, start)
      decreases |line| - i
    {
      if IsLetter(line[i]) {
        i := i + 1;
      } else {
        break;
      }
    }
  }

  /** Tokenize (tokenizer.go:32-116): the outer scan loop, appending one
      token at a time, then the final EOF. */
  method Tokenize(line: seq<Byte>) returns (tokens: seq<Token>)
    ensures tokens == Lex(line)
  {
    tokens := [];
    var i := 0;
    while i < |line|
      invariant 0 <= i <= |line|
      invariant Lex(line) == tokens + LexFrom(line, i)
      decreases |line| - i
    {
      AppendStep(tokens, line, i);
      if IsSpace(line[i]) {
        i := i + 1;
      } else if IsDigit(line[i]) {
        var start := i;
        i := ScanNumber(line, start);
        tokens := tokens + [Token(NUM, line[start..i])];
      } else if IsLetter(line[i]) {
        var start := i;
        i := ScanWord(line, start);
        tokens := tokens + [WordToken(line[start..i])];
      } else {
        var op := OperatorKind(line[i]);
        if op.Some? {
          tokens := tokens + [Token(op.value, [])];
        }
        i := i + 1;
      }
    }
    tokens := tokens + [Token(EOF, [])];
  }

  /** One pass of the scan loop keeps the loop invariant of Tokenize. */
  lemma AppendStep(before: seq<Token>, s: seq<Byte>, i: nat)
    requires i < |s|
    ensures var r := ScanAt(s, i);
      before + LexFrom(s, i)
      == (if r.token.Some? then before + [r.token.value] else before) + LexFrom(s, r.next)
  {
  }

  // ---------------------------------------------------------------------
  // The shape of a token and the bytes it stands for

  /** The shape every emitted token has: a NUM is a digit followed by
      digits and at most one '.'; an IDENTIFIER is a non-empty letter run
      that is not a keyword; every other kind carries no text; EOF comes
      only at the end and the zero kind never. */
  predicate WellFormedToken(t: Token) {
    match t.kind
    case NUM =>
      |t.value| > 0 && IsDigit(t.value[0]) && Dots(t.value) <= 1
      && forall k | 0 <= k < |t.value| :: IsDigit(t.value[k]) || t.value[k] == '.'
    case IDENTIFIER =>
      |t.value| > 0 && !IsKeyword(t.value)
      && forall k | 0 <= k < |t.value| :: IsLetter(t.value[k])
    case EOF => false
    case NoToken => false
    case _ => t.value == []
  }

  /** The bytes a token stands for: its text for NUM and IDENTIFIER, the
      keyword for keywords, the operator byte otherwise. */
  function Spelling(t: Token): seq<Byte> {
    match t.kind
    case NUM => t.value
    case IDENTIFIER => t.value
    case ANS => "ans"
    case EXIT => "exit"
    case CLEAR => "clear"
    case PI => "pi"
    case E => "e"
    case PLUS => "+"
    case MINUS => "-"
    case LPAREN => "("
    case RPAREN => ")"
    case MUL => "*"
    case DIV => "/"
    case COMMA => ","
    case EOF => []
    case NoToken => []
  }

  function SpellAll(ts: seq<Token>): seq<Byte> {
    if ts == [] then [] else Spelling(ts[0]) + SpellAll(ts[1..])
  }

  /** The digits, letters and operator bytes of s, in order. */
  function TokenBytes(s: seq<Byte>): seq<Byte> {
    if s == [] then []
    else (if IsTokenByte(s[0]) then [s[0]] else []) + TokenBytes(s[1..])
  }

  lemma {:induction false} TokenBytesAppend(s: seq<Byte>, t: seq<Byte>)
    ensures TokenBytes(s + t) == TokenBytes(s) + TokenBytes(t)
  {
    if s == [] {
      assert s + t == t;
    } else {
      var head := if IsTokenByte(s[0]) then [s[0]] else [];
      assert (s + t)[1..] == s[1..] + t;
      assert TokenBytes(s + t) == head + TokenBytes(s[1..] + t);
      TokenBytesAppend(s[1..], t);
      assert TokenBytes(s) == head + TokenBytes(s[1..]);
    }
  }

  lemma {:induction false} SpellAllAppend(ts: seq<Token>, us: seq<Token>)
    ensures SpellAll(ts + us) == SpellAll(ts) + SpellAll(us)
  {
    if ts == [] {
      assert ts + us == us;
    } else {
      assert (ts + us)[1..] == ts[1..] + us;
      assert (ts + us)[0] == ts[0];
      SpellAllAppend(ts[1..], us);
    }
  }

  /** A NUM token is the whole digit run at its start: the byte after it
      is neither a digit nor a '.' it could still take, so a second '.'
      ends the token. */
  lemma NumberIsMaximal(s: seq<Byte>, i: nat)
    requires i < |s| && IsDigit(s[i])
    ensures var j := NumberEnd(s, i, false);
      LexFrom(s, i) == [Token(NUM, s[i..j])] + LexFrom(s, j)
      && Dots(s[i..j]) <= 1
      && (j == |s| || (!IsDigit(s[j]) && (s[j] != '.' || Dots(s[i..j]) == 1)))
  {
    NumberRun(s, i, false);
  }

  /** A letter run becomes its keyword token when it spells one of the
      five keywords exactly, and an IDENTIFIER carrying the run otherwise;
      the run is maximal. */
  lemma WordIsMaximal(s: seq<Byte>, i: nat)
    requires i < |s| && IsLetter(s[i])
    ensures var j := WordEnd(s, i);
      LexFrom(s, i) == [WordToken(s[i..j])] + LexFrom(s, j)
      && (j == |s| || !IsLetter(s[j]))
      && (s[i..j] == "ans" ==> WordToken(s[i..j]).kind == ANS)
      && (s[i..j] == "exit" ==> WordToken(s[i..j]).kind == EXIT)
      && (s[i..j] == "clear" ==> WordToken(s[i..j]).kind == CLEAR)
      && (s[i..j] == "pi" ==> WordToken(s[i..j]).kind == PI)
      && (s[i..j] == "e" ==> WordToken(s[i..j]).kind == E)
  {
  }

  // ---------------------------------------------------------------------
  // Properties of the whole token sequence

  /** The output ends with exactly one EOF, which carries no text, and no
      other token is EOF. */
  lemma {:induction false} LexEndsWithEof(s: seq<Byte>, i: nat)
    requires i <= |s|
    ensures |LexFrom(s, i)| >= 1
    ensures LexFrom(s, i)[|LexFrom(s, i)| - 1] == Token(EOF, [])
    ensures forall k | 0 <= k < |LexFrom(s, i)| - 1 :: LexFrom(s, i)[k].kind != EOF
    decreases |s| - i
  {
    if i < |s| {
      LexEndsWithEof(s, ScanAt(s, i).next);
    }
  }

  /** At most one token per byte, plus the EOF. */
  lemma {:induction false} LexLength(s: seq<Byte>, i: nat)
    requires i <= |s|
    ensures |LexFrom(s, i)| <= |s| - i + 1
    decreases |s| - i
  {
    if i < |s| {
      LexLength(s, ScanAt(s, i).next);
    }
  }

  /** Every token before the EOF is well formed. */
  lemma {:induction false} LexWellFormed(s: seq<Byte>, i: nat)
    requires i <= |s|
    ensures forall k | 0 <= k < |LexFrom(s, i)| - 1 :: WellFormedToken(LexFrom(s, i)[k])
    decreases |s| - i
  {
    if i < |s| {
      ScanAtAccountsForBytes(s, i);
      LexWellFormed(s, ScanAt(s, i).next);
    }
  }

  /** Spelling the tokens back out gives the line's digits, letters and
      operator bytes, in order. Dots are left out on both sides here;
      LexDropsOnlySkippedBytes below accounts for them too. */
  lemma {:induction false} LexAccountsForEveryByte(s: seq<Byte>, i: nat)
    requires i <= |s|
    ensures TokenBytes(SpellAll(LexFrom(s, i))) == TokenBytes(s[i..])
    decreases |s| - i
  {
    if i == |s| {
      assert SpellAll([Token(EOF, [])]) == [];
    } else {
      var r := ScanAt(s, i);
      var j := r.next;
      ScanAtAccountsForBytes(s, i);
      LexAccountsForEveryByte(s, j);
      assert s[i..] == s[i..j] + s[j..];
      TokenBytesAppend(s[i..j], s[j..]);
      if r.token.Some? {
        var t := r.token.value;
        SpellAllAppend([t], LexFrom(s, j));
        assert SpellAll([t]) == Spelling(t);
        TokenBytesAppend(Spelling(t), SpellAll(LexFrom(s, j)));
      } else {
        assert s[i..j] == [s[i]];
        assert TokenBytes(s[i..j]) == [];
      }
    }
  }

  /** out is s with some bytes that belong to no token taken out, and
      nothing else changed: every byte of out is the next byte of s, and
      only non-token bytes of s are passed over. */
  predicate DropsOnly(out: seq<Byte>, s: seq<Byte>)
    decreases |s|
  {
    if s == [] then out == []
    else
      (out != [] && out[0] == s[0] && DropsOnly(out[1..], s[1..]))
      || (!IsTokenByte(s[0]) && DropsOnly(out, s[1..]))
  }

  lemma {:induction false} DropsOnlyPrefix(u: seq<Byte>, out: seq<Byte>, s: seq<Byte>)
    requires DropsOnly(out, s)
    ensures DropsOnly(u + out, u + s)
    decreases |u|
  {
    if u == [] {
      assert u + out == out && u + s == s;
    } else {
      DropsOnlyPrefix(u[1..], out, s);
      assert (u + out)[0] == u[0] == (u + s)[0];
      assert (u + out)[1..] == u[1..] + out;
      assert (u + s)[1..] == u[1..] + s;
    }
  }

  /** Every byte is accounted for, dots included: spelling the tokens back
      out gives the line with exactly the skipped bytes (whitespace and
      bytes outside the token alphabet, a stray '.' among them) taken out. */
  lemma {:induction false} LexDropsOnlySkippedBytes(s: seq<Byte>, i: nat)
    requires i <= |s|
    ensures DropsOnly(SpellAll(LexFrom(s, i)), s[i..])
    decreases |s| - i
  {
    if i == |s| {
      assert SpellAll([Token(EOF, [])]) == [];
    } else {
      var r := ScanAt(s, i);
      var j := r.next;
      ScanAtAccountsForBytes(s, i);
      LexDropsOnlySkippedBytes(s, j);
      assert s[i..] == s[i..j] + s[j..];
      if r.token.Some? {
        var t := r.token.value;
        SpellAllAppend([t], LexFrom(s, j));
        assert SpellAll([t]) == Spelling(t);
        DropsOnlyPrefix(s[i..j], SpellAll(LexFrom(s, j)), s[j..]);
      } else {
        assert s[i..][1..] == s[j..];
      }
    }
  }

  /** A '.' that starts no number is one of the skipped bytes. */
  lemma StrayDotExample()
    ensures Lex(".5") == [Token(NUM, "5"), Token(EOF, [])]
  {
    var s: seq<Byte> := ".5";
    assert NumberEnd(s, 1, false) == 2;
    assert ScanAt(s, 1) == Scanned(Some(Token(NUM, s[1..2])), 2);
    assert s[1..2] == "5";
  }

  /** The names of the token kinds are pairwise different, so the kind an
      error message names is the kind that caused it. */
  lemma KindNamesDistinct(a: Kind, b: Kind)
    ensures KindName(a) == KindName(b) ==> a == b
  {
  }

  /** The spelled-out tokens hold nothing but token bytes and dots: no
      whitespace and no byte outside the token alphabet reaches a token. */
  lemma {:induction false} LexSpellsOnlyTokenBytes(s: seq<Byte>, i: nat)
    requires i <= |s|
    ensures forall k | 0 <= k < |SpellAll(LexFrom(s, i))| ::
      IsTokenByte(SpellAll(LexFrom(s, i))[k]) || SpellAll(LexFrom(s, i))[k] == '.'
    decreases |s| - i
  {
    if i == |s| {
      assert SpellAll([Token(EOF, [])]) == [];
    } else {
      var r := ScanAt(s, i);
      ScanAtAccountsForBytes(s, i);
      LexSpellsOnlyTokenBytes(s, r.next);
      if r.token.Some? {
        var t := r.token.value;
        SpellAllAppend([t], LexFrom(s, r.next));
        assert SpellAll([t]) == Spelling(t);
        SpelledTokenBytes(t);
      }
    }
  }

  lemma SpelledTokenBytes(t: Token)
    requires WellFormedToken(t)
    ensures forall k | 0 <= k < |Spelling(t)| :: IsTokenByte(Spelling(t)[k]) || Spelling(t)[k] == '.'
  {
  }

  // ---------------------------------------------------------------------
  // Examples

  lemma LexExampleSum()
    ensures Lex("1+2*3") ==
      [Token(NUM, "1"), Token(PLUS, []), Token(NUM, "2"), Token(MUL, []), Token(NUM, "3"), Token(EOF, [])]
  {
    var s: seq<Byte> := "1+2*3";
    assert NumberEnd(s, 4, false) == 5;
    assert ScanAt(s, 4) == Scanned(Some(Token(NUM, s[4..5])), 5);
    assert s[4..5] == "3";
    assert NumberEnd(s, 2, false) == 3;
    assert ScanAt(s, 2) == Scanned(Some(Token(NUM, s[2..3])), 3);
    assert s[2..3] == "2";
    assert NumberEnd(s, 0, false) == 1;
    assert ScanAt(s, 0) == Scanned(Some(Token(NUM, s[0..1])), 1);
    assert s[0..1] == "1";
  }

  lemma LexExampleDangling()
    ensures Lex("1+") == [Token(NUM, "1"), Token(PLUS, []), Token(EOF, [])]
  {
    var s: seq<Byte> := "1+";
    assert NumberEnd(s, 0, false) == 1;
    assert ScanAt(s, 0) == Scanned(Some(Token(NUM, s[0..1])), 1);
    assert s[0..1] == "1";
  }

  /** A second '.' ends a number: "1.2.3" gives NUM "1.2" and NUM "3". */
  lemma LexExampleTwoDots()
    ensures Lex("1.2.3") == [Token(NUM, "1.2"), Token(NUM, "3"), Token(EOF, [])]
  {
    var s: seq<Byte> := "1.2.3";
    assert NumberEnd(s, 4, false) == 5;
    assert ScanAt(s, 4) == Scanned(Some(Token(NUM, s[4..5])), 5);
    assert s[4..5] == "3";
    assert NumberEnd(s, 3, true) == 3;
    assert NumberEnd(s, 0, false) == 3;
    assert ScanAt(s, 0) == Scanned(Some(Token(NUM, s[0..3])), 3);
    assert s[0..3] == "1.2";
  }
}
