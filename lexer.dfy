/** What the scanner computes, as functions of the source text: one scanning step
    from a start index, and the whole scan as the fold of these steps. The class in
    scanning.dfy is proved to compute exactly this. */
module Lexer {
  import opened Tokens
  import opened Reporting

  predicate IsDigit(c: char) { '0' <= c <= '9' }
  predicate IsAlpha(c: char) { ('a' <= c <= 'z') || ('A' <= c <= 'Z') || c == '_' }
  predicate IsAlphaNumeric(c: char) { IsAlpha(c) || IsDigit(c) }
  predicate NotNewline(c: char) { c != '\n' }
  predicate NotQuote(c: char) { c != '"' }
  predicate IsBlank(c: char) { c == ' ' || c == '\r' || c == '\t' || c == '\n' }

  /** The keyword table. */
  const Keywords: map<string, TokenType> :=
    map["and" := And, "else" := Else, "false" := False, "for" := For, "fun" := Fun,
        "if" := If, "null" := Null, "or" := Or, "print" := Print, "return" := Return,
        "true" := True, "var" := Var, "while" := While]

  /** The kind of an identifier-shaped word: its keyword, or IDENTIFIER. */
  function WordKind(text: string): (k: TokenType)
    ensures k != EOF
    ensures text in Keywords ==> k == Keywords[text]
    ensures text !in Keywords ==> k == Identifier
  {
    if text in Keywords then Keywords[text] else Identifier
  }

  /** The character at `i`, or '\0' past the end (the scanner's peek and peekNext). */
  function CharAt(src: string, i: nat): char
  {
    if i < |src| then src[i] else '\0'
  }

  /** The end of the longest run of characters satisfying `p` that starts at `i`. */
  function SkipWhile(src: string, i: nat, p: char -> bool): (j: nat)
    requires i <= |src|
    ensures i <= j <= |src|
    ensures forall k :: i <= k < j ==> p(src[k])
    ensures j == |src| || !p(src[j])
    decreases |src| - i
  {
    if i < |src| && p(src[i]) then SkipWhile(src, i + 1, p) else i
  }

  /** The end of a number whose first digit is just before `i`: more digits, then
      optionally a '.' that is followed by a digit and the digits after it. */
  function NumberEnd(src: string, i: nat): (j: nat)
    requires i <= |src|
  {
    var d := SkipWhile(src, i, IsDigit);
    if CharAt(src, d) == '.' && IsDigit(CharAt(src, d + 1)) then SkipWhile(src, d + 1, IsDigit) else d
  }

  /** The number of newlines in `src[i..j]`. */
  function NewlinesIn(src: string, i: nat, j: nat): nat
    requires i <= j <= |src|
    decreases j - i
  {
    if i == j then 0 else NewlinesIn(src, i, j - 1) + (if src[j - 1] == '\n' then 1 else 0)
  }

  function DigitsValue(s: string): nat
  {
    if s == [] then 0
    else DigitsValue(s[..|s| - 1]) * 10 + (if IsDigit(s[|s| - 1]) then s[|s| - 1] as int - '0' as int else 0)
  }

  function Pow10(n: nat): (p: nat)
    ensures p > 0
  {
    if n == 0 then 1 else 10 * Pow10(n - 1)
  }

  predicate AllDigits(s: string)
  {
    forall k :: 0 <= k < |s| ==> IsDigit(s[k])
  }

  /** A run of `n` digits has a value below 10^n. */
  lemma {:induction false} DigitsBelow(s: string)
    ensures AllDigits(s) ==> DigitsValue(s) < Pow10(|s|)
  {
    if s != [] && AllDigits(s) {
      var init := s[..|s| - 1];
      assert forall k :: 0 <= k < |init| ==> IsDigit(init[k]);
      DigitsBelow(init);
    }
  }

  /** A whole part plus a fraction of digits lies between the whole part and the next integer. */
  lemma FractionBounds(whole: nat, fraction: string)
    ensures var v := whole as real + DigitsValue(fraction) as real / Pow10(|fraction|) as real;
      whole as real <= v && (AllDigits(fraction) ==> v < whole as real + 1.0)
  {
    DigitsBelow(fraction);
    QuotientBounds(DigitsValue(fraction) as real, Pow10(|fraction|) as real);
  }

  lemma QuotientBounds(n: real, p: real)
    requires 0.0 <= n && 0.0 < p
    ensures 0.0 <= n / p
    ensures n < p ==> n / p < 1.0
  {
    var q := n / p;
    assert q * p == n;
    assert q < 0.0 ==> q * p < 0.0;
    assert n < p && q >= 1.0 ==> q * p >= p;
  }

  /** The exact decimal value of a number lexeme (the host's rounding to a double is not modelled). */
  function DecimalValue(text: string): (v: real)
    ensures var d := SkipWhile(text, 0, IsDigit);
      && DigitsValue(text[..d]) as real <= v
      && (d == |text| ==> v == DigitsValue(text) as real)
      && (d == |text| || AllDigits(text[d + 1..]) ==> v < DigitsValue(text[..d]) as real + 1.0)
  {
    var d := SkipWhile(text, 0, IsDigit);
    if d < |text| then
      var fraction := text[d + 1..];
      FractionBounds(DigitsValue(text[..d]), fraction);
      DigitsValue(text[..d]) as real + DigitsValue(fraction) as real / Pow10(|fraction|) as real
    else
      assert text[..d] == text;
      DigitsValue(text) as real
  }

  /** The outcome of one scanning step: where the cursor stops, the line counter after
      the step, and the token or the error the step produced. */
  datatype Step = Step(next: nat, line: nat, token: Option<Token>, error: Option<Diagnostic>)

  /** What every step promises: the cursor moves forward and stays inside the text, the
      line counter grows by the newlines consumed (those inside a string literal too), and
      a token has the consumed text as its lexeme, the current line, is never the end-of-file
      token and comes without an error. */
  ghost predicate StepWellFormed(src: string, start: nat, line: nat, s: Step)
  {
    && start < s.next <= |src|
    && s.line == line + NewlinesIn(src, start, s.next)
    && (s.token.Some? ==>
          && s.token.value.lexeme == src[start..s.next]
          && s.token.value.kind != EOF
          && s.token.value.line == s.line
          && s.error.None?)
  }

  lemma {:induction false} NewlinesSplit(src: string, i: nat, j: nat, k: nat)
    requires i <= j <= k <= |src|
    ensures NewlinesIn(src, i, k) == NewlinesIn(src, i, j) + NewlinesIn(src, j, k)
    decreases k - j
  {
    if j < k {
      NewlinesSplit(src, i, j, k - 1);
    }
  }

  lemma {:induction false} NoNewlines(src: string, i: nat, j: nat)
    requires i <= j <= |src|
    requires forall k :: i <= k < j ==> src[k] != '\n'
    ensures NewlinesIn(src, i, j) == 0
    decreases j - i
  {
    if i < j {
      NoNewlines(src, i, j - 1);
    }
  }

  /** A token of the consumed text `src[start..next]`, which holds no newline. */
  function Emit(src: string, start: nat, next: nat, line: nat, kind: TokenType, literal: LiteralValue): (s: Step)
    requires start < next <= |src| && kind != EOF
    requires forall k :: start <= k < next ==> src[k] != '\n'
    ensures StepWellFormed(src, start, line, s)
  {
    NoNewlines(src, start, next);
    Step(next, line, Some(Token(kind, src[start..next], literal, line)), None)
  }

  /** A one-character token. */
  function Single(src: string, start: nat, line: nat, kind: TokenType): (s: Step)
    requires start < |src| && src[start] != '\n' && kind != EOF
    ensures StepWellFormed(src, start, line, s)
    ensures s == Step(start + 1, line, Some(Token(kind, [src[start]], NullLit, line)), None)
  {
    assert src[start..start + 1] == [src[start]];
    Emit(src, start, start + 1, line, kind, NullLit)
  }

  /** '!', '=', '<' or '>': a two-character token when followed by '='. */
  function OneOrTwo(src: string, start: nat, line: nat, one: TokenType, two: TokenType): (s: Step)
    requires start < |src| && src[start] != '\n' && one != EOF && two != EOF
    ensures StepWellFormed(src, start, line, s)
  {
    if start + 1 < |src| && src[start + 1] == '=' then Emit(src, start, start + 2, line, two, NullLit)
    else Single(src, start, line, one)
  }

  /** '/': a line comment when followed by '/', which stops before the next newline;
      otherwise SLASH. */
  function SlashOrComment(src: string, start: nat, line: nat): (s: Step)
    requires start < |src| && src[start] == '/'
    ensures StepWellFormed(src, start, line, s)
    ensures CharAt(src, start + 1) == '/' ==> s.token.None? && s.error.None? && s.line == line
    ensures CharAt(src, start + 1) != '/' ==> s.next == start + 1 && s.token.Some? && s.token.value.kind == Slash
  {
    if start + 1 < |src| && src[start + 1] == '/' then
      var j := SkipWhile(src, start + 2, NotNewline);
      NoNewlines(src, start, j);
      Step(j, line, None, None)
    else Single(src, start, line, Slash)
  }

  /** A blank, or a newline that counts one line. */
  function Blank(src: string, start: nat, line: nat): (s: Step)
    requires start < |src| && IsBlank(src[start])
    ensures StepWellFormed(src, start, line, s)
  {
    Step(start + 1, if src[start] == '\n' then line + 1 else line, None, None)
  }

  /** A string literal: its value is the text up to the next '"'; without one it is an
      error reported at the line where the text ends. */
  function StringLiteral(src: string, start: nat, line: nat): (s: Step)
    requires start < |src| && src[start] == '"'
    ensures StepWellFormed(src, start, line, s)
  {
    var j := SkipWhile(src, start + 1, NotQuote);
    var l := line + NewlinesIn(src, start + 1, j);
    LiteralLines(src, start, j);
    if j == |src| then Step(j, l, None, Some(ErrorAtLine(l, "Unterminated string.")))
    else Step(j + 1, l, Some(Token(String, src[start..j + 1], StrLit(src[start + 1..j]), l)), None)
  }

  lemma LiteralLines(src: string, start: nat, j: nat)
    requires start < j <= |src| && src[start] == '"'
    ensures NewlinesIn(src, start, j) == NewlinesIn(src, start + 1, j)
  {
    NewlinesSplit(src, start, start + 1, j);
  }

  /** A number: digits, then '.' and digits when a digit follows the '.'. */
  function NumberLiteral(src: string, start: nat, line: nat): (s: Step)
    requires start < |src| && IsDigit(src[start])
    ensures StepWellFormed(src, start, line, s)
  {
    var d := SkipWhile(src, start + 1, IsDigit);
    var j := NumberEnd(src, start + 1);
    assert forall k :: start <= k < d ==> IsDigit(src[k]);
    Emit(src, start, j, line, Number, NumLit(DecimalValue(src[start..j])))
  }

  /** An identifier or a keyword: letters, digits and '_' after a letter or '_'. */
  function Word(src: string, start: nat, line: nat): (s: Step)
    requires start < |src| && IsAlpha(src[start])
    ensures StepWellFormed(src, start, line, s)
  {
    var j := SkipWhile(src, start + 1, IsAlphaNumeric);
    Emit(src, start, j, line, WordKind(src[start..j]), NullLit)
  }

  /** A character that starts no token: a digit starts a number, a letter or '_' an
      identifier, and anything else is reported as unexpected and skipped. */
  function OtherChar(src: string, start: nat, line: nat): (s: Step)
    requires start < |src| && src[start] !in "(){},-+;*!=<>/ \r\t\n\""
    ensures StepWellFormed(src, start, line, s)
  {
    if IsDigit(src[start]) then NumberLiteral(src, start, line)
    else if IsAlpha(src[start]) then Word(src, start, line)
    else Step(start + 1, line, None, Some(ErrorAtLine(line, "Unexpected character.")))
  }

  /** One scanning step from `start`, with `line` the current line counter. */
  function ScanToken(src: string, start: nat, line: nat): (s: Step)
    requires start < |src|
    ensures StepWellFormed(src, start, line, s)
  {
    match src[start]
    case '(' => Single(src, start, line, LeftParen)
    case ')' => Single(src, start, line, RightParen)
    case '{' => Single(src, start, line, LeftBrace)
    case '}' => Single(src, start, line, RightBrace)
    case ',' => Single(src, start, line, Comma)
    case '-' => Single(src, start, line, Minus)
    case '+' => Single(src, start, line, Plus)
    case ';' => Single(src, start, line, Semicolon)
    case '*' => Single(src, start, line, Star)
    case '!' => OneOrTwo(src, start, line, Bang, BangEqual)
    case '=' => OneOrTwo(src, start, line, Equal, EqualEqual)
    case '<' => OneOrTwo(src, start, line, Less, LessEqual)
    case '>' => OneOrTwo(src, start, line, Greater, GreaterEqual)
    case '/' => SlashOrComment(src, start, line)
    case ' ' | '\r' | '\t' | '\n' => Blank(src, start, line)
    case '"' => StringLiteral(src, start, line)
    case _ => OtherChar(src, start, line)
  }

  /** The scan loop from cursor `cur`: the tokens and errors so far are extended by each
      step, and the end-of-file token is added when the cursor reaches the end. */
  function ScanFrom(src: string, cur: nat, line: nat, tokens: seq<Token>, errors: seq<Diagnostic>)
    : (seq<Token>, seq<Diagnostic>)
    requires cur <= |src|
    decreases |src| - cur
  {
    if cur == |src| then (tokens + [Token(EOF, "", NullLit, line)], errors)
    else
      var s := ScanToken(src, cur, line);
      ScanFrom(src, s.next, s.line, tokens + OptionToSeq(s.token), errors + OptionToSeq(s.error))
  }

  /** The scanner's result for a whole source text: tokens and lexical errors. */
  function Scan(src: string): (r: (seq<Token>, seq<Diagnostic>))
    ensures |r.0| >= 1 && r.0[|r.0| - 1].kind == EOF
  {
    ScanFromLast(src, 0, 1, [], []);
    ScanFrom(src, 0, 1, [], [])
  }

  // ---------------------------------------------------------------------------
  // Properties of one step

  /** '!', '=', '<' and '>' followed by '=' make one two-character token; otherwise the
      one-character token. */
  lemma TwoCharOperators(src: string, start: nat, line: nat)
    requires start < |src| && src[start] in {'!', '=', '<', '>'}
    ensures var s := ScanToken(src, start, line);
      var c := src[start];
      var one := if c == '!' then Bang else if c == '=' then Equal else if c == '<' then Less else Greater;
      var two := if c == '!' then BangEqual else if c == '=' then EqualEqual else if c == '<' then LessEqual else GreaterEqual;
      && s.error.None? && s.token.Some? && s.line == line
      && (CharAt(src, start + 1) == '=' ==> s.next == start + 2 && s.token.value.kind == two)
      && (CharAt(src, start + 1) != '=' ==> s.next == start + 1 && s.token.value.kind == one)
  {
  }

  /** The nine one-character tokens of the switch: one character consumed, the token of
      its kind with that character as lexeme, on the current line. A '.' is not among
      them and is an unexpected character. */
  lemma SingleCharacters(src: string, start: nat, line: nat)
    requires start < |src|
    ensures var c := src[start]; var s := ScanToken(src, start, line);
      && (c == '(' ==> s == Step(start + 1, line, Some(Token(LeftParen, "(", NullLit, line)), None))
      && (c == ')' ==> s == Step(start + 1, line, Some(Token(RightParen, ")", NullLit, line)), None))
      && (c == '{' ==> s == Step(start + 1, line, Some(Token(LeftBrace, "{", NullLit, line)), None))
      && (c == '}' ==> s == Step(start + 1, line, Some(Token(RightBrace, "}", NullLit, line)), None))
      && (c == ',' ==> s == Step(start + 1, line, Some(Token(Comma, ",", NullLit, line)), None))
      && (c == '-' ==> s == Step(start + 1, line, Some(Token(Minus, "-", NullLit, line)), None))
      && (c == '+' ==> s == Step(start + 1, line, Some(Token(Plus, "+", NullLit, line)), None))
      && (c == ';' ==> s == Step(start + 1, line, Some(Token(Semicolon, ";", NullLit, line)), None))
      && (c == '*' ==> s == Step(start + 1, line, Some(Token(Star, "*", NullLit, line)), None))
      && (c == '.' ==> s == Step(start + 1, line, None, Some(ErrorAtLine(line, "Unexpected character."))))
  {
  }

  /** "//" produces nothing and stops at the next newline, which it does not consume;
      a lone '/' is the SLASH token. */
  lemma Comments(src: string, start: nat, line: nat)
    requires start < |src| && src[start] == '/'
    ensures var s := ScanToken(src, start, line);
      if CharAt(src, start + 1) == '/' then
        && s.token.None? && s.error.None? && s.line == line
        && start + 2 <= s.next
        && (forall k :: start + 2 <= k < s.next ==> src[k] != '\n')
        && (s.next == |src| || src[s.next] == '\n')
      else
        s.token.Some? && s.token.value.kind == Slash && s.next == start + 1
  {
  }

  /** Blanks produce nothing; a newline produces nothing and counts one line. */
  lemma Whitespace(src: string, start: nat, line: nat)
    requires start < |src| && IsBlank(src[start])
    ensures var s := ScanToken(src, start, line);
      && s.token.None? && s.error.None? && s.next == start + 1
      && s.line == (if src[start] == '\n' then line + 1 else line)
  {
  }

  /** An identifier is the longest run of letters, digits and '_' that starts with a
      letter or '_'; its kind is the keyword it spells, or IDENTIFIER. */
  lemma Identifiers(src: string, start: nat, line: nat)
    requires start < |src| && IsAlpha(src[start])
    ensures var s := ScanToken(src, start, line);
      var text := src[start..s.next];
      && s.token.Some? && s.error.None?
      && (forall k :: start <= k < s.next ==> IsAlphaNumeric(src[k]))
      && (s.next == |src| || !IsAlphaNumeric(src[s.next]))
      && s.token.value.kind == (if text in Keywords then Keywords[text] else Identifier)
      && s.token.value.literal == NullLit
  {
    var c := src[start];
    assert c !in "(){},-+;*!=<>/ \r\t\n\"";
  }

  /** A number is a maximal digit run, then optionally '.' and at least one digit; a '.'
      without a digit after it is not consumed. */
  lemma Numbers(src: string, start: nat, line: nat)
    requires start < |src| && IsDigit(src[start])
    ensures var s := ScanToken(src, start, line);
      && s.token.Some? && s.error.None? && s.token.value.kind == Number
      && s.token.value.literal == NumLit(DecimalValue(src[start..s.next]))
      && exists d :: start < d <= s.next && NumberShape(src, start, d, s.next)
  {
    var c := src[start];
    assert c !in "(){},-+;*!=<>/ \r\t\n\"";
    assert ScanToken(src, start, line) == OtherChar(src, start, line);
    assert OtherChar(src, start, line) == NumberLiteral(src, start, line);
    NumberEndShape(src, start);
  }

  lemma NumberEndShape(src: string, start: nat)
    requires start < |src| && IsDigit(src[start])
    ensures var d := SkipWhile(src, start + 1, IsDigit);
      start < d <= NumberEnd(src, start + 1) && NumberShape(src, start, d, NumberEnd(src, start + 1))
  {
  }

  /** `src[start..next]` is the digit run `src[start..d]`, then a '.' and more digits
      when the text after the run allows it; both runs are maximal. */
  ghost predicate NumberShape(src: string, start: nat, d: nat, next: nat)
    requires start < d <= next <= |src|
  {
    && (forall k :: start <= k < d ==> IsDigit(src[k]))
    && (d == |src| || !IsDigit(src[d]))
        && (if d + 1 < |src| && src[d] == '.' && IsDigit(src[d + 1]) then
              && (forall k :: d + 1 <= k < next ==> IsDigit(src[k]))
              && d + 1 < next && (next == |src| || !IsDigit(src[next]))
            else next == d)
  }

  /** A string literal's value is exactly the text between the quotes; an unterminated
      string produces no token and reports "Unterminated string.". */
  lemma Strings(src: string, start: nat, line: nat)
    requires start < |src| && src[start] == '"'
    ensures var s := ScanToken(src, start, line);
      && (forall k :: start < k < s.next - 1 ==> src[k] != '"')
      && if s.next == |src| && (s.next == start + 1 || src[s.next - 1] != '"') then
           s.token.None? && s.error == Some(ErrorAtLine(s.line, "Unterminated string."))
         else
           && src[s.next - 1] == '"' && s.next >= start + 2
           && s.token.Some? && s.token.value.kind == String
           && s.token.value.literal == StrLit(src[start + 1..s.next - 1])
  {
  }

  /** Any other character reports "Unexpected character." and the scan goes on after it. */
  lemma UnexpectedCharacter(src: string, start: nat, line: nat)
    requires start < |src|
    requires src[start] !in "(){},-+;*!=<>/ \r\t\n\""
    requires !IsDigit(src[start]) && !IsAlpha(src[start])
    ensures var s := ScanToken(src, start, line);
      s == Step(start + 1, line, None, Some(ErrorAtLine(line, "Unexpected character.")))
  {
  }

  // ---------------------------------------------------------------------------
  // Properties of the whole scan

  /** The scan loop keeps the tokens and errors it was given. */
  lemma {:induction false} ScanFromEnds(src: string, cur: nat, line: nat, tokens: seq<Token>, errors: seq<Diagnostic>)
    requires cur <= |src|
    ensures var (ts, es) := ScanFrom(src, cur, line, tokens, errors);
      && |ts| > |tokens| && ts[..|tokens|] == tokens
      && |es| >= |errors| && es[..|errors|] == errors
    decreases |src| - cur
  {
    if cur < |src| {
      var s := ScanToken(src, cur, line);
      var tokens' := tokens + OptionToSeq(s.token);
      var errors' := errors + OptionToSeq(s.error);
      ScanFromEnds(src, s.next, s.line, tokens', errors');
      var (ts, es) := ScanFrom(src, s.next, s.line, tokens', errors');
      assert ScanFrom(src, cur, line, tokens, errors) == (ts, es);
      assert ts[..|tokens|] == tokens'[..|tokens|] == tokens;
      assert es[..|errors|] == errors'[..|errors|] == errors;
    }
  }

  /** The scan loop ends with an end-of-file token whose line counts every newline of
      the rest of the text. */
  lemma {:induction false} ScanFromLast(src: string, cur: nat, line: nat, tokens: seq<Token>, errors: seq<Diagnostic>)
    requires cur <= |src|
    ensures var ts := ScanFrom(src, cur, line, tokens, errors).0;
      |ts| > 0 && ts[|ts| - 1] == Token(EOF, "", NullLit, line + NewlinesIn(src, cur, |src|))
    decreases |src| - cur
  {
    if cur < |src| {
      var s := ScanToken(src, cur, line);
      ScanFromLast(src, s.next, s.line, tokens + OptionToSeq(s.token), errors + OptionToSeq(s.error));
      NewlinesSplit(src, cur, s.next, |src|);
    }
  }

  /** The scan loop never adds an end-of-file token before its last one. */
  lemma {:induction false} ScanFromSingleEof(src: string, cur: nat, line: nat, tokens: seq<Token>, errors: seq<Diagnostic>)
    requires cur <= |src|
    ensures var ts := ScanFrom(src, cur, line, tokens, errors).0;
      forall i :: |tokens| <= i < |ts| - 1 ==> ts[i].kind != EOF
    decreases |src| - cur
  {
    if cur < |src| {
      var s := ScanToken(src, cur, line);
      var tokens' := tokens + OptionToSeq(s.token);
      var errors' := errors + OptionToSeq(s.error);
      ScanFromSingleEof(src, s.next, s.line, tokens', errors');
      ScanFromEnds(src, s.next, s.line, tokens', errors');
      var ts := ScanFrom(src, s.next, s.line, tokens', errors').0;
      assert ScanFrom(src, cur, line, tokens, errors).0 == ts;
      forall i | |tokens| <= i < |ts| - 1
        ensures ts[i].kind != EOF
      {
        if i < |tokens'| {
          assert ts[i] == ts[..|tokens'|][i] == tokens'[i] == s.token.value;
        }
      }
    }
  }

  /** The scanner always returns a list whose last token is EOF, with an empty lexeme, no
      literal and the line count of the whole text, and no earlier token is EOF. */
  lemma ScanEndsWithEof(src: string)
    ensures var ts := Scan(src).0;
      && |ts| >= 1
      && ts[|ts| - 1] == Token(EOF, "", NullLit, 1 + NewlinesIn(src, 0, |src|))
      && forall i :: 0 <= i < |ts| - 1 ==> ts[i].kind != EOF
  {
    var ts := ScanFrom(src, 0, 1, [], []).0;
    assert Scan(src).0 == ts;
    ScanFromLast(src, 0, 1, [], []);
    ScanFromSingleEof(src, 0, 1, [], []);
  }

  /** A maximal run of digits ends where the first non-digit stands. */
  lemma DigitRunEnds(text: string, i: nat, k: nat)
    requires i <= k < |text| && !IsDigit(text[k])
    requires forall j :: i <= j < k ==> IsDigit(text[j])
    ensures SkipWhile(text, i, IsDigit) == k
  {
  }

  /** A printed parse or scan report can be read back: the digits after "[line " are
      the diagnostic's line, and the rest is "] Error", the "where" part and the message. */
  lemma ReportReadBack(d: Diagnostic)
    ensures var text := ReportText(d); var k := SkipWhile(text, 6, IsDigit);
      && text[..6] == "[line "
      && DigitsValue(text[6..k]) == d.line
      && text[k..] == "] Error" + d.where + ": " + d.message
  {
    var text := ReportText(d);
    var k := 6 + |DecimalString(d.line)|;
    assert text[k] == ']';
    DigitRunEnds(text, 6, k);
    DecimalRoundTrip(d.line);
  }

  /** A printed runtime error report can be read back: the message comes first, and the
      digits after "\n[line " are the line of the error's token. */
  lemma RuntimeReportReadBack(message: string, line: nat)
    ensures var text := RuntimeErrorReport(message, line);
      var i := |message| + 7; var k := SkipWhile(text, i, IsDigit);
      && text[..|message|] == message
      && text[|message|..i] == "\n[line "
      && DigitsValue(text[i..k]) == line
      && text[k..] == "]"
  {
    var text := RuntimeErrorReport(message, line);
    var i := |message| + 7;
    var k := i + |DecimalString(line)|;
    assert text[i..k] == DecimalString(line);
    assert text[k] == ']';
    DigitRunEnds(text, i, k);
    DecimalRoundTrip(line);
  }

  /** Reading back the decimal text of a count gives the count. */
  lemma {:induction false} DecimalRoundTrip(n: nat)
    ensures DigitsValue(DecimalString(n)) == n
  {
    var s := DecimalString(n);
    if n >= 10 {
      assert s[..|s| - 1] == DecimalString(n / 10);
      DecimalRoundTrip(n / 10);
    }
  }
}
