/** The scanner as the source writes it: a cursor over the source text with the tokens
    and errors appended in place. One token is read by helper methods that move a local
    copy of the cursor and hand back the step they took; `ScanToken` then commits that
    step to the scanner's fields. Each method is proved to do what the corresponding
    function of the Lexer module describes. */
module Scanning {
  import opened Tokens
  import opened Reporting
  import opened Lexer

  class Scanner {
    const source: string
    var tokens: seq<Token>
    /** The errors reported while scanning, in order. */
    var errors: seq<Diagnostic>
    var start: nat
    var current: nat
    var line: nat

    ghost predicate Valid()
      reads this
    {
      start <= current <= |source|
    }

    constructor (source: string)
      ensures Valid()
      ensures this.source == source && tokens == [] && errors == []
      ensures start == 0 && current == 0 && line == 1
    {
      this.source := source;
      tokens, errors := [], [];
      start, current, line := 0, 0, 1;
    }

    /** Scans the rest of the text and appends the end-of-file token; from a fresh
        scanner this is the Lexer's Scan. */
    method Scan() returns (result: seq<Token>)
      requires Valid()
      modifies this
      ensures Valid()
      ensures (tokens, errors) == ScanFrom(source, old(current), old(line), old(tokens), old(errors))
      ensures result == tokens
    {
      while !IsAtEnd()
        invariant Valid()
        invariant ScanFrom(source, current, line, tokens, errors)
               == ScanFrom(source, old(current), old(line), old(tokens), old(errors))
        decreases |source| - current
      {
        start := current;
        ScanToken();
      }
      tokens := tokens + [Token(EOF, "", NullLit, line)];
      result := tokens;
    }

    /** The whole scan from a fresh scanner ends in exactly one EOF token. */
    method ScanAll() returns (result: seq<Token>)
      requires Valid() && current == 0 && line == 1 && tokens == [] && errors == []
      modifies this
      ensures (result, errors) == Lexer.Scan(source)
      ensures |result| >= 1 && result[|result| - 1].kind == EOF
      ensures forall i :: 0 <= i < |result| - 1 ==> result[i].kind != EOF
    {
      result := Scan();
      ScanEndsWithEof(source);
    }

    predicate IsAtEnd()
      reads this
    {
      current >= |source|
    }

    /** One step of the scan from `start == current`: the cursor, the line counter, the
        tokens and the errors are updated as the Lexer's step says. */
    method ScanToken()
      requires Valid() && start == current < |source|
      modifies this`current, this`line, this`tokens, this`errors
      ensures Valid()
      ensures var s := Lexer.ScanToken(source, old(current), old(line));
        && current == s.next && line == s.line
        && tokens == old(tokens) + OptionToSeq(s.token)
        && errors == old(errors) + OptionToSeq(s.error)
    {
      var s := NextStep(start, line);
      current, line := s.next, s.line;
      tokens := tokens + OptionToSeq(s.token);
      errors := errors + OptionToSeq(s.error);
    }

    /** The switch on the first character of a token. */
    method NextStep(start: nat, line: nat) returns (s: Step)
      requires start < |source|
      ensures s == Lexer.ScanToken(source, start, line)
    {
      var c, cur := Advance(start);
      match c
      case '(' | ')' | '{' | '}' | ',' | '-' | '+' | ';' | '*' => s := SingleChar(start, line);
      case '!' | '=' | '<' | '>' => s := Operator(start, line);
      case '/' => s := SlashOrComment(start, line);
      case ' ' | '\r' | '\t' => s := Step(cur, line, None, None);
      case '\n' => s := Step(cur, line + 1, None, None);
      case '"' => s := StringLiteral(start, line);
      case _ =>
        if IsDigit(c) {
          s := Number(start, line);
        } else if IsAlpha(c) {
          s := Identifier(start, line);
        } else {
          s := Step(cur, line, None, Some(ErrorAtLine(line, "Unexpected character.")));
        }
    }

    /** The tokens that are always one character long. */
    method SingleChar(start: nat, line: nat) returns (s: Step)
      requires start < |source| && source[start] in "(){},-+;*"
      ensures s == Lexer.ScanToken(source, start, line)
    {
      var c, cur := Advance(start);
      match c
      case '(' => s := AddToken(start, cur, line, LeftParen, NullLit);
      case ')' => s := AddToken(start, cur, line, RightParen, NullLit);
      case '{' => s := AddToken(start, cur, line, LeftBrace, NullLit);
      case '}' => s := AddToken(start, cur, line, RightBrace, NullLit);
      case ',' => s := AddToken(start, cur, line, Comma, NullLit);
      case '-' => s := AddToken(start, cur, line, Minus, NullLit);
      case '+' => s := AddToken(start, cur, line, Plus, NullLit);
      case ';' => s := AddToken(start, cur, line, Semicolon, NullLit);
      case '*' => s := AddToken(start, cur, line, Star, NullLit);
    }

    /** '!', '=', '<' and '>', each followed or not by '='. */
    method Operator(start: nat, line: nat) returns (s: Step)
      requires start < |source| && source[start] in "!=<>"
      ensures s == Lexer.ScanToken(source, start, line)
    {
      var c, cur := Advance(start);
      var m;
      m, cur := Match(cur, '=');
      match c
      case '!' => s := AddToken(start, cur, line, if m then BangEqual else Bang, NullLit);
      case '=' => s := AddToken(start, cur, line, if m then EqualEqual else Equal, NullLit);
      case '<' => s := AddToken(start, cur, line, if m then LessEqual else Less, NullLit);
      case '>' => s := AddToken(start, cur, line, if m then GreaterEqual else Greater, NullLit);
    }

    /** '/': a comment up to the end of the line when another '/' follows, else SLASH. */
    method SlashOrComment(start: nat, line: nat) returns (s: Step)
      requires start < |source| && source[start] == '/'
      ensures s == Lexer.SlashOrComment(source, start, line)
    {
      var m, cur := Match(start + 1, '/');
      if m {
        cur := AdvanceWhile(cur, NotNewline);
        s := Step(cur, line, None, None);
      } else {
        s := AddToken(start, cur, line, Slash, NullLit);
      }
    }

    /** An identifier or keyword whose first character is at `start`. */
    method Identifier(start: nat, line: nat) returns (s: Step)
      requires start < |source| && IsAlpha(source[start])
      ensures s == Word(source, start, line)
    {
      var cur := start + 1;
      while IsAlphaNumeric(Peek(cur))
        invariant start + 1 <= cur <= |source|
        invariant SkipWhile(source, cur, IsAlphaNumeric) == SkipWhile(source, start + 1, IsAlphaNumeric)
        decreases |source| - cur
      {
        cur := cur + 1;
      }
      var text := source[start..cur];
      var kind := if text in Keywords then Keywords[text] else TokenType.Identifier;
      s := AddToken(start, cur, line, kind, NullLit);
    }

    /** A number whose first digit is at `start`: more digits, then a '.' followed by a
        digit starts the fractional digits, which are consumed with it. */
    method Number(start: nat, line: nat) returns (s: Step)
      requires start < |source| && IsDigit(source[start])
      ensures s == NumberLiteral(source, start, line)
    {
      var cur := AdvanceWhile(start + 1, IsDigit);
      if Peek(cur) == '.' && IsDigit(Peek(cur + 1)) {
        cur := AdvanceWhile(cur + 1, IsDigit);
      }
      assert cur == NumberEnd(source, start + 1);
      s := AddToken(start, cur, line, TokenType.Number, NumLit(DecimalValue(source[start..cur])));
    }

    /** A string literal whose opening quote is at `start`; the line counter grows by the
        newlines inside it, and the token is made on the line where it ends. */
    method StringLiteral(start: nat, line: nat) returns (s: Step)
      requires start < |source| && source[start] == '"'
      ensures s == Lexer.StringLiteral(source, start, line)
    {
      var cur, l := StringBody(start + 1, line);
      if cur >= |source| {
        return Step(cur, l, None, Some(ErrorAtLine(l, "Unterminated string.")));
      }
      cur := cur + 1;
      s := Step(cur, l, Some(Token(String, source[start..cur], StrLit(source[start + 1..cur - 1]), l)), None);
    }

    /** Consumes the characters from `cur` up to the closing quote or the end of the
        text, counting the newlines it passes. */
    method StringBody(cur: nat, line: nat) returns (next: nat, line': nat)
      requires cur <= |source|
      ensures next == SkipWhile(source, cur, NotQuote)
      ensures line' == line + NewlinesIn(source, cur, next)
    {
      next, line' := cur, line;
      while Peek(next) != '"' && next < |source|
        invariant cur <= next <= |source|
        invariant SkipWhile(source, next, NotQuote) == SkipWhile(source, cur, NotQuote)
        invariant line' == line + NewlinesIn(source, cur, next)
        decreases |source| - next
      {
        if Peek(next) == '\n' {
          line' := line' + 1;
        }
        NewlinesSplit(source, cur, next, next + 1);
        next := next + 1;
      }
    }

    /** Consumes characters from `cur` while they satisfy `p`; the end of the text stops
        the run as the '\0' that `Peek` returns there does. */
    method AdvanceWhile(cur: nat, p: char -> bool) returns (next: nat)
      requires cur <= |source|
      ensures next == SkipWhile(source, cur, p)
    {
      next := cur;
      while next < |source| && p(Peek(next))
        invariant cur <= next <= |source|
        invariant SkipWhile(source, next, p) == SkipWhile(source, cur, p)
        decreases |source| - next
      {
        next := next + 1;
      }
    }

    /** Consumes the character at `cur` when it is `expected`. */
    method Match(cur: nat, expected: char) returns (matched: bool, next: nat)
      requires cur <= |source|
      ensures matched <==> cur < |source| && source[cur] == expected
      ensures next == if matched then cur + 1 else cur
    {
      if cur >= |source| {
        return false, cur;
      }
      if source[cur] != expected {
        return false, cur;
      }
      return true, cur + 1;
    }

    /** The character at `cur` and the cursor after it. */
    method Advance(cur: nat) returns (c: char, next: nat)
      requires cur < |source|
      ensures c == source[cur] && next == cur + 1
    {
      c := source[cur];
      next := cur + 1;
    }

    /** The character at `cur`, or '\0' at the end (the scanner's peek; peekNext is
        `Peek(cur + 1)`). */
    function Peek(cur: nat): (c: char)
      ensures cur < |source| ==> c == source[cur]
      ensures cur >= |source| ==> c == '\0'
    {
      CharAt(source, cur)
    }

    /** The step that emits a token whose lexeme is the text from `start` to `cur`. */
    method AddToken(start: nat, cur: nat, line: nat, kind: TokenType, literal: LiteralValue) returns (s: Step)
      requires start <= cur <= |source|
      ensures s == Step(cur, line, Some(Token(kind, source[start..cur], literal, line)), None)
    {
      var text := source[start..cur];
      s := Step(cur, line, Some(Token(kind, text, literal, line)), None);
    }
  }
}
