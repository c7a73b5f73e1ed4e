/** Precedence and associativity of the expression grammar, from both sides: every tree
    the expression rules build is well bracketed, and every well-bracketed tree is
    exactly what the rules build from its token spelling. */
module Precedence {
  import opened Tokens
  import opened Reporting
  import opened Syntax
  import opened Grammar

  // ---------------------------------------------------------------- the trees built

  lemma {:induction false} ExpressionTree(ts: seq<Token>, pos: nat)
    requires WellFormed(ts) && pos < |ts|
    ensures var r := ParseExpression(ts, pos); r.Ok? ==> WellBracketed(r.value)
    decreases |ts| - pos, 11
  {
    AssignmentTree(ts, pos);
  }

  /** Assignment nests to the right: its target is a name and its value any tree. */
  lemma {:induction false} AssignmentTree(ts: seq<Token>, pos: nat)
    requires WellFormed(ts) && pos < |ts|
    ensures var r := ParseAssignment(ts, pos); r.Ok? ==> WellBracketed(r.value)
    decreases |ts| - pos, 10
  {
    BinaryTree(Equality, ts, pos);
    var left := ParseBinary(Equality, ts, pos);
    if left.Ok? {
      var p := Match(ts, left.pos, [Equal]);
      if p != left.pos {
        AssignmentTree(ts, p);
      }
    }
  }

  /** A binary level builds a tree that binds no looser than the level. */
  lemma {:induction false} BinaryTree(level: Level, ts: seq<Token>, pos: nat)
    requires WellFormed(ts) && pos < |ts|
    ensures var r := ParseBinary(level, ts, pos);
      r.Ok? ==> Prec(r.value) <= LevelPrec(level) && WellBracketed(r.value)
    decreases |ts| - pos, 2 * LevelPrec(level) + 1
  {
    OperandTree(level, ts, pos);
    var left := ParseOperand(level, ts, pos);
    if left.Ok? {
      BinaryRestTree(level, ts, left.pos, left.value, left.diags);
    }
  }

  /** The operands of a level bind strictly tighter than the level. */
  lemma {:induction false} OperandTree(level: Level, ts: seq<Token>, pos: nat)
    requires WellFormed(ts) && pos < |ts|
    ensures var r := ParseOperand(level, ts, pos);
      r.Ok? ==> Prec(r.value) < LevelPrec(level) && WellBracketed(r.value)
    decreases |ts| - pos, 2 * LevelPrec(level)
  {
    if level == Factor {
      UnaryTree(ts, pos);
    } else {
      BinaryTree(Next(level), ts, pos);
    }
  }

  /** The loop of a level folds to the left: the tree so far becomes the left operand
      and the next operand, binding tighter, the right one. */
  lemma {:induction false} BinaryRestTree(level: Level, ts: seq<Token>, pos: nat, left: Expr, diags: seq<Diagnostic>)
    requires WellFormed(ts) && pos < |ts|
    requires Prec(left) <= LevelPrec(level) && WellBracketed(left)
    ensures var r := ParseBinaryRest(level, ts, pos, left, diags);
      r.Ok? ==> Prec(r.value) <= LevelPrec(level) && WellBracketed(r.value)
    decreases |ts| - pos, 2 * LevelPrec(level) + 1
  {
    var p := Match(ts, pos, Operators(level));
    if p != pos {
      var right := ParseOperand(level, ts, p);
      OperandTree(level, ts, p);
      if right.Ok? {
        var folded := Binary(left, ts[pos], right.value);
        OperatorOfLevel(ts[pos].kind, level);
        BinaryRestTree(level, ts, right.pos, folded, diags + right.diags);
      }
    }
  }

  /** A unary operator applies to a unary or primary expression. */
  lemma {:induction false} UnaryTree(ts: seq<Token>, pos: nat)
    requires WellFormed(ts) && pos < |ts|
    ensures var r := ParseUnary(ts, pos); r.Ok? ==> Prec(r.value) == 0 && WellBracketed(r.value)
    decreases |ts| - pos, 1
  {
    var p := Match(ts, pos, [Bang, Minus]);
    if p == pos {
      PrimaryTree(ts, pos);
    } else {
      UnaryTree(ts, p);
    }
  }

  lemma {:induction false} PrimaryTree(ts: seq<Token>, pos: nat)
    requires WellFormed(ts) && pos < |ts|
    ensures var r := ParsePrimary(ts, pos); r.Ok? ==> Prec(r.value) == 0 && WellBracketed(r.value)
    decreases |ts| - pos, 0
  {
    if Match(ts, pos, [LeftParen]) > pos {
      ExpressionTree(ts, pos + 1);
    }
  }

  // ---------------------------------------------------------------- spelling a tree

  /** A token made by the printer for punctuation. */
  function Punct(kind: TokenType, text: string): Token
  {
    Token(kind, text, NullLit, 0)
  }

  /** The token a literal is written with. */
  function LiteralToken(l: LiteralValue): (t: Token)
    ensures t.kind in {Number, String, Identifier, False, True, Null} - {Identifier}
  {
    match l
    case NullLit => Token(Null, "null", NullLit, 0)
    case BoolLit(b) => if b then Token(True, "true", NullLit, 0) else Token(False, "false", NullLit, 0)
    case NumLit(_) => Token(Number, "", l, 0)
    case StrLit(_) => Token(String, "", l, 0)
  }

  /** The tokens of an expression, with the operator and name tokens it holds. Trees
      the grammar cannot build spell nothing. */
  function Render(e: Expr): seq<Token>
  {
    match e
    case Literal(l) => [LiteralToken(l)]
    case Grouping(inner) => [Punct(LeftParen, "(")] + Render(inner) + [Punct(RightParen, ")")]
    case Unary(op, right) => [op] + Render(right)
    case Binary(left, op, right) => Render(left) + [op] + Render(right)
    case Variable(name) => [name]
    case Assign(name, value) => [name, Punct(Equal, "=")] + Render(value)
    case Logical(_, _, _) => []
    case Call(_, _, _) => []
  }

  function Size(e: Expr): (n: nat)
    ensures n >= 1
  {
    match e
    case Grouping(inner) => Size(inner) + 1
    case Unary(_, right) => Size(right) + 1
    case Binary(left, _, right) => Size(left) + Size(right) + 1
    case Assign(_, value) => Size(value) + 1
    case _ => 1
  }

  /** A well-bracketed `e` binding no looser than `n` is spelled from `pos` on, and the
      token after it stops operands of binding strength `stop`. */
  ghost predicate Fits(ts: seq<Token>, pos: nat, e: Expr, n: nat, stop: nat)
  {
    WellFormed(ts) && WellBracketed(e) && Prec(e) <= n && Spelled(ts, pos, e) && Stops(ts, End(pos, e), stop)
  }

  /** The tokens from `pos` on spell `e`, and a token follows them. */
  ghost predicate Spelled(ts: seq<Token>, pos: nat, e: Expr)
  {
    pos + |Render(e)| < |ts| && ts[pos..pos + |Render(e)|] == Render(e)
  }

  /** The position just after the spelling of `e`. */
  function End(pos: nat, e: Expr): nat
  {
    pos + |Render(e)|
  }

  /** The token at `i` ends an operand of a level of binding strength `n`: it is no
      binary operator of that level or a tighter one. */
  ghost predicate Stops(ts: seq<Token>, i: nat, n: nat)
  {
    i < |ts| && (OpPrec(ts[i].kind) == 0 || OpPrec(ts[i].kind) > n)
  }

  lemma SpelledSplit(ts: seq<Token>, pos: nat, a: seq<Token>, b: seq<Token>)
    requires pos + |a| + |b| <= |ts| && ts[pos..pos + |a| + |b|] == a + b
    ensures ts[pos..pos + |a|] == a && ts[pos + |a|..pos + |a| + |b|] == b
  {
    assert ts[pos..pos + |a|] == (a + b)[..|a|];
    assert ts[pos + |a|..pos + |a| + |b|] == (a + b)[|a|..];
  }

  /** A well-bracketed tree spells at least one token. */
  lemma {:induction false} RenderNonEmpty(e: Expr)
    requires WellBracketed(e)
    ensures |Render(e)| > 0
  {
    match e
    case Binary(left, _, _) => RenderNonEmpty(left);
    case _ =>
  }

  /** The parts of a spelled binary node are spelled where they should be. */
  lemma SpelledBinary(ts: seq<Token>, pos: nat, e: Expr)
    requires e.Binary? && Spelled(ts, pos, e)
    ensures Spelled(ts, pos, e.left) && ts[End(pos, e.left)] == e.operator
    ensures Spelled(ts, End(pos, e.left) + 1, e.right)
    ensures End(End(pos, e.left) + 1, e.right) == End(pos, e)
  {
    SpelledSplit(ts, pos, Render(e.left) + [e.operator], Render(e.right));
    SpelledSplit(ts, pos, Render(e.left), [e.operator]);
    assert ts[End(pos, e.left)] == ts[End(pos, e.left)..End(pos, e.left) + 1][0];
  }

  /** The innermost left operand of `e` that does not belong to `level`. */
  function Leftmost(level: Level, e: Expr): (m: Expr)
    ensures Size(m) <= Size(e) && |Render(m)| <= |Render(e)|
  {
    if e.Binary? && OpPrec(e.operator.kind) == LevelPrec(level) then Leftmost(level, e.left) else e
  }

  lemma {:induction false} LeftmostFacts(level: Level, ts: seq<Token>, pos: nat, e: Expr)
    requires WellBracketed(e) && Prec(e) <= LevelPrec(level) && Spelled(ts, pos, e)
    ensures var m := Leftmost(level, e);
      && WellBracketed(m) && Prec(m) < LevelPrec(level) && Spelled(ts, pos, m)
      && (m != e ==> OpPrec(ts[End(pos, m)].kind) == LevelPrec(level))
  {
    if e.Binary? && OpPrec(e.operator.kind) == LevelPrec(level) {
      SpelledBinary(ts, pos, e);
      LeftmostFacts(level, ts, pos, e.left);
    }
  }

  // ---------------------------------------------------------------- parsing a spelling

  /** An expression followed by a token that is no binary operator and not '=' parses
      back to itself, consuming exactly its spelling and reporting nothing. */
  lemma {:induction false} ExpressionRoundTrip(e: Expr, ts: seq<Token>, pos: nat)
    requires WellFormed(ts) && WellBracketed(e) && Spelled(ts, pos, e)
    requires Stops(ts, End(pos, e), 4) && ts[End(pos, e)].kind != Equal
    ensures ParseExpression(ts, pos) == Ok(e, End(pos, e), [])
    decreases Size(e), 11
  {
    AssignmentRoundTrip(e, ts, pos);
  }

  lemma {:induction false} AssignmentRoundTrip(e: Expr, ts: seq<Token>, pos: nat)
    requires WellFormed(ts) && WellBracketed(e) && Spelled(ts, pos, e)
    requires Stops(ts, End(pos, e), 4) && ts[End(pos, e)].kind != Equal
    ensures ParseAssignment(ts, pos) == Ok(e, End(pos, e), [])
    decreases Size(e), 10
  {
    if e.Assign? {
      SpelledAssign(ts, pos, e);
      BinaryRoundTrip(Equality, Variable(e.name), ts, pos);
      AssignmentRoundTrip(e.value, ts, pos + 2);
      AssignStep(ts, pos, e.name, e.value, End(pos, e));
    } else {
      BinaryRoundTrip(Equality, e, ts, pos);
      NoAssignStep(ts, pos, e, End(pos, e));
    }
  }

  lemma AssignStep(ts: seq<Token>, pos: nat, name: Token, value: Expr, end: nat)
    requires WellFormed(ts) && pos + 1 < end < |ts| && ts[pos + 1].kind == Equal
    requires ParseBinary(Equality, ts, pos) == Ok(Variable(name), pos + 1, [])
    requires ParseAssignment(ts, pos + 2) == Ok(value, end, [])
    ensures ParseAssignment(ts, pos) == Ok(Assign(name, value), end, [])
  {
    assert Match(ts, pos + 1, [Equal]) == pos + 2;
    var none: seq<Diagnostic> := [];
    assert none + none == none;
  }

  lemma NoAssignStep(ts: seq<Token>, pos: nat, e: Expr, end: nat)
    requires WellFormed(ts) && pos < end < |ts| && ts[end].kind != Equal
    requires ParseBinary(Equality, ts, pos) == Ok(e, end, [])
    ensures ParseAssignment(ts, pos) == Ok(e, end, [])
  {
    assert Match(ts, end, [Equal]) == end;
  }

  /** The parts of a spelled assignment are spelled where they should be. */
  lemma SpelledAssign(ts: seq<Token>, pos: nat, e: Expr)
    requires e.Assign? && Spelled(ts, pos, e)
    ensures Spelled(ts, pos, Variable(e.name)) && ts[pos + 1].kind == Equal
    ensures Spelled(ts, pos + 2, e.value) && End(pos + 2, e.value) == End(pos, e)
  {
    SpelledSplit(ts, pos, [e.name, Punct(Equal, "=")], Render(e.value));
    assert ts[pos..pos + 1] == ts[pos..pos + 2][..1];
    assert ts[pos + 1] == ts[pos..pos + 2][1];
  }

  /** A tree of a level, followed by a token that continues no operand of the level and
      no loop of the level, parses back to itself. */
  lemma {:induction false} BinaryRoundTrip(level: Level, e: Expr, ts: seq<Token>, pos: nat)
    requires Fits(ts, pos, e, LevelPrec(level), LevelPrec(level))
    ensures ParseBinary(level, ts, pos) == Ok(e, End(pos, e), [])
    decreases Size(e), 2 * LevelPrec(level) + 1
  {
    var m := Leftmost(level, e);
    LeftmostFacts(level, ts, pos, e);
    OperandRoundTrip(level, m, ts, pos);
    BinaryRestRoundTrip(level, e, ts, pos);
    OperatorOfLevel(ts[End(pos, e)].kind, level);
    assert ParseBinaryRest(level, ts, End(pos, e), e, []) == Ok(e, End(pos, e), []);
  }

  /** The operand rule parses back a tree that binds tighter than the level. */
  lemma {:induction false} OperandRoundTrip(level: Level, e: Expr, ts: seq<Token>, pos: nat)
    requires Fits(ts, pos, e, LevelPrec(level) - 1, LevelPrec(level) - 1)
    ensures ParseOperand(level, ts, pos) == Ok(e, End(pos, e), [])
    decreases Size(e), 2 * LevelPrec(level)
  {
    if level == Factor {
      UnaryRoundTrip(e, ts, pos);
    } else {
      BinaryRoundTrip(Next(level), e, ts, pos);
    }
  }

  /** The loop of a level, started after the leftmost operand of `e`, folds the rest of
      `e`'s spelling back into `e`. */
  lemma {:induction false} BinaryRestRoundTrip(level: Level, e: Expr, ts: seq<Token>, pos: nat)
    requires Fits(ts, pos, e, LevelPrec(level), LevelPrec(level) - 1)
    ensures var m := Leftmost(level, e);
      ParseBinaryRest(level, ts, End(pos, m), m, []) == ParseBinaryRest(level, ts, End(pos, e), e, [])
    decreases Size(e), 1
  {
    if e.Binary? && OpPrec(e.operator.kind) == LevelPrec(level) {
      BinaryRestNode(level, e, ts, pos);
      BinaryRestRoundTrip(level, e.left, ts, pos);
    }
  }

  /** The last turn of the loop over a node of the level folds its right operand in. */
  lemma {:induction false} BinaryRestNode(level: Level, e: Expr, ts: seq<Token>, pos: nat)
    requires Fits(ts, pos, e, LevelPrec(level), LevelPrec(level) - 1)
    requires e.Binary? && OpPrec(e.operator.kind) == LevelPrec(level)
    ensures Fits(ts, pos, e.left, LevelPrec(level), LevelPrec(level) - 1) && Size(e.left) < Size(e)
    ensures Leftmost(level, e) == Leftmost(level, e.left)
    ensures ParseBinaryRest(level, ts, End(pos, e.left), e.left, []) == ParseBinaryRest(level, ts, End(pos, e), e, [])
    decreases Size(e), 0
  {
    BinaryParts(level, ts, pos, e);
    var at := End(pos, e.left);
    OperandRoundTrip(level, e.right, ts, at + 1);
    BinaryStep(level, ts, at, e.left, e.right, End(pos, e));
    assert Binary(e.left, ts[at], e.right) == e;
  }

  /** What the loop needs to know of the parts of a node of its level. */
  lemma BinaryParts(level: Level, ts: seq<Token>, pos: nat, e: Expr)
    requires Fits(ts, pos, e, LevelPrec(level), LevelPrec(level) - 1)
    requires e.Binary? && OpPrec(e.operator.kind) == LevelPrec(level)
    ensures Fits(ts, pos, e.left, LevelPrec(level), LevelPrec(level) - 1)
    ensures ts[End(pos, e.left)] == e.operator && e.operator.kind in Operators(level)
    ensures Fits(ts, End(pos, e.left) + 1, e.right, LevelPrec(level) - 1, LevelPrec(level) - 1)
    ensures End(End(pos, e.left) + 1, e.right) == End(pos, e) < |ts|
    ensures Leftmost(level, e) == Leftmost(level, e.left)
  {
    SpelledBinary(ts, pos, e);
    OperatorOfLevel(e.operator.kind, level);
  }

  /** One turn of a level's loop over an operator and an operand that parses back. */
  lemma BinaryStep(level: Level, ts: seq<Token>, at: nat, left: Expr, right: Expr, end: nat)
    requires WellFormed(ts) && at < end < |ts|
    requires ts[at].kind in Operators(level)
    requires ParseOperand(level, ts, at + 1) == Ok(right, end, [])
    ensures ParseBinaryRest(level, ts, at, left, []) == ParseBinaryRest(level, ts, end, Binary(left, ts[at], right), [])
  {
    assert Match(ts, at, Operators(level)) == at + 1;
    BinaryRestStep(level, ts, at, left, []);
    var none: seq<Diagnostic> := [];
    assert none + none == none;
  }

  /** Unary and primary trees parse back whatever follows them. */
  lemma {:induction false} UnaryRoundTrip(e: Expr, ts: seq<Token>, pos: nat)
    requires WellFormed(ts) && WellBracketed(e) && Prec(e) == 0 && Spelled(ts, pos, e)
    ensures ParseUnary(ts, pos) == Ok(e, End(pos, e), [])
    decreases Size(e), 1
  {
    if e.Unary? {
      SpelledUnary(ts, pos, e);
      UnaryRoundTrip(e.right, ts, pos + 1);
      UnaryStep(ts, pos, e.right, End(pos, e));
    } else {
      SpelledFirst(ts, pos, e);
      PrimaryRoundTrip(e, ts, pos);
    }
  }

  lemma SpelledUnary(ts: seq<Token>, pos: nat, e: Expr)
    requires e.Unary? && Spelled(ts, pos, e)
    ensures ts[pos] == e.operator && Spelled(ts, pos + 1, e.right) && End(pos + 1, e.right) == End(pos, e)
  {
    SpelledSplit(ts, pos, [e.operator], Render(e.right));
    assert ts[pos] == ts[pos..pos + 1][0];
  }

  /** The first token of a spelled tree that is no unary or binary expression. */
  lemma SpelledFirst(ts: seq<Token>, pos: nat, e: Expr)
    requires WellBracketed(e) && (e.Literal? || e.Grouping? || e.Variable?) && Spelled(ts, pos, e)
    ensures e.Literal? ==> ts[pos] == LiteralToken(e.literal)
    ensures e.Grouping? ==> ts[pos].kind == LeftParen
    ensures e.Variable? ==> ts[pos] == e.name && ts[pos].kind == Identifier
  {
    assert ts[pos] == ts[pos..End(pos, e)][0];
  }

  lemma UnaryStep(ts: seq<Token>, pos: nat, right: Expr, end: nat)
    requires WellFormed(ts) && pos < |ts| && ts[pos].kind in {Bang, Minus}
    requires ParseUnary(ts, pos + 1) == Ok(right, end, [])
    ensures ParseUnary(ts, pos) == Ok(Unary(ts[pos], right), end, [])
  {
    assert Match(ts, pos, [Bang, Minus]) == pos + 1;
  }

  lemma {:induction false} PrimaryRoundTrip(e: Expr, ts: seq<Token>, pos: nat)
    requires WellFormed(ts) && WellBracketed(e) && (e.Literal? || e.Grouping? || e.Variable?)
    requires Spelled(ts, pos, e)
    requires e.Literal? ==> ts[pos] == LiteralToken(e.literal)
    requires e.Grouping? ==> ts[pos].kind == LeftParen
    requires e.Variable? ==> ts[pos] == e.name && ts[pos].kind == Identifier
    ensures ParsePrimary(ts, pos) == Ok(e, End(pos, e), [])
    decreases Size(e), 0
  {
    if e.Grouping? {
      SpelledGrouping(ts, pos, e);
      ExpressionRoundTrip(e.expression, ts, pos + 1);
      GroupingStep(ts, pos, e.expression, End(pos + 1, e.expression));
    } else if e.Literal? {
      LiteralRoundTrip(e.literal, ts, pos);
    } else {
      VariableRoundTrip(e.name, ts, pos);
    }
  }

  lemma SpelledGrouping(ts: seq<Token>, pos: nat, e: Expr)
    requires e.Grouping? && Spelled(ts, pos, e)
    ensures Spelled(ts, pos + 1, e.expression)
    ensures ts[End(pos + 1, e.expression)].kind == RightParen
    ensures End(pos + 1, e.expression) + 1 == End(pos, e)
  {
    SpelledSplit(ts, pos, [Punct(LeftParen, "(")], Render(e.expression) + [Punct(RightParen, ")")]);
    SpelledSplit(ts, pos + 1, Render(e.expression), [Punct(RightParen, ")")]);
    var close := End(pos + 1, e.expression);
    assert ts[close] == ts[close..close + 1][0];
  }

  lemma GroupingStep(ts: seq<Token>, pos: nat, inner: Expr, close: nat)
    requires WellFormed(ts) && pos < close < |ts| && ts[pos].kind == LeftParen && ts[close].kind == RightParen
    requires ParseExpression(ts, pos + 1) == Ok(inner, close, [])
    ensures ParsePrimary(ts, pos) == Ok(Grouping(inner), close + 1, [])
  {
    assert Match(ts, pos, [LeftParen]) == pos + 1;
  }

  lemma LiteralRoundTrip(l: LiteralValue, ts: seq<Token>, pos: nat)
    requires WellFormed(ts) && pos < |ts| && ts[pos] == LiteralToken(l)
    ensures ParsePrimary(ts, pos) == Ok(Literal(l), pos + 1, [])
  {
    PrimaryAtom(ts, pos);
    AtomLiteral(l, ts, pos);
  }

  lemma AtomLiteral(l: LiteralValue, ts: seq<Token>, pos: nat)
    requires WellFormed(ts) && pos < |ts| && ts[pos] == LiteralToken(l)
    ensures ParseAtom(ts, pos) == Ok(Literal(l), pos + 1, [])
  {
  }

  lemma VariableRoundTrip(name: Token, ts: seq<Token>, pos: nat)
    requires WellFormed(ts) && pos < |ts| && ts[pos] == name && name.kind == Identifier
    ensures ParsePrimary(ts, pos) == Ok(Variable(name), pos + 1, [])
  {
    PrimaryAtom(ts, pos);
    AtomVariable(name, ts, pos);
  }

  lemma AtomVariable(name: Token, ts: seq<Token>, pos: nat)
    requires WellFormed(ts) && pos < |ts| && ts[pos] == name && name.kind == Identifier
    ensures ParseAtom(ts, pos) == Ok(Variable(name), pos + 1, [])
  {
  }

  /** Off a '(', a primary is a one-token atom. */
  lemma PrimaryAtom(ts: seq<Token>, pos: nat)
    requires WellFormed(ts) && pos < |ts| && ts[pos].kind != LeftParen
    ensures ParsePrimary(ts, pos) == ParseAtom(ts, pos)
  {
  }

  // ---------------------------------------------------------------- two worked examples

  function Name(text: string): Token
  {
    Token(Identifier, text, NullLit, 1)
  }

  /** `a - b - c;` groups to the left: `(a - b) - c`. */
  lemma MinusGroupsLeft()
    ensures var minus := Punct(Minus, "-");
      var ts := [Name("a"), minus, Name("b"), minus, Name("c"), Punct(Semicolon, ";"), Punct(EOF, "")];
      ParseExpression(ts, 0)
        == Ok(Binary(Binary(Variable(Name("a")), minus, Variable(Name("b"))), minus, Variable(Name("c"))), 5, [])
  {
    var minus := Punct(Minus, "-");
    var ts := [Name("a"), minus, Name("b"), minus, Name("c"), Punct(Semicolon, ";"), Punct(EOF, "")];
    var e := Binary(Binary(Variable(Name("a")), minus, Variable(Name("b"))), minus, Variable(Name("c")));
    assert Render(e) == ts[0..5];
    ExpressionRoundTrip(e, ts, 0);
  }

  /** `a + b * c;` binds the product first: `a + (b * c)`. */
  lemma StarBindsTighter()
    ensures var plus, star := Punct(Plus, "+"), Punct(Star, "*");
      var ts := [Name("a"), plus, Name("b"), star, Name("c"), Punct(Semicolon, ";"), Punct(EOF, "")];
      ParseExpression(ts, 0)
        == Ok(Binary(Variable(Name("a")), plus, Binary(Variable(Name("b")), star, Variable(Name("c")))), 5, [])
  {
    var plus, star := Punct(Plus, "+"), Punct(Star, "*");
    var ts := [Name("a"), plus, Name("b"), star, Name("c"), Punct(Semicolon, ";"), Punct(EOF, "")];
    var e := Binary(Variable(Name("a")), plus, Binary(Variable(Name("b")), star, Variable(Name("c"))));
    assert Render(e) == ts[0..5];
    ExpressionRoundTrip(e, ts, 0);
  }
}
