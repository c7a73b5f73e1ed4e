# YAI interpreter core in Dafny

YAI is a tree-walking interpreter for a small C-like scripting language. This project
models its four stages and proves properties of them:

- **The scanner** turns source text into tokens that end in one `EOF` token.
- **The recursive-descent parser** builds statement and expression trees. It recovers
  from parse errors in panic mode.
- **The scope chain** (`Environment`) holds the variables.
- **The evaluator** (`Interpreter`, with `YaiFunction` for function objects) walks the
  trees.

Each stage that changes state step by step in the source is modelled in two layers:

- A pure function says what the stage computes: `Lexer.Scan`, `Grammar.ParseProgram`,
  `Environments.GetFrom`/`DefineIn`/`AssignIn` and `Semantics.Evaluate`/`Execute`/`Interpret`.
- A class written in the source's own style is proved to compute exactly that function:
  - `Scanning.Scanner` has the cursor fields and appends tokens in place;
  - `Parsing.Parser` has one method per grammar rule;
  - `Environments.Environment` is a heap object with an `enclosing` link, whose tables
    its methods update;
  - `Interpreting.Interpreter` has one method per `visit` method. It swaps and restores
    its `environment` field in `executeBlock`.

The properties are lemmas about the pure functions.

Java exceptions become explicit outcomes:
- A parse error is a `Fail` result.
- At run time an evaluation ends `Abrupt` with one of these signals:
  - a `return` signal;
  - a language `RuntimeError` with its token and message;
  - a host failure, standing for Java exceptions the language does not report: a failing
    `(double)` cast, the `RuntimeException` thrown by `Environment`, and the null
    statement a failed declaration leaves behind;
  - running out of fuel.

Error reports do not go to the console. The scanner and the parser return them as a
sequence of diagnostics, each holding a line, a "where" part and a message.
`Reporting.ReportText` gives the line the reporting routine prints for one of them,
`[line N] Error<where>: <message>`. Printed values are appended to an output sequence.

Where the language's documented design and this code differ, the model follows the code:
- `assign` changes only the current scope and does not walk the enclosing chain, so
  assigning a variable of an enclosing scope fails. See `Environments.AssignIsLocal` and
  `Behaviour.AssignToOuterFails`.
- A call runs its body in a fresh scope with no enclosing scope (there are no closures),
  so the body sees only its parameters. See `Behaviour.BodyCannotSeeCaller`.
- A `return` is never caught: it ends the call abruptly, and `interpret` does not catch it
  either. `Return.java` is not part of this model; it is assumed not to extend `RuntimeError`
  (its constructor takes a value and no token). See `Behaviour.CallResult` and `Behaviour.ReturnEscapes`.
- Reading or assigning an unknown name throws a plain `RuntimeException`, not a
  `RuntimeError`, so `interpret` does not report it. The model gives a host failure.
- The parser has no rules for `or`/`and`, calls, `while`, `for`, `fun` or `return`. The
  tree types still have these nodes because the evaluator handles them.
- Binary `-` checks neither operand, and `/` and `*` check only the right one. A
  non-number elsewhere is a failing cast, not a RuntimeError. See `Semantics.OperandChecks`.

## Model

| member | source | states |
|---|---|---|
| Values.FromLiteral | com/uriegas/yai/Interpreter.java:178-180 | a literal evaluates to the value of the same kind with the same payload: `null`, a boolean, a finite number or a string |
| Reporting.ErrorAtLine | com/uriegas/yai/Yai.java:88-90 | a scanner error keeps the line and the message and has an empty "where" part |
| Reporting.ErrorAtToken | com/uriegas/yai/Yai.java:97-102 | the "where" part is " at end" exactly when the token is EOF, and " at '<lexeme>'" otherwise; the line is the token's line |
| Reporting.DecimalString | com/uriegas/yai/Interpreter.java:101 | a count is written with decimal digits only and no leading zero; `Lexer.DecimalRoundTrip` reads it back |
| Reporting.RuntimeErrorReport | com/uriegas/yai/Yai.java:108-111 | a runtime error report is the error's message followed by a newline and `[line N]`, N the line of the error's token |
| Reporting.ReportText | com/uriegas/yai/Yai.java:119-122 | a printed parse or scan report is `[line N] Error`, then the "where" part, then ": " and the message |
| Lexer.ReportReadBack | com/uriegas/yai/Yai.java:119-122 | the line of a printed parse or scan report reads back from the digits after "[line ", and the rest of the text is "] Error", the "where" part and the message |
| Lexer.RuntimeReportReadBack | com/uriegas/yai/Yai.java:108-111 | a printed runtime error report starts with the message, and the digits after its "\n[line " read back as the line of the error's token |
| Lexer.WordKind | java/com/uriegas/yai/Scanner.java:113-122 | a word in the 13-entry keyword table gets its keyword kind; any other word is IDENTIFIER, never EOF |
| Lexer.Single | java/com/uriegas/yai/Scanner.java:68-76 | a one-character token consumes exactly one character and yields the token of the given kind, whose lexeme is that character, on the current line, with no literal and no error |
| Lexer.SingleCharacters | java/com/uriegas/yai/Scanner.java:68-76 | each of `(`, `)`, `{`, `}`, `,`, `-`, `+`, `;`, `*` gives its own one-character token; `.` is not in the switch and reports "Unexpected character." |
| Lexer.OneOrTwo | java/com/uriegas/yai/Scanner.java:78-81 | `!`, `=`, `<`, `>`, with or without a following `=`, is a well-formed step |
| Lexer.SlashOrComment | java/com/uriegas/yai/Scanner.java:84-92 | `//` starts a comment that yields no token and no error and keeps the line count; a lone `/` consumes one character and yields SLASH |
| Lexer.Blank | java/com/uriegas/yai/Scanner.java:96-97 | whitespace is a well-formed step whose line count grows by the newline it consumes |
| Lexer.StringLiteral | java/com/uriegas/yai/Scanner.java:166-177 | a string literal is a well-formed step whose line count grows by every newline inside it |
| Lexer.NumberLiteral | java/com/uriegas/yai/Scanner.java:154-161 | a number is a well-formed step |
| Lexer.Word | java/com/uriegas/yai/Scanner.java:113-122 | an identifier or keyword is a well-formed step |
| Lexer.OtherChar | java/com/uriegas/yai/Scanner.java:100-106 | the default case of the switch (number, word or error) is a well-formed step |
| Lexer.ScanToken | java/com/uriegas/yai/Scanner.java:65-108 | every step moves the cursor forward and stays inside the text; the line count grows by exactly the newlines consumed; a token's lexeme is the consumed text `source[start..current)`; a token is never EOF and comes without an error |
| Lexer.TwoCharOperators | java/com/uriegas/yai/Scanner.java:78-81 | `!`, `=`, `<`, `>` followed by `=` give the two-character kind and consume two characters; otherwise they give the one-character kind and consume one |
| Lexer.Comments | java/com/uriegas/yai/Scanner.java:84-92 | `//` emits nothing and stops at the next newline without consuming it (or at the end); a lone `/` is SLASH |
| Lexer.Whitespace | java/com/uriegas/yai/Scanner.java:96-97 | space, `\r`, `\t` and `\n` emit nothing; only `\n` adds one to the line |
| Lexer.Identifiers | java/com/uriegas/yai/Scanner.java:113-122 | an identifier is the maximal letter/digit/`_` run; its kind is the keyword it spells, or IDENTIFIER; it carries no literal |
| Lexer.Numbers | java/com/uriegas/yai/Scanner.java:154-161 | a number is a maximal digit run, optionally followed by `.` and a maximal nonempty digit run; a `.` without a digit after it is not consumed; the literal is the decimal value of the lexeme |
| Lexer.Strings | java/com/uriegas/yai/Scanner.java:166-177 | a string's literal is exactly the text between the quotes; without a closing quote there is no token and "Unterminated string." is reported at the line where the text ends |
| Lexer.UnexpectedCharacter | java/com/uriegas/yai/Scanner.java:100-106 | any other character reports "Unexpected character." on the current line, and scanning goes on with the next character |
| Lexer.Scan | java/com/uriegas/yai/Scanner.java:45-52 | `scan` returns a nonempty token list ending in EOF; `Lexer.ScanEndsWithEof` states the whole property |
| Lexer.DecimalValue | java/com/uriegas/yai/Scanner.java:160 | a number's value lies between its integer part and the next integer (exclusive); a lexeme without '.' has its integer value; `Lexer.Numbers` ties it to the lexeme |
| Lexer.ScanFromEnds | java/com/uriegas/yai/Scanner.java:45-52 | the scan loop only appends: the tokens and errors it starts with stay a prefix |
| Lexer.ScanFromLast | java/com/uriegas/yai/Scanner.java:50 | the scan loop ends with an EOF token that has an empty lexeme, no literal, and a line that counts every remaining newline |
| Lexer.ScanFromSingleEof | java/com/uriegas/yai/Scanner.java:45-52 | the scan loop adds no EOF token before its last one |
| Lexer.ScanEndsWithEof | java/com/uriegas/yai/Scanner.java:45-52 | `scan` returns a nonempty list whose last token is EOF, with an empty lexeme, no literal and line 1 + the number of newlines, and no earlier token is EOF |
| Lexer.DecimalRoundTrip | com/uriegas/yai/Interpreter.java:101 | reading the decimal text of a count back gives the count |
| Scanning.Scanner.constructor | java/com/uriegas/yai/Scanner.java:33-43 | a new scanner has no tokens or errors, cursor 0 and line 1 |
| Scanning.Scanner.Scan | java/com/uriegas/yai/Scanner.java:45-52 | the loop leaves the token and error fields equal to the Lexer's scan from the cursor and line it started at, and returns the tokens |
| Scanning.Scanner.ScanAll | java/com/uriegas/yai/Scanner.java:45-52 | a fresh scanner's `scan` returns the Lexer's result; the list ends in exactly one EOF |
| Scanning.Scanner.ScanToken | java/com/uriegas/yai/Scanner.java:65-108 | one call moves `current` and `line` as the Lexer's step says, and appends the step's token and error |
| Scanning.Scanner.NextStep | java/com/uriegas/yai/Scanner.java:65-108 | the switch on the first character computes the Lexer's step |
| Scanning.Scanner.SingleChar | java/com/uriegas/yai/Scanner.java:68-76 | the one-character cases compute the Lexer's step |
| Scanning.Scanner.Operator | java/com/uriegas/yai/Scanner.java:78-81 | the `match('=')` cases compute the Lexer's step |
| Scanning.Scanner.SlashOrComment | java/com/uriegas/yai/Scanner.java:84-92 | the comment loop and SLASH compute the Lexer's step |
| Scanning.Scanner.Identifier | java/com/uriegas/yai/Scanner.java:113-122 | `identifier()` computes the Lexer's word step |
| Scanning.Scanner.Number | java/com/uriegas/yai/Scanner.java:154-161 | `number()` computes the Lexer's number step |
| Scanning.Scanner.StringLiteral | java/com/uriegas/yai/Scanner.java:166-177 | `string()` computes the Lexer's string step, including the unterminated case |
| Scanning.Scanner.StringBody | java/com/uriegas/yai/Scanner.java:167-170 | the loop stops at the first quote or at the end, and counts every newline it passes |
| Scanning.Scanner.AdvanceWhile | java/com/uriegas/yai/Scanner.java:155 | a `while (p(peek())) advance()` loop stops at the end of the maximal run satisfying `p` |
| Scanning.Scanner.Match | java/com/uriegas/yai/Scanner.java:184-189 | `match(c)` consumes one character exactly when the text is not at its end and the current character is `c` |
| Scanning.Scanner.Advance | java/com/uriegas/yai/Scanner.java:195-197 | `advance()` returns the current character and moves one on |
| Scanning.Scanner.Peek | java/com/uriegas/yai/Scanner.java:202-213 | `peek`/`peekNext` give the character there, or '\0' past the end |
| Scanning.Scanner.AddToken | java/com/uriegas/yai/Scanner.java:228-231 | a token's lexeme is `source[start..current)` and its line is the current line |
| Grammar.Advance | java/com/uriegas/yai/Parser.java:258-261 | on a list ending in EOF the cursor stays in range and never moves past EOF; it moves one on exactly when the current token is not EOF |
| Grammar.Match | java/com/uriegas/yai/Parser.java:233-241 | `match(kinds)` advances by exactly one when the current token is not EOF and has one of the kinds; otherwise the cursor is unchanged |
| Grammar.Consume | java/com/uriegas/yai/Parser.java:198-201 | the current token, with the cursor advanced, when it has the expected kind; otherwise a parse error that reports the message at the current token and leaves the cursor in place |
| Grammar.Synchronize | java/com/uriegas/yai/Parser.java:208-226 | skips the offending token unless it is EOF, then stops at the first point that is EOF, just after a `;`, or before fun/var/for/if/while/print/return, and at no earlier such point |
| Grammar.SyncLoop | java/com/uriegas/yai/Parser.java:211-225 | the loop of `synchronize` stops at its first synchronisation point |
| Grammar.ParseExpression | java/com/uriegas/yai/Parser.java:108-110 | every rule keeps the cursor in range and never moves it back; a success consumes at least one token; a parse error comes with at least one report |
| Grammar.ParseAssignment | java/com/uriegas/yai/Parser.java:112-124 | same progress guarantee for `assignment` |
| Grammar.ParseBinary | java/com/uriegas/yai/Parser.java:126-164 | same progress guarantee for the four binary levels |
| Grammar.ParseBinaryRest | java/com/uriegas/yai/Parser.java:128-132 | the loop of a binary level never moves the cursor back, and a failure comes with a report |
| Grammar.ParseUnary | java/com/uriegas/yai/Parser.java:166-173 | same progress guarantee for `unary` |
| Grammar.ParsePrimary | java/com/uriegas/yai/Parser.java:175-187 | same progress guarantee for `primary` |
| Grammar.ParseAtom | java/com/uriegas/yai/Parser.java:176-186 | a number or string gives a literal of its token's value, an identifier a variable, `false`/`true`/`null` their literals, each consuming exactly one token with no report; any other token fails with exactly "Expect expression." reported at it, the cursor kept |
| Grammar.ParseGrouping | java/com/uriegas/yai/Parser.java:181-185 | a parenthesised expression parses to a Grouping node |
| Grammar.ParseDeclaration | java/com/uriegas/yai/Parser.java:43-57 | off EOF, a declaration always succeeds and consumes at least one token, so the loops of `parse` and `block` terminate; a failed declaration is kept as a null entry, has been reported, and leaves the cursor at a synchronisation point |
| Grammar.ParseVarDeclaration | java/com/uriegas/yai/Parser.java:59-68 | a parsed `var` declaration is a Var node named by the IDENTIFIER token after `var` |
| Grammar.VarEnd | java/com/uriegas/yai/Parser.java:66-67 | the declaration is complete exactly when a `;` follows; otherwise "Expect ';' after variable declaration." is reported at that token |
| Grammar.ParseStatement | java/com/uriegas/yai/Parser.java:70-75 | same progress guarantee for `statement` |
| Grammar.ParseIf | java/com/uriegas/yai/Parser.java:77-86 | a parsed `if` is an If node |
| Grammar.ParseBranches | java/com/uriegas/yai/Parser.java:81-85 | the branches build an If node with the parsed condition |
| Grammar.ParsePrint | java/com/uriegas/yai/Parser.java:88-92 | same progress guarantee for `printStatement` |
| Grammar.ParseBlock | java/com/uriegas/yai/Parser.java:94-100 | a parsed block is a Block node |
| Grammar.ParseBlockRest | java/com/uriegas/yai/Parser.java:96-99 | the loop of `block` keeps the declarations parsed so far as a prefix of the block's statements, and the reports so far as a prefix of its reports |
| Grammar.ParseFrom | java/com/uriegas/yai/Parser.java:28-33 | the loop of `parse` keeps the statements and reports so far as prefixes and adds at most one statement per remaining non-EOF token |
| Grammar.ParseProgram | java/com/uriegas/yai/Parser.java:28-33 | `parse` returns fewer statements than tokens; `Recovery.ProgramReports` adds that without reports no statement is null |
| Grammar.ParseExpressionStatement | java/com/uriegas/yai/Parser.java:102-106 | same progress guarantee for `expressionStatement` |
| Parsing.Parser.constructor | java/com/uriegas/yai/Parser.java:20-22 | the parser holds the given token list |
| Parsing.Parser.Parse | java/com/uriegas/yai/Parser.java:28-33 | `parse` returns the statements and reports of the Grammar's program parse |
| Parsing.Parser.Declaration | java/com/uriegas/yai/Parser.java:43-57 | computes the Grammar's declaration, including recovery |
| Parsing.Parser.VarDeclaration | java/com/uriegas/yai/Parser.java:59-68 | computes the Grammar's `varDeclaration` |
| Parsing.Parser.Statement | java/com/uriegas/yai/Parser.java:70-75 | computes the Grammar's `statement` |
| Parsing.Parser.IfStatement | java/com/uriegas/yai/Parser.java:77-86 | computes the Grammar's `ifStatement` |
| Parsing.Parser.Branches | java/com/uriegas/yai/Parser.java:81-85 | computes the Grammar's branches of an if statement |
| Parsing.Parser.PrintStatement | java/com/uriegas/yai/Parser.java:88-92 | computes the Grammar's `printStatement` |
| Parsing.Parser.Block | java/com/uriegas/yai/Parser.java:94-100 | the loop of `block` computes the Grammar's block |
| Parsing.Parser.ExpressionStatement | java/com/uriegas/yai/Parser.java:102-106 | computes the Grammar's `expressionStatement` |
| Parsing.Parser.Expression | java/com/uriegas/yai/Parser.java:108-110 | computes the Grammar's `expression` |
| Parsing.Parser.Assignment | java/com/uriegas/yai/Parser.java:112-124 | computes the Grammar's `assignment` |
| Parsing.Parser.Binary | java/com/uriegas/yai/Parser.java:126-164 | the loop of each binary level computes the Grammar's left fold |
| Parsing.Parser.Unary | java/com/uriegas/yai/Parser.java:166-173 | computes the Grammar's `unary` |
| Parsing.Parser.Primary | java/com/uriegas/yai/Parser.java:175-187 | computes the Grammar's `primary` |
| Parsing.Parser.Atom | java/com/uriegas/yai/Parser.java:176-186 | computes the Grammar's one-token primaries |
| Parsing.Parser.Grouping | java/com/uriegas/yai/Parser.java:181-185 | computes the Grammar's parenthesised expression |
| Parsing.Parser.Consume | java/com/uriegas/yai/Parser.java:198-206 | computes the Grammar's `consume` |
| Parsing.Parser.Synchronize | java/com/uriegas/yai/Parser.java:208-226 | the loop of `synchronize` stops where the Grammar's does |
| Parsing.Parser.Match | java/com/uriegas/yai/Parser.java:233-241 | tries the kinds in order and succeeds exactly when the Grammar's `match` advances |
| Parsing.Parser.Advance | java/com/uriegas/yai/Parser.java:258-261 | computes the Grammar's `advance` |
| Precedence.ExpressionTree | java/com/uriegas/yai/Parser.java:108-110 | every tree the parser builds is well bracketed: a binary node's left operand binds no looser than the node and its right operand strictly tighter, and assignment targets are names |
| Precedence.AssignmentTree | java/com/uriegas/yai/Parser.java:112-124 | `assignment` builds well-bracketed trees, nesting assignments to the right |
| Precedence.BinaryTree | java/com/uriegas/yai/Parser.java:126-164 | each binary level builds a well-bracketed tree that binds no looser than the level |
| Precedence.UnaryTree | java/com/uriegas/yai/Parser.java:166-173 | `unary` builds a well-bracketed tree that binds tightest |
| Precedence.PrimaryTree | java/com/uriegas/yai/Parser.java:175-187 | `primary` builds a well-bracketed tree that binds tightest |
| Precedence.ExpressionRoundTrip | java/com/uriegas/yai/Parser.java:108-164 | every well-bracketed tree parses back from its token spelling, consuming exactly the spelling and reporting nothing |
| Precedence.AssignmentRoundTrip | java/com/uriegas/yai/Parser.java:112-124 | an assignment chain, or any tree below it, parses back from its spelling |
| Precedence.BinaryRoundTrip | java/com/uriegas/yai/Parser.java:126-164 | a tree of a binary level parses back from its spelling (left associativity and precedence) |
| Precedence.UnaryRoundTrip | java/com/uriegas/yai/Parser.java:166-173 | a unary or primary tree parses back from its spelling |
| Precedence.PrimaryRoundTrip | java/com/uriegas/yai/Parser.java:175-187 | a literal, variable or parenthesised tree parses back from its spelling |
| Precedence.MinusGroupsLeft | java/com/uriegas/yai/Parser.java:146-154 | `a - b - c` parses as `(a - b) - c` |
| Precedence.StarBindsTighter | java/com/uriegas/yai/Parser.java:146-164 | `a + b * c` parses as `a + (b * c)` |
| Recovery.VarWithoutInitializer | java/com/uriegas/yai/Parser.java:59-68 | `var x;` is `Var(x, null)` and consumes three tokens |
| Recovery.VarWithInitializer | java/com/uriegas/yai/Parser.java:59-68 | `var x = e;` is `Var(x, e)` |
| Recovery.VarMissingSemicolon | java/com/uriegas/yai/Parser.java:43-57 | `var x` followed by anything but `=` or `;` reports "Expect ';' after variable declaration." at that token, gives a null entry and resumes at the synchronisation point |
| Recovery.InvalidAssignmentTarget | java/com/uriegas/yai/Parser.java:112-124 | an assignment to anything but a name reports "Invalid assignment target." at the `=`, raises nothing, and returns the left side after consuming the value |
| Recovery.ParseFromReports | java/com/uriegas/yai/Parser.java:28-33 | the loop of `parse` reports at least one error per null entry, and adds at most one entry per token |
| Recovery.ProgramReports | java/com/uriegas/yai/Parser.java:28-33 | a program parsed without reports has no null entries, and the list has fewer entries than tokens |
| Environments.DefineIn | java/com/uriegas/yai/Environment.java:17-19 | `define` binds the name in this scope, overwriting an earlier binding; other names and the enclosing scope are untouched |
| Environments.GetFrom | java/com/uriegas/yai/Environment.java:21-27 | `get` succeeds exactly when some scope of the chain binds the name; a local binding is returned first |
| Environments.AssignIn | java/com/uriegas/yai/Environment.java:29-33 | `assign` succeeds exactly when this very scope binds the name; it then changes only that binding, adds no name and leaves the enclosing scope alone |
| Environments.GetAfterDefine | java/com/uriegas/yai/Environment.java:17-23 | after `define(n, v)`, `get(n)` gives `v` and every other name gives what it gave before |
| Environments.Shadowing | java/com/uriegas/yai/Environment.java:21-25 | a local binding shadows the enclosing ones; an unbound name is looked up in the enclosing scope |
| Environments.AssignIsLocal | java/com/uriegas/yai/Environment.java:29-33 | a name bound only in an enclosing scope can be read but not assigned |
| Environments.AssignIsRedefine | java/com/uriegas/yai/Environment.java:29-31 | a successful `assign` is a `define` of a name the scope already binds |
| Environments.DefineIdempotent | java/com/uriegas/yai/Environment.java:17-19 | defining the same binding twice is defining it once |
| Environments.Environment.DepthIsRepr | java/com/uriegas/yai/Environment.java:6-15 | the `enclosing` chain, fixed at construction, is finite and acyclic: one scope per object |
| Environments.Environment.constructor | java/com/uriegas/yai/Environment.java:9-11 | `new Environment()` is an empty scope without an enclosing scope |
| Environments.Environment.Nested | java/com/uriegas/yai/Environment.java:13-15 | `new Environment(e)` is an empty scope inside `e` |
| Environments.Environment.Define | java/com/uriegas/yai/Environment.java:17-19 | the object's chain afterwards is `DefineIn` of the chain before |
| Environments.Environment.Get | java/com/uriegas/yai/Environment.java:21-27 | walking the chain answers `GetFrom` |
| Environments.Environment.Assign | java/com/uriegas/yai/Environment.java:29-33 | succeeds exactly when `AssignIn` does, and the chain is then its result; on failure nothing changes |
| Functions.Arity | java/com/uriegas/yai/YaiFunction.java:31-33 | `arity()` is the number of declared parameters |
| Functions.ToString | java/com/uriegas/yai/YaiFunction.java:35-38 | the text is "<function ", the name, then ">" |
| Functions.Bind | java/com/uriegas/yai/YaiFunction.java:17-19 | the call table binds exactly the parameter names |
| Functions.BindPositional | java/com/uriegas/yai/YaiFunction.java:17-19 | parameter `i` is bound to argument `i`, except that a repeated name takes the argument of its last occurrence |
| Functions.CallScope | java/com/uriegas/yai/YaiFunction.java:15-19 | a call's scope has no enclosing scope and binds exactly the parameters |
| Functions.BindParameters | java/com/uriegas/yai/YaiFunction.java:15-19 | the loop of `call` builds a fresh Environment object whose chain is the call scope |
| Semantics.IsTruthy | com/uriegas/yai/Interpreter.java:212-216 | `isTruthy` is false exactly for `null` and `false` |
| Semantics.IsEqual | com/uriegas/yai/Interpreter.java:223-227 | `isEqual` is value equality, except that function objects are equal exactly when they are the same object |
| Semantics.BinaryOp | com/uriegas/yai/Interpreter.java:139-174 | an operator outside the switch gives `null`; a raised RuntimeError is at the operator token; `-`, `/` and `*` on two numbers give their difference, quotient and product (`Numbers.Sub`, `Div`, `Mul`); `Semantics.OperandChecks` states which operand mistakes are RuntimeErrors |
| Semantics.DivisionByZero | com/uriegas/yai/Interpreter.java:151-153 | `/` by zero raises no error: a positive number over zero is Infinity, a negative one -Infinity, and zero over zero NaN |
| Semantics.TruthyValues | com/uriegas/yai/Interpreter.java:212-216 | only `null` and `false` are falsy |
| Semantics.EqualityIsEquivalence | com/uriegas/yai/Interpreter.java:223-227 | `isEqual` is an equivalence; `null` equals only `null`; otherwise it is value equality, and function objects are equal by identity |
| Semantics.UnaryOp | com/uriegas/yai/Interpreter.java:126-136 | `!v` is the negation of `v`'s truthiness; `-` negates a number and raises "Operand must be a number." otherwise; any other operator gives `null` |
| Semantics.Compare | com/uriegas/yai/Interpreter.java:157-168 | a comparison succeeds exactly when both operands are numbers, and otherwise raises "Operands must be numbers." |
| Semantics.PlusOperands | com/uriegas/yai/Interpreter.java:143-148 | `+` adds two numbers or joins two strings; any other pair raises "Operands must be two numbers or two strings." |
| Semantics.OperandChecks | com/uriegas/yai/Interpreter.java:149-168 | exactly which operand mistakes are RuntimeErrors at the operator (`+`, right operand of `/` and `*`, both operands of comparisons) and which reach an unchecked cast (`-`, left operand of `/` and `*`) |
| Semantics.EqualityOperators | com/uriegas/yai/Interpreter.java:169-172 | `==` is `isEqual` and `!=` is its negation, on any operands |
| Semantics.Comparisons | com/uriegas/yai/Interpreter.java:157-168 | the comparisons order numbers as the extended reals; any comparison with NaN is false, while `NaN == NaN` holds for boxed doubles |
| Semantics.Evaluate | com/uriegas/yai/Interpreter.java:187-189 | evaluating an expression keeps the scope chain and the names of the current scope, and only appends to the output |
| Semantics.EvaluateUnary | com/uriegas/yai/Interpreter.java:126-136 | same frame guarantee for a unary expression |
| Semantics.EvaluateBinary | com/uriegas/yai/Interpreter.java:139-175 | same frame guarantee for a binary expression |
| Semantics.EvaluateLogical | com/uriegas/yai/Interpreter.java:67-77 | same frame guarantee for `or`/`and` |
| Semantics.EvaluateAssign | com/uriegas/yai/Interpreter.java:119-123 | an assignment adds no name to the current scope |
| Semantics.EvaluateCall | com/uriegas/yai/Interpreter.java:88-104 | a call, with its callee and arguments, leaves the caller's scope chain and names as they were |
| Semantics.EvaluateArgs | com/uriegas/yai/Interpreter.java:90-94 | normally completed arguments give one value per argument expression |
| Semantics.CallValue | com/uriegas/yai/Interpreter.java:95-103 | the checks of a call and the call itself leave the caller's scope chain and names as they were |
| Semantics.Invoke | java/com/uriegas/yai/YaiFunction.java:13-28 | running a function body leaves the caller's scope chain and names as they were |
| Semantics.Execute | com/uriegas/yai/Interpreter.java:191-193 | a statement keeps the scope chain, loses no name of the current scope, and only appends to the output |
| Semantics.ExecuteExpression | com/uriegas/yai/Interpreter.java:21-24 | same frame guarantee for an expression statement |
| Semantics.ExecutePrint | com/uriegas/yai/Interpreter.java:27-30 | same frame guarantee for `print` |
| Semantics.ExecuteVar | com/uriegas/yai/Interpreter.java:41-48 | same frame guarantee for `var` |
| Semantics.ExecuteIf | com/uriegas/yai/Interpreter.java:57-64 | same frame guarantee for `if` |
| Semantics.ExecuteReturn | com/uriegas/yai/Interpreter.java:33-38 | same frame guarantee for `return` |
| Semantics.ExecuteWhile | com/uriegas/yai/Interpreter.java:80-85 | same frame guarantee for `while` |
| Semantics.ExecuteBlock | com/uriegas/yai/Interpreter.java:195-205 | after `executeBlock` the scope that was current before is current again, however the statements end; output is only appended |
| Semantics.ExecuteList | com/uriegas/yai/Interpreter.java:199-201 | same frame guarantee for a statement list |
| Semantics.Interpret | com/uriegas/yai/Interpreter.java:10-18 | same frame guarantee for `interpret` |
| Semantics.DoubleText | com/uriegas/yai/Interpreter.java:258 | `Double.toString`: the given text for a finite number, "Infinity", "-Infinity" and "NaN" for the others |
| Semantics.Stringify | com/uriegas/yai/Interpreter.java:255-264 | "null", "true"/"false", the string itself, "<function name>", "Infinity", "-Infinity" and "NaN" for the non-finite numbers, and for a finite number its `Double.toString` text with a final ".0" removed |
| Semantics.StripPointZero | com/uriegas/yai/Interpreter.java:259-260 | a text ending in ".0" loses exactly that suffix; any other text is kept |
| Semantics.Transcript | com/uriegas/yai/Interpreter.java:28 | the printed lines are the `stringify` of each printed value, in order |
| Behaviour.ShortCircuit | com/uriegas/yai/Interpreter.java:67-77 | `or` returns a truthy left value and `and` a falsy one without evaluating the right operand; otherwise both give the right operand's value |
| Behaviour.AssignmentStores | com/uriegas/yai/Interpreter.java:119-123 | an assignment evaluates its value, stores it in the current scope and returns it; a name the current scope does not bind is a host failure |
| Behaviour.AssignToOuterFails | java/com/uriegas/yai/Environment.java:29-33 | in any scope, a name that only an enclosing scope binds can be read, but assigning it fails after its value is evaluated |
| Behaviour.VarDeclares | com/uriegas/yai/Interpreter.java:41-48 | `var` binds in the current scope, to the initializer's value or to `null` |
| Behaviour.BlockScoping | com/uriegas/yai/Interpreter.java:51-54 | declarations inside a block are gone when it ends: a block of declarations leaves the machine as it was |
| Behaviour.CallChecks | com/uriegas/yai/Interpreter.java:95-101 | a non-function callee raises "Can only call functions and classes."; a wrong count raises "Expected N arguments but got M." at the closing parenthesis |
| Behaviour.CallResult | java/com/uriegas/yai/YaiFunction.java:21-27 | a call that passes the checks runs the body in the call scope; it gives `null` when the body completes, and a `return` escapes it uncaught; the caller's scope is current again either way |
| Behaviour.BodyCannotSeeCaller | java/com/uriegas/yai/YaiFunction.java:15 | a function body whose first statement reads a name that is not a parameter fails, whatever the rest of the body and whatever the caller's scopes bind |
| Behaviour.ListAppend | com/uriegas/yai/Interpreter.java:12-14 | running `a + b` runs `a` and then `b` from where `a` stopped, and never runs `b` once `a` is abrupt |
| Behaviour.StopsAtFirstError | com/uriegas/yai/Interpreter.java:10-18 | `interpret` stops at the first RuntimeError, reports its message and line, runs nothing after it, and keeps the earlier output |
| Behaviour.RunsOn | com/uriegas/yai/Interpreter.java:10-18 | after statements that complete, `interpret` goes on with the rest in the state they left |
| Behaviour.ReturnEscapes | com/uriegas/yai/Interpreter.java:33-38 | a top-level `return` is not a RuntimeError and escapes `interpret` uncaught |
| Behaviour.PrintedText | com/uriegas/yai/Interpreter.java:255-264 | `stringify(null)` is "null", and a number whose text ends in ".0" prints without it |
| Behaviour.PrintAppends | com/uriegas/yai/Interpreter.java:27-30 | `print` appends exactly the `stringify` of its value to the printed lines |
| Numbers.Neg | com/uriegas/yai/Interpreter.java:133 | negation flips the sign, keeps NaN and maps finite values to their negation |
| Numbers.Add | com/uriegas/yai/Interpreter.java:145 | the sum is NaN exactly for a NaN operand or opposite infinities; finite sums are exact; an infinity absorbs finite values |
| Numbers.Sub | com/uriegas/yai/Interpreter.java:150 | the difference is NaN exactly for a NaN operand or equal infinities; finite differences are exact |
| Numbers.Mul | com/uriegas/yai/Interpreter.java:156 | the product is NaN exactly for a NaN operand or an infinity times zero; otherwise an infinite product has the product of the signs |
| Numbers.Div | com/uriegas/yai/Interpreter.java:153 | the quotient is NaN exactly for a NaN operand, 0/0 or an infinity over an infinity; a nonzero value over zero is the infinity of its sign; a finite value over an infinity is zero |
| Numbers.NaNUnordered | com/uriegas/yai/Interpreter.java:157-168 | NaN is neither less nor greater than anything |
| Numbers.LessIsTotalOrder | com/uriegas/yai/Interpreter.java:157-168 | apart from NaN, `<` is a strict total order and `<=` is `<` or equality |
| Numbers.AddCommutes | com/uriegas/yai/Interpreter.java:145 | addition commutes and has zero as its unit |
| Numbers.MulCommutes | com/uriegas/yai/Interpreter.java:156 | multiplication commutes |
| Interpreting.Interpreter.constructor | com/uriegas/yai/Interpreter.java:6-8 | a new interpreter has an empty global scope and has printed nothing |
| Interpreting.Interpreter.Evaluate | com/uriegas/yai/Interpreter.java:187-189 | the object's new state and the value or abrupt ending are what `Semantics.Evaluate` gives for the state before |
| Interpreting.Interpreter.EvaluateUnary | com/uriegas/yai/Interpreter.java:126-136 | `visitUnaryExpr` computes `Semantics.EvaluateUnary` |
| Interpreting.Interpreter.EvaluateBinary | com/uriegas/yai/Interpreter.java:139-175 | `visitBinaryExpr` computes `Semantics.EvaluateBinary` |
| Interpreting.Interpreter.EvaluateLogical | com/uriegas/yai/Interpreter.java:67-77 | `visitLogicalExpr` computes `Semantics.EvaluateLogical` |
| Interpreting.Interpreter.EvaluateAssign | com/uriegas/yai/Interpreter.java:119-123 | `visitAssignExpr`, through the Environment object, computes `Semantics.EvaluateAssign` |
| Interpreting.Interpreter.EvaluateCall | com/uriegas/yai/Interpreter.java:88-104 | the argument loop of `visitCallExpr`, left to right, and the call compute `Semantics.EvaluateCall` |
| Interpreting.Interpreter.CallValue | com/uriegas/yai/Interpreter.java:95-103 | the callee and arity checks compute `Semantics.CallValue` |
| Interpreting.Interpreter.CallFunction | java/com/uriegas/yai/YaiFunction.java:13-28 | `call`, with a new Environment object, computes `Semantics.Invoke` |
| Interpreting.Interpreter.Execute | com/uriegas/yai/Interpreter.java:191-193 | `execute` computes `Semantics.Execute`, including `visitFunctionStmt` |
| Interpreting.Interpreter.ExecuteExpression | com/uriegas/yai/Interpreter.java:21-24 | `visitExpressionStmt` computes `Semantics.ExecuteExpression` |
| Interpreting.Interpreter.ExecutePrint | com/uriegas/yai/Interpreter.java:27-30 | `visitPrintStmt` appends to the output as `Semantics.ExecutePrint` does |
| Interpreting.Interpreter.ExecuteVar | com/uriegas/yai/Interpreter.java:41-48 | `visitVarStmt` computes `Semantics.ExecuteVar` |
| Interpreting.Interpreter.ExecuteReturn | com/uriegas/yai/Interpreter.java:33-38 | `visitReturnStmt` computes `Semantics.ExecuteReturn` |
| Interpreting.Interpreter.ExecuteBlockStmt | com/uriegas/yai/Interpreter.java:51-54 | `visitBlockStmt`, with a new nested Environment object, computes the semantics of a block |
| Interpreting.Interpreter.ExecuteIf | com/uriegas/yai/Interpreter.java:57-64 | `visitIfStmt` computes `Semantics.ExecuteIf` |
| Interpreting.Interpreter.ExecuteWhile | com/uriegas/yai/Interpreter.java:80-85 | the loop of `visitWhileStmt` computes `Semantics.ExecuteWhile` |
| Interpreting.Interpreter.WhileRound | com/uriegas/yai/Interpreter.java:81-83 | one round of the loop either ends it as `Semantics.ExecuteWhile` says, or leaves a state from which the rest of the loop gives the same result |
| Interpreting.Interpreter.ExecuteBlock | com/uriegas/yai/Interpreter.java:195-205 | `executeBlock` swaps in the given scope and restores the previous `environment` field however the body ends, computing `Semantics.ExecuteBlock` |
| Interpreting.Interpreter.ExecuteAll | com/uriegas/yai/Interpreter.java:199-201 | the statement loop computes `Semantics.ExecuteList`, stopping at the first abrupt statement |
| Interpreting.Interpreter.Interpret | com/uriegas/yai/Interpreter.java:10-18 | `interpret` computes `Semantics.Interpret`: it reports a RuntimeError and lets any other abrupt ending escape |

## Left out

- Console I/O and the CLI: both `Yai.java` files (file reading, the REPL loop, `System.exit`, the static `hadError`/`hadRuntimeError` flags) are not part of this model. Printed values are appended to an output sequence. Error reports are returned as a diagnostics sequence or as an `Ending`.
- IEEE-754 doubles: numbers are the extended reals with a NaN. Rounding, overflow to infinity, subnormals and the signed zero are not modelled; zero counts as +0 in division.
- Numbers.Add: a finite sum is exact rather than rounded to a double. The same holds for Numbers.Sub, Numbers.Mul and Numbers.Div.
- Lexer.DecimalValue: a number literal's value is the exact decimal value of its lexeme, not `Double.parseDouble`'s nearest double.
- Source text is a sequence of Unicode scalar values here, while the scanner reads UTF-16 code units with `charAt`. A character outside the Basic Multilingual Plane, such as U+1F600, outside a string literal gives one "Unexpected character." report here and two (one per surrogate) in the source; inside a string literal, cursor positions and lexeme lengths differ in the same way.
- Semantics.Stringify: `Double.toString` of a finite number is a parameter (`finiteText`). Only the step that strips ".0" is proved; the text of the infinities and NaN is written out.
- Semantics.ExecuteWhile: a loop can run forever in the source. The model spends one unit of fuel per further round and per call, and ends with an out-of-fuel signal when none is left. Unbounded recursion and the host stack overflow are not modelled. No lemma relates runs with different fuel.
- Semantics.CallValue: a call spends one unit of fuel (see above).
- Java exceptions other than `RuntimeError` are one host-failure signal with a reason text: the `ClassCastException` of an unchecked cast, the `RuntimeException` of `Environment`, and the null dereference of executing a statement that failed to parse. Their Java stack traces and exact types are not modelled.
- The visitor plumbing (`accept`, `Expr.Visitor`, `Stmt.Visitor`) becomes `match` on datatypes. The `Expr` and `Stmt` classes are not part of this model; their shape is rebuilt from the fields the parser and the interpreter use.
- The unused `globals` field of `Interpreter` and all commented-out code (the `funDeclaration` branch, the single-expression `parse`, the `Return` catch in `call`) are not modelled.
- Parsing.Parser: the source keeps the cursor in a field that every rule advances. Each rule method here takes its starting cursor and returns the cursor where it stops. Thrown parse errors become `Fail` results, and the panic unwinding to `declaration` is the `Fail` passed up.
- Scanning.Scanner: a token is read by helper methods on a local copy of the cursor, then committed to the `current` and `line` fields. The `start` field is set as in the source, but the helpers take it as a parameter.
- Environments.Environment: the `values` table is a `map` field that the methods reassign. Since the `enclosing` link never changes and assignment touches only one scope, the chain is also described by the value `Env`. Aliasing of one scope by two chains does not arise in the source: calls use unlinked scopes, and blocks use fresh children.
- Token `toString` and the `TokenType` names are not modelled; token kinds are a datatype.
