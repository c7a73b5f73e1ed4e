/** The syntax tree (the Expr and Stmt node classes, reconstructed from the fields the
    parser and the interpreter use). The visitor plumbing becomes `match`. */
module Syntax {
  import opened Tokens

  datatype Expr =
    | Literal(literal: LiteralValue)
    | Grouping(expression: Expr)
    | Unary(operator: Token, right: Expr)
    | Binary(left: Expr, operator: Token, right: Expr)
    | Logical(left: Expr, operator: Token, right: Expr)
    | Variable(name: Token)
    | Assign(name: Token, value: Expr)
    | Call(callee: Expr, paren: Token, arguments: seq<Expr>)

  /** A statement list may hold `None`: the parser keeps the null it returns for a
      declaration that failed to parse. */
  datatype Stmt =
    | Expression(expression: Expr)
    | Print(expression: Expr)
    | Var(name: Token, initializer: Option<Expr>)
    | Block(statements: seq<Option<Stmt>>)
    | If(condition: Expr, thenBranch: Stmt, elseBranch: Option<Stmt>)
    | While(condition: Expr, body: Stmt)
    | Function(name: Token, params: seq<Token>, statements: seq<Option<Stmt>>)
    | Return(value: Option<Expr>)
}
