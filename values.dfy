/** The runtime values of the interpreter: Java's `null`, Boolean, Double and String
    objects, and the function objects that a `fun` declaration creates. */
module Values {
  import opened Tokens
  import opened Syntax
  import opened Numbers

  /** A function object (the YaiFunction class): the declaration it was made from, and
      an identity, since two function objects are equal only when they are the same
      object. */
  datatype Callable = Callable(id: nat, name: Token, params: seq<Token>, body: seq<Option<Stmt>>)

  datatype Value =
    | Nil
    | Bool(b: bool)
    | Num(n: Number)
    | Str(s: string)
    | Fn(f: Callable)

  /** The value a literal expression evaluates to. */
  function FromLiteral(l: LiteralValue): (v: Value)
    ensures l.NullLit? <==> v.Nil?
    ensures l.BoolLit? <==> v.Bool?
    ensures l.NumLit? <==> v.Num?
    ensures l.StrLit? <==> v.Str?
    ensures l.BoolLit? ==> v.b == l.b
    ensures l.NumLit? ==> v.n == Finite(l.r)
    ensures l.StrLit? ==> v.s == l.s
  {
    match l
    case NullLit => Nil
    case BoolLit(b) => Bool(b)
    case NumLit(r) => Num(Finite(r))
    case StrLit(s) => Str(s)
  }
}
