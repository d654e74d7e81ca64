/** The expressions the rewrites name, with every other form an opaque leaf. */
module SqlAst {
  import opened Wrappers

  datatype Val =
    | Null
    | Num(n: int)
    | Str(s: string)
    | Bool(b: bool)
    | Unsupported  // the dialect rejects the construct

  datatype BinaryOperator = StringConcat | Eq | NotEq | Lt | LtEq | Gt | GtEq | OtherOp(text: string)

  datatype CastKind = CastFunction | DoubleColon

  /** A function's name up to ASCII case: the ones the rewrites know, and any other. */
  datatype FunctionName =
    | LOWER | CONCAT | VALUES | HEX | RANDOMBLOB
    | NOW | CURRENT_TIMESTAMP | UUID_GENERATE_V4 | GEN_RANDOM_UUID | RAND
    | LAST_INSERT_ID
    | OtherFunction(name: string)

  datatype Arg = Unnamed(e: Expr) | Named(name: string, e: Expr) | Star

  datatype Args = NoParens | ArgList(list: List<Arg>) | Subquery(text: string)

  datatype Expr =
    | Identifier(name: string)
    | Compound(qualifier: string, name: string)
    | Literal(v: Val)
    | Placeholder(text: string)
    | Function(fn: FunctionName, args: Args)
    | Binary(left: Expr, op: BinaryOperator, right: Expr)
    | Unary(uop: string, e: Expr)
    | Nested(e: Expr)
    | Cast(kind: CastKind, e: Expr, dataType: string)
    | Like(negated: bool, anyOf: bool, e: Expr, pattern: Expr, escape: Option<char>)
    | ILike(negated: bool, anyOf: bool, e: Expr, pattern: Expr, escape: Option<char>)
    | InList(e: Expr, list: List<Expr>, negated: bool)
    | Between(e: Expr, low: Expr, high: Expr, negated: bool)
    | Opaque(text: string)

  // ------------------------------------------------------------------ ASCII case

  function FoldChar(c: char): char {
    if 'A' <= c <= 'Z' then (c as int + 32) as char else c
  }

  function Lower(s: string): (r: string)
    ensures |r| == |s|
  {
    if s == [] then [] else [FoldChar(s[0])] + Lower(s[1..])
  }

  function Call(name: FunctionName, args: List<Expr>): Expr {
    Function(name, ArgList(AllUnnamed(args)))
  }

  function AllUnnamed(es: List<Expr>): List<Arg> {
    match es
    case Nil => Nil
    case Cons(e, rest) => Cons(Unnamed(e), AllUnnamed(rest))
  }
}
