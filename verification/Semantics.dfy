/**
 A small denotational semantics of expressions in each dialect. What the rewrites do not
 touch (operators, casts, other functions, opaque forms) is left to an arbitrary interpretation
 that all dialects share.
 */
module Semantics {
  import opened Wrappers
  import opened Dialects
  import opened SqlAst

  // ------------------------------------------------------------------ LIKE

  predicate SameChar(a: char, b: char, foldCase: bool) {
    if foldCase then FoldChar(a) == FoldChar(b) else a == b
  }

  /** `%` matches any text, `_` any character, and the escape character takes the next one literally. */
  predicate Matches(t: string, p: string, escape: Option<char>, foldCase: bool)
    decreases |p|, |t|
  {
    if p == [] then t == []
    else if escape == Some(p[0]) then
      |p| >= 2 && t != [] && SameChar(t[0], p[1], foldCase) && Matches(t[1..], p[2..], escape, foldCase)
    else if p[0] == '%' then
      Matches(t, p[1..], escape, foldCase) || (t != [] && Matches(t[1..], p, escape, foldCase))
    else if p[0] == '_' then
      t != [] && Matches(t[1..], p[1..], escape, foldCase)
    else
      t != [] && SameChar(t[0], p[0], foldCase) && Matches(t[1..], p[1..], escape, foldCase)
  }

  /** The escape character a LIKE without an ESCAPE clause uses. */
  function DefaultEscape(dialect: TargetDialect): Option<char> {
    if dialect == Sqlite then None else Some('\\')
  }

  function EscapeIn(escape: Option<char>, dialect: TargetDialect): Option<char> {
    if escape.Some? then escape else DefaultEscape(dialect)
  }

  /** Without a backslash in the pattern, backslash need not escape. */
  lemma {:induction false} NoBackslashNoEscape(t: string, p: string, foldCase: bool)
    requires '\\' !in p
    ensures Matches(t, p, Some('\\'), foldCase) == Matches(t, p, None, foldCase)
    decreases |p|, |t|
  {
    if p != [] {
      assert p[0] in p && forall c :: c in p[1..] ==> c in p;
      if p[0] == '%' {
        NoBackslashNoEscape(t, p[1..], foldCase);
      }
      if t != [] {
        NoBackslashNoEscape(t[1..], if p[0] == '%' then p else p[1..], foldCase);
      }
    }
  }

  // ------------------------------------------------------------------ expressions

  type Row = map<string, Val>

  /** The existing row, and the row proposed by an INSERT. */
  datatype Context = Context(row: Row, proposed: Row)

  /** What every dialect agrees on. */
  datatype Interpretation = Interpretation(
    text: Val -> string,
    binary: (BinaryOperator, Val, Val) -> Val,
    unary: (string, Val) -> Val,
    cast: (string, Val) -> Val,
    call: (FunctionName, List<Val>) -> Val,
    likeAny: (bool, bool, Val, Val) -> Val,
    inList: (Val, List<Val>, bool) -> Val,
    between: (Val, Val, Val, bool) -> Val,
    opaqueForm: (string, Row) -> Val,
    parameter: string -> Val)

  /** A dialect, and whether its LIKE ignores case. */
  datatype World = World(dialect: TargetDialect, likeFolds: bool, shared: Interpretation)

  function Column(row: Row, name: string): Val {
    if name in row then row[name] else Unsupported
  }

  function TextOf(v: Val, w: Interpretation): string {
    if v.Str? then v.s else w.text(v)
  }

  predicate Rejected(a: Val, b: Val) { a == Unsupported || b == Unsupported }

  function LikeValue(negated: bool, v: Val, p: Val, escape: Option<char>, foldCase: bool, w: Interpretation): Val {
    if Rejected(v, p) then Unsupported
    else if v == Null || p == Null then Null
    else Bool(Matches(TextOf(v, w), TextOf(p, w), escape, foldCase) != negated)
  }

  function LowerValue(v: Val, w: Interpretation): Val {
    if v == Unsupported || v == Null then v else Str(Lower(TextOf(v, w)))
  }

  /** Concatenation in which a NULL makes the result NULL. */
  function ConcatStrict(a: Val, b: Val, w: Interpretation): Val {
    if Rejected(a, b) then Unsupported
    else if a == Null || b == Null then Null
    else Str(TextOf(a, w) + TextOf(b, w))
  }

  /** MySQL's CONCAT. */
  function ConcatAll(vs: List<Val>, w: Interpretation): Val {
    match vs
    case Nil => Str("")
    case Cons(v, Nil) => if v == Null || v == Unsupported then v else Str(TextOf(v, w))
    case Cons(v, rest) => ConcatStrict(v, ConcatAll(rest, w), w)
  }

  /** CONCAT elsewhere: NULLs are skipped. */
  function ConcatSkipping(vs: List<Val>, w: Interpretation): Val {
    match vs
    case Nil => Str("")
    case Cons(v, rest) => ConcatStrict(if v == Null then Str("") else v, ConcatSkipping(rest, w), w)
  }

  /** `VALUES(c)` naming a column. */
  predicate IsValuesRef(fn: FunctionName, args: Args) {
    && fn == VALUES
    && args.ArgList? && args.list.Cons? && args.list.tail == Nil
    && args.list.head.Unnamed? && args.list.head.e.Identifier?
  }

  function Eval(e: Expr, ctx: Context, w: World): Val {
    match e
    case Identifier(name) => Column(ctx.row, name)
    case Compound(qualifier, name) =>
      if qualifier == "excluded" && w.dialect != Mysql then Column(ctx.proposed, name) else Column(ctx.row, name)
    case Literal(v) => v
    case Placeholder(text) => w.shared.parameter(text)
    case Function(fn, args) =>
      if IsValuesRef(fn, args) then
        if w.dialect == Mysql then Column(ctx.proposed, args.list.head.e.name) else Unsupported
      else Apply(fn, if args.ArgList? then EvalArgs(args.list, ctx, w) else Nil, w)
    case Binary(l, op, r) =>
      var a, b := Eval(l, ctx, w), Eval(r, ctx, w);
      if op == StringConcat && w.dialect != Mysql then ConcatStrict(a, b, w.shared) else w.shared.binary(op, a, b)
    case Unary(op, e1) => w.shared.unary(op, Eval(e1, ctx, w))
    case Nested(e1) => Eval(e1, ctx, w)
    case Cast(kind, e1, dataType) =>
      if kind == DoubleColon && w.dialect != Postgres then Unsupported else w.shared.cast(dataType, Eval(e1, ctx, w))
    case Like(negated, anyOf, e1, pattern, escape) =>
      if anyOf then
        if w.dialect != Postgres then Unsupported
        else w.shared.likeAny(negated, false, Eval(e1, ctx, w), Eval(pattern, ctx, w))
      else LikeValue(negated, Eval(e1, ctx, w), Eval(pattern, ctx, w), EscapeIn(escape, w.dialect), w.likeFolds,
          w.shared)
    case ILike(negated, anyOf, e1, pattern, escape) =>
      if w.dialect != Postgres then Unsupported
      else if anyOf then w.shared.likeAny(negated, true, Eval(e1, ctx, w), Eval(pattern, ctx, w))
      else LikeValue(negated, Eval(e1, ctx, w), Eval(pattern, ctx, w), EscapeIn(escape, Postgres), true, w.shared)
    case InList(e1, list, negated) => w.shared.inList(Eval(e1, ctx, w), EvalAll(list, ctx, w), negated)
    case Between(e1, low, high, negated) =>
      w.shared.between(Eval(e1, ctx, w), Eval(low, ctx, w), Eval(high, ctx, w), negated)
    case Opaque(text) => w.shared.opaqueForm(text, ctx.row)
  }

  function EvalArgs(args: List<Arg>, ctx: Context, w: World): List<Val> {
    match args
    case Nil => Nil
    case Cons(arg, rest) => Cons(if arg.Star? then Str("*") else Eval(arg.e, ctx, w), EvalArgs(rest, ctx, w))
  }

  function EvalAll(es: List<Expr>, ctx: Context, w: World): List<Val> {
    match es
    case Nil => Nil
    case Cons(e, rest) => Cons(Eval(e, ctx, w), EvalAll(rest, ctx, w))
  }

  /** A function on its values. */
  function Apply(fn: FunctionName, vs: List<Val>, w: World): Val {
    if fn == LOWER && vs.Cons? && vs.tail == Nil then LowerValue(vs.head, w.shared)
    else if fn == CONCAT then
      if w.dialect == Mysql then ConcatAll(vs, w.shared) else ConcatSkipping(vs, w.shared)
    else if fn == VALUES then Unsupported
    else w.shared.call(fn, vs)
  }
}
