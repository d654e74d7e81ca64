/**
 The expression visitor: `ILIKE` to `LOWER LIKE LOWER`, `||` to `CONCAT`, `::` to `CAST`, and
 SQLite's replacements for clock, UUID and random functions. It rewrites bottom-up.
 */
module ExprRewriting {
  import opened Wrappers
  import opened Dialects
  import opened SqlAst

  function LowerExpr(e: Expr): Expr {
    Call(LOWER, Cons(e, Nil))
  }

  /** The functions SQLite lacks. */
  predicate IsNow(fn: FunctionName) { fn == NOW || fn == CURRENT_TIMESTAMP }

  predicate IsUuid(fn: FunctionName) { fn == UUID_GENERATE_V4 || fn == GEN_RANDOM_UUID }

  predicate Replaced(fn: FunctionName, target: TargetDialect) {
    target == Sqlite && (IsNow(fn) || IsUuid(fn) || fn == RAND)
  }

  const RANDOM_NUMBER := "((random() / 18446744073709551616) + 1) / 2 * -1"

  /** What the visitor does to a node whose children are already rewritten. */
  function RewriteNode(e: Expr, target: TargetDialect): Expr {
    match e
    case ILike(negated, anyOf, lhs, pattern, escape) =>
      if target != Postgres then Like(negated, anyOf, LowerExpr(lhs), LowerExpr(pattern), escape) else e
    case Binary(l, op, r) =>
      if op == StringConcat && target == Mysql then Call(CONCAT, Cons(l, Cons(r, Nil))) else e
    case Cast(kind, e1, dataType) =>
      if kind == DoubleColon && target != Postgres then Cast(CastFunction, e1, dataType) else e
    case Function(fn, args) =>
      if target != Sqlite then e
      else if IsNow(fn) then Identifier("CURRENT_TIMESTAMP")
      else if IsUuid(fn) then
        Call(LOWER, Cons(Call(HEX, Cons(Call(RANDOMBLOB, Cons(Literal(Num(16)), Nil)), Nil)), Nil))
      else if fn == RAND then Opaque(RANDOM_NUMBER)
      else e
    case _ => e
  }

  function RewriteExpr(e: Expr, target: TargetDialect): Expr
    decreases e, 1
  {
    RewriteNode(RewriteChildren(e, target), target)
  }

  function RewriteChildren(e: Expr, target: TargetDialect): Expr
    decreases e, 0
  {
    match e
    case Function(fn, ArgList(list)) => Function(fn, ArgList(RewriteArgs(list, target)))
    case Binary(l, op, r) => Binary(RewriteExpr(l, target), op, RewriteExpr(r, target))
    case Unary(op, e1) => Unary(op, RewriteExpr(e1, target))
    case Nested(e1) => Nested(RewriteExpr(e1, target))
    case Cast(kind, e1, dataType) => Cast(kind, RewriteExpr(e1, target), dataType)
    case Like(negated, anyOf, e1, pattern, escape) =>
      Like(negated, anyOf, RewriteExpr(e1, target), RewriteExpr(pattern, target), escape)
    case ILike(negated, anyOf, e1, pattern, escape) =>
      ILike(negated, anyOf, RewriteExpr(e1, target), RewriteExpr(pattern, target), escape)
    case InList(e1, list, negated) => InList(RewriteExpr(e1, target), RewriteAll(list, target), negated)
    case Between(e1, low, high, negated) =>
      Between(RewriteExpr(e1, target), RewriteExpr(low, target), RewriteExpr(high, target), negated)
    case _ => e
  }

  function RewriteArgs(args: List<Arg>, target: TargetDialect): List<Arg>
    decreases args, 0
  {
    match args
    case Nil => Nil
    case Cons(arg, rest) =>
      Cons(match arg
           case Unnamed(e) => Unnamed(RewriteExpr(e, target))
           case Named(name, e) => Named(name, RewriteExpr(e, target))
           case Star => Star,
           RewriteArgs(rest, target))
  }

  function RewriteAll(es: List<Expr>, target: TargetDialect): List<Expr>
    decreases es, 0
  {
    match es
    case Nil => Nil
    case Cons(e, rest) => Cons(RewriteExpr(e, target), RewriteAll(rest, target))
  }

  /** The expression a visitor is standing on. */
  class ExprSlot {
    var expr: Expr

    constructor (e: Expr)
      ensures expr == e
    {
      expr := e;
    }

    /** Replace the expression in place, its children having been visited. */
    method PostVisitExpr(target: TargetDialect)
      modifies this
      ensures expr == RewriteNode(old(expr), target)
      ensures ChildrenNormal(old(expr), target) ==> Normal(expr, target)
    {
      if ChildrenNormal(expr, target) {
        NodeIsNormal(expr, target);
      }
      match expr {
        case ILike(negated, anyOf, lhs, pattern, escape) =>
          if target == Mysql || target == Sqlite {
            expr := Like(negated, anyOf, LowerExpr(lhs), LowerExpr(pattern), escape);
          }
        case Binary(l, op, r) =>
          if op == StringConcat && target == Mysql {
            expr := Call(CONCAT, Cons(l, Cons(r, Nil)));
          }
        case Cast(kind, e1, dataType) =>
          if kind == DoubleColon && target != Postgres {
            expr := Cast(CastFunction, e1, dataType);
          }
        case Function(fn, _) =>
          if target == Sqlite {
            if IsNow(fn) {
              expr := Identifier("CURRENT_TIMESTAMP");
            } else if IsUuid(fn) {
              var blob := Call(RANDOMBLOB, Cons(Literal(Num(16)), Nil));
              expr := Call(LOWER, Cons(Call(HEX, Cons(blob, Nil)), Nil));
            } else if fn == RAND {
              expr := Opaque(RANDOM_NUMBER);
            }
          }
        case _ =>
      }
    }
  }

  // ------------------------------------------------------------------ normal form

  /** Nothing in `e` is in a form the target does not have. */
  predicate Normal(e: Expr, target: TargetDialect)
    decreases e, 1
  {
    && ChildrenNormal(e, target)
    && match e
       case ILike(_, _, _, _, _) => target == Postgres
       case Binary(_, op, _) => op == StringConcat ==> target != Mysql
       case Cast(kind, _, _) => kind == DoubleColon ==> target == Postgres
       case Function(fn, _) => !Replaced(fn, target)
       case _ => true
  }

  predicate ChildrenNormal(e: Expr, target: TargetDialect)
    decreases e, 0
  {
    match e
    case Function(_, ArgList(list)) => NormalArgs(list, target)
    case Binary(l, _, r) => Normal(l, target) && Normal(r, target)
    case Unary(_, e1) => Normal(e1, target)
    case Nested(e1) => Normal(e1, target)
    case Cast(_, e1, _) => Normal(e1, target)
    case Like(_, _, e1, p, _) => Normal(e1, target) && Normal(p, target)
    case ILike(_, _, e1, p, _) => Normal(e1, target) && Normal(p, target)
    case InList(e1, list, _) => Normal(e1, target) && NormalAll(list, target)
    case Between(e1, low, high, _) => Normal(e1, target) && Normal(low, target) && Normal(high, target)
    case _ => true
  }

  predicate NormalArgs(args: List<Arg>, target: TargetDialect)
    decreases args, 0
  {
    match args
    case Nil => true
    case Cons(arg, rest) => (!arg.Star? ==> Normal(arg.e, target)) && NormalArgs(rest, target)
  }

  predicate NormalAll(es: List<Expr>, target: TargetDialect)
    decreases es, 0
  {
    match es
    case Nil => true
    case Cons(e, rest) => Normal(e, target) && NormalAll(rest, target)
  }

  lemma {:induction false} NormalCall(fn: FunctionName, e: Expr, more: List<Expr>, target: TargetDialect)
    requires !Replaced(fn, target) && Normal(e, target) && NormalArgs(AllUnnamed(more), target)
    ensures Normal(Call(fn, Cons(e, more)), target)
  {
    assert AllUnnamed(Cons(e, more)) == Cons(Unnamed(e), AllUnnamed(more));
  }

  lemma {:induction false} NodeIsNormal(e: Expr, target: TargetDialect)
    requires ChildrenNormal(e, target)
    ensures Normal(RewriteNode(e, target), target)
  {
    assert NormalArgs(AllUnnamed(Nil), target);
    match e
    case ILike(_, _, e1, p, _) =>
      NormalCall(LOWER, e1, Nil, target);
      NormalCall(LOWER, p, Nil, target);
    case Binary(l, _, r) =>
      assert AllUnnamed(Cons(r, Nil)) == Cons(Unnamed(r), AllUnnamed(Nil));
      NormalCall(CONCAT, l, Cons(r, Nil), target);
    case Function(_, _) =>
      var sixteen := Literal(Num(16));
      NormalCall(RANDOMBLOB, sixteen, Nil, target);
      NormalCall(HEX, Call(RANDOMBLOB, Cons(sixteen, Nil)), Nil, target);
      NormalCall(LOWER, Call(HEX, Cons(Call(RANDOMBLOB, Cons(sixteen, Nil)), Nil)), Nil, target);
    case _ =>
  }

  /** One visit leaves no such form anywhere it reaches. */
  lemma {:induction false} RewritingIsNormal(e: Expr, target: TargetDialect)
    ensures Normal(RewriteExpr(e, target), target)
    decreases e, 1
  {
    RewrittenChildrenNormal(e, target);
    NodeIsNormal(RewriteChildren(e, target), target);
  }

  lemma {:induction false} RewrittenChildrenNormal(e: Expr, target: TargetDialect)
    ensures ChildrenNormal(RewriteChildren(e, target), target)
    decreases e, 0
  {
    match e
    case Function(_, ArgList(list)) => RewritingArgsIsNormal(list, target);
    case Binary(l, _, r) => RewritingIsNormal(l, target); RewritingIsNormal(r, target);
    case Unary(_, e1) => RewritingIsNormal(e1, target);
    case Nested(e1) => RewritingIsNormal(e1, target);
    case Cast(_, e1, _) => RewritingIsNormal(e1, target);
    case Like(_, _, e1, p, _) => RewritingIsNormal(e1, target); RewritingIsNormal(p, target);
    case ILike(_, _, e1, p, _) => RewritingIsNormal(e1, target); RewritingIsNormal(p, target);
    case InList(e1, list, _) => RewritingIsNormal(e1, target); RewritingAllIsNormal(list, target);
    case Between(e1, low, high, _) =>
      RewritingIsNormal(e1, target); RewritingIsNormal(low, target); RewritingIsNormal(high, target);
    case _ =>
  }

  lemma {:induction false} RewritingArgsIsNormal(args: List<Arg>, target: TargetDialect)
    ensures NormalArgs(RewriteArgs(args, target), target)
    decreases args, 0
  {
    if args.Cons? {
      RewritingArgsIsNormal(args.tail, target);
      if !args.head.Star? {
        RewritingIsNormal(args.head.e, target);
      }
    }
  }

  lemma {:induction false} RewritingAllIsNormal(es: List<Expr>, target: TargetDialect)
    ensures NormalAll(RewriteAll(es, target), target)
    decreases es, 0
  {
    if es.Cons? {
      RewritingIsNormal(es.head, target);
      RewritingAllIsNormal(es.tail, target);
    }
  }

  /** A tree already in normal form is left as it is, so visiting twice changes nothing. */
  lemma {:induction false} NormalIsUnchanged(e: Expr, target: TargetDialect)
    requires Normal(e, target)
    ensures RewriteExpr(e, target) == e
  {
    match e
    case Function(_, ArgList(list)) => NormalArgsUnchanged(list, target);
    case Binary(l, _, r) => NormalIsUnchanged(l, target); NormalIsUnchanged(r, target);
    case Unary(_, e1) => NormalIsUnchanged(e1, target);
    case Nested(e1) => NormalIsUnchanged(e1, target);
    case Cast(_, e1, _) => NormalIsUnchanged(e1, target);
    case Like(_, _, e1, p, _) => NormalIsUnchanged(e1, target); NormalIsUnchanged(p, target);
    case ILike(_, _, e1, p, _) => NormalIsUnchanged(e1, target); NormalIsUnchanged(p, target);
    case InList(e1, list, _) => NormalIsUnchanged(e1, target); NormalAllUnchanged(list, target);
    case Between(e1, low, high, _) =>
      NormalIsUnchanged(e1, target); NormalIsUnchanged(low, target); NormalIsUnchanged(high, target);
    case _ =>
  }

  lemma {:induction false} NormalArgsUnchanged(args: List<Arg>, target: TargetDialect)
    requires NormalArgs(args, target)
    ensures RewriteArgs(args, target) == args
  {
    if args.Cons? {
      NormalArgsUnchanged(args.tail, target);
      if !args.head.Star? {
        NormalIsUnchanged(args.head.e, target);
      }
    }
  }

  lemma {:induction false} NormalAllUnchanged(es: List<Expr>, target: TargetDialect)
    requires NormalAll(es, target)
    ensures RewriteAll(es, target) == es
  {
    if es.Cons? {
      NormalIsUnchanged(es.head, target);
      NormalAllUnchanged(es.tail, target);
    }
  }

  lemma {:induction false} RewritingIsIdempotent(e: Expr, target: TargetDialect)
    ensures RewriteExpr(RewriteExpr(e, target), target) == RewriteExpr(e, target)
  {
    RewritingIsNormal(e, target);
    NormalIsUnchanged(RewriteExpr(e, target), target);
  }

  /** Exactly the trees in normal form are left alone ... */
  lemma {:induction false} UnchangedIffNormal(e: Expr, target: TargetDialect)
    ensures RewriteExpr(e, target) == e <==> Normal(e, target)
  {
    RewritingIsNormal(e, target);
    if Normal(e, target) {
      NormalIsUnchanged(e, target);
    }
  }

  /** ... and for PostgreSQL that is every tree. */
  lemma {:induction false} PostgresUnchanged(e: Expr)
    ensures RewriteExpr(e, Postgres) == e
  {
    AnyIsNormal(e);
    NormalIsUnchanged(e, Postgres);
  }

  lemma {:induction false} AnyIsNormal(e: Expr)
    ensures Normal(e, Postgres)
  {
    match e
    case Function(_, ArgList(list)) => AnyArgsAreNormal(list);
    case Binary(l, _, r) => AnyIsNormal(l); AnyIsNormal(r);
    case Unary(_, e1) => AnyIsNormal(e1);
    case Nested(e1) => AnyIsNormal(e1);
    case Cast(_, e1, _) => AnyIsNormal(e1);
    case Like(_, _, e1, p, _) => AnyIsNormal(e1); AnyIsNormal(p);
    case ILike(_, _, e1, p, _) => AnyIsNormal(e1); AnyIsNormal(p);
    case InList(e1, list, _) => AnyIsNormal(e1); AllAreNormal(list);
    case Between(e1, low, high, _) => AnyIsNormal(e1); AnyIsNormal(low); AnyIsNormal(high);
    case _ =>
  }

  lemma {:induction false} AnyArgsAreNormal(args: List<Arg>)
    ensures NormalArgs(args, Postgres)
  {
    if args.Cons? {
      AnyArgsAreNormal(args.tail);
      if !args.head.Star? {
        AnyIsNormal(args.head.e);
      }
    }
  }

  lemma {:induction false} AllAreNormal(es: List<Expr>)
    ensures NormalAll(es, Postgres)
  {
    if es.Cons? {
      AnyIsNormal(es.head);
      AllAreNormal(es.tail);
    }
  }

  function OneArg(fn: FunctionName, e: Expr): Expr { Function(fn, ArgList(Cons(Unnamed(e), Nil))) }

  /** What SQLite gets for the functions it lacks, whatever their arguments; the other backends keep them. */
  lemma {:induction false} StandIns(fn: FunctionName, args: Args, target: TargetDialect)
    ensures target == Sqlite && fn in {NOW, CURRENT_TIMESTAMP} ==>
              RewriteExpr(Function(fn, args), target) == Identifier("CURRENT_TIMESTAMP")
    ensures target == Sqlite && fn in {UUID_GENERATE_V4, GEN_RANDOM_UUID} ==>
              RewriteExpr(Function(fn, args), target)
              == OneArg(LOWER, OneArg(HEX, OneArg(RANDOMBLOB, Literal(Num(16)))))
    ensures target == Sqlite && fn == RAND ==> RewriteExpr(Function(fn, args), target) == Opaque(RANDOM_NUMBER)
    ensures target != Sqlite || fn !in {NOW, CURRENT_TIMESTAMP, UUID_GENERATE_V4, GEN_RANDOM_UUID, RAND} ==>
              RewriteExpr(Function(fn, args), target)
              == Function(fn, if args.ArgList? then ArgList(RewriteArgs(args.list, target)) else args)
  {
    assert AllUnnamed(Nil) == Nil;
  }

  /** The value of `RANDOM_NUMBER` when `random()` is `r`, a signed 64-bit integer on SQLite. */
  function RandomValue(r: int): real { (r as real / 18446744073709551616.0 + 1.0) / 2.0 * -1.0 }

  /** It is between -3/4 and -1/4, and so never a value of RAND(), which is between 0 and 1. */
  lemma RandomIsNegative(r: int)
    requires -0x8000_0000_0000_0000 <= r < 0x8000_0000_0000_0000
    ensures -0.75 < RandomValue(r) <= -0.25
  {
  }
}
