/**
 What INSERT does to a keyed table in each dialect, and which rewrites keep it. A table has one
 unique key; rows are complete (defaults filled in).
 */
module UpsertMeaning {
  import opened Wrappers
  import opened Dialects
  import opened SqlAst
  import opened Semantics
  import opened InsertRewriting

  // ------------------------------------------------------------------ tables

  /** `constraint` is the name of the key's constraint. */
  datatype Table = Table(key: string, constraint: string, columns: set<string>, rows: map<Val, Row>)

  ghost predicate WellFormed(t: Table) {
    t.key in t.columns && forall k :: k in t.rows ==> t.rows[k].Keys == t.columns && t.rows[k][t.key] == k
  }

  /** What happens to a proposed row whose key is taken. */
  datatype Policy =
    | Fail
    | Skip
    | UpdateInOrder(assignments: List<Assignment>)
    | UpdateAtOnce(assignments: List<Assignment>, selection: Option<Expr>)

  /** Each assignment sees the ones before it. */
  function InOrder(row: Row, proposed: Row, assigns: List<Assignment>, w: World): Row
    decreases assigns
  {
    match assigns
    case Nil => row
    case Cons(a, rest) => InOrder(row[a.column := Eval(a.value, Context(row, proposed), w)], proposed, rest, w)
  }

  /** Every right side sees the row as it was. */
  function AtOnce(before: Row, row: Row, proposed: Row, assigns: List<Assignment>, w: World): Row
    decreases assigns
  {
    match assigns
    case Nil => row
    case Cons(a, rest) =>
      AtOnce(before, row[a.column := Eval(a.value, Context(before, proposed), w)], proposed, rest, w)
  }

  /** Put `row` in the place of the row at `k`, under its own key. */
  function Replace(t: Table, k: Val, row: Row): Option<Table> {
    var k' := Column(row, t.key);
    if k' == k then Some(t.(rows := t.rows[k := row]))
    else if k' in t.rows || k' == Null || k' == Unsupported then None
    else Some(t.(rows := (t.rows - {k})[k' := row]))
  }

  /** None is a statement the backend rejects. */
  function InsertRow(t: Table, proposed: Row, policy: Policy, w: World): Option<Table> {
    if proposed.Keys != t.columns || Column(proposed, t.key) in {Null, Unsupported} then None
    else
      var k := Column(proposed, t.key);
      if k !in t.rows then Some(t.(rows := t.rows[k := proposed]))
      else
        match policy
        case Fail => None
        case Skip => Some(t)
        case UpdateInOrder(assigns) => Replace(t, k, InOrder(t.rows[k], proposed, assigns, w))
        case UpdateAtOnce(assigns, selection) =>
          if selection == None || Eval(selection.value, Context(t.rows[k], proposed), w) == Bool(true) then
            Replace(t, k, AtOnce(t.rows[k], t.rows[k], proposed, assigns, w))
          else Some(t)
  }

  function InsertAll(t: Table, rows: List<Row>, policy: Policy, w: World): Option<Table>
    decreases rows
  {
    match rows
    case Nil => Some(t)
    case Cons(row, rest) =>
      match InsertRow(t, row, policy, w)
      case None => None
      case Some(t') => InsertAll(t', rest, policy, w)
  }

  // ------------------------------------------------------------------ statements

  /** Every column `e` names exists. */
  predicate Known(e: Expr, columns: set<string>) {
    match e
    case Identifier(name) => name in columns
    case Compound(_, name) => name in columns
    case Function(_, ArgList(list)) => ArgsKnown(list, columns)
    case Binary(l, _, r) => Known(l, columns) && Known(r, columns)
    case Unary(_, e1) => Known(e1, columns)
    case Nested(e1) => Known(e1, columns)
    case Cast(_, e1, _) => Known(e1, columns)
    case Like(_, _, e1, p, _) => Known(e1, columns) && Known(p, columns)
    case ILike(_, _, e1, p, _) => Known(e1, columns) && Known(p, columns)
    case InList(e1, list, _) => Known(e1, columns) && AllKnown(list, columns)
    case Between(e1, low, high, _) => Known(e1, columns) && Known(low, columns) && Known(high, columns)
    case _ => true
  }

  predicate ArgsKnown(args: List<Arg>, columns: set<string>) {
    args.Nil? || ((!args.head.Star? ==> Known(args.head.e, columns)) && ArgsKnown(args.tail, columns))
  }

  predicate AllKnown(es: List<Expr>, columns: set<string>) {
    es.Nil? || (Known(es.head, columns) && AllKnown(es.tail, columns))
  }

  predicate AssignmentsKnown(assigns: List<Assignment>, columns: set<string>) {
    match assigns
    case Nil => true
    case Cons(a, rest) => a.column in columns && Known(a.value, columns) && AssignmentsKnown(rest, columns)
  }

  /** A conflict target names the key by its column or, on PostgreSQL, by its constraint. */
  predicate NamesKey(target: Option<ConflictTarget>, t: Table, dialect: TargetDialect) {
    match target
    case None => true
    case Some(Columns(columns)) => columns == Cons(t.key, Nil)
    case Some(OnConstraint(name)) => dialect == Postgres && name == t.constraint
  }

  /** The conflict policy a statement asks for; None when the dialect rejects the statement. */
  function PolicyOf(stmt: Insert, t: Table, dialect: TargetDialect): Option<Policy>
    requires stmt.orClause == None
  {
    if dialect == Mysql then
      if stmt.returning then None
      else
        match stmt.onInsert
        case None => Some(if stmt.ignore then Skip else Fail)
        case Some(DuplicateKeyUpdate(assigns)) =>
          if AssignmentsKnown(assigns, t.columns) then Some(UpdateInOrder(assigns)) else None
        case Some(OnConflict(_, _)) => None
    else if stmt.ignore then None
    else
      match stmt.onInsert
      case None => Some(Fail)
      case Some(DuplicateKeyUpdate(_)) => None
      case Some(OnConflict(target, action)) =>
        if !NamesKey(target, t, dialect) then None
        else
          match action
          case DoNothing => Some(Skip)
          case DoUpdate(assigns, selection) =>
            // PostgreSQL wants to know which key; SQLite takes any.
            if dialect == Postgres && target.None? then None
            else if AssignmentsKnown(assigns, t.columns) then Some(UpdateAtOnce(assigns, selection))
            else None
  }

  function Run(stmt: Insert, t: Table, w: World): Option<Table>
    requires stmt.orClause == None
  {
    match PolicyOf(stmt, t, w.dialect)
    case None => None
    case Some(policy) => InsertAll(t, stmt.rows, policy, w)
  }

  // ------------------------------------------------------------------ expressions both sides share

  /** Forms with one meaning on MySQL and SQLite, `VALUES(c)` only where it is rewritten. */
  predicate Shared(e: Expr) {
    match e
    case Compound(qualifier, _) => qualifier != "excluded"
    case Function(fn, args) =>
      || IsValuesRef(fn, args)
      || (fn != VALUES && fn != CONCAT && (args.ArgList? ==> ArgsShared(args.list)))
    case Binary(l, op, r) => op != StringConcat && Shared(l) && Shared(r)
    case Unary(_, e1) => Shared(e1)
    case Nested(e1) => Shared(e1)
    case Cast(kind, e1, _) => kind == CastFunction && Shared(e1)
    case Like(_, anyOf, e1, pattern, escape) =>
      Shared(e1) && Shared(pattern) && !HasValues(e) && (anyOf || SameEscape(pattern, escape))
    case ILike(_, _, _, _, _) => false
    case InList(e1, list, _) => Shared(e1) && AllShared(list) && !HasValues(e)
    case Between(e1, low, high, _) => Shared(e1) && Shared(low) && Shared(high) && !HasValues(e)
    case _ => true
  }

  /** The default escape character, which SQLite does not have, plays no part. */
  predicate SameEscape(pattern: Expr, escape: Option<char>) {
    escape.Some? || (pattern.Literal? && pattern.v.Str? && '\\' !in pattern.v.s)
  }

  predicate ArgsShared(args: List<Arg>) {
    match args
    case Nil => true
    case Cons(Unnamed(e), rest) => Shared(e) && ArgsShared(rest)
    case Cons(Named(_, e), rest) => Shared(e) && !HasValues(e) && ArgsShared(rest)
    case Cons(Star, rest) => ArgsShared(rest)
  }

  predicate AllShared(es: List<Expr>) {
    es.Nil? || (Shared(es.head) && AllShared(es.tail))
  }

  ghost predicate Siblings(m: World, s: World) {
    m.dialect == Mysql && s.dialect == Sqlite && m.shared == s.shared && m.likeFolds == s.likeFolds
  }

  /** LIKE ANY occurs, which only PostgreSQL has. */
  predicate HasLikeAny(e: Expr) {
    match e
    case Function(_, ArgList(list)) => ArgsHaveLikeAny(list)
    case Binary(l, _, r) => HasLikeAny(l) || HasLikeAny(r)
    case Unary(_, e1) => HasLikeAny(e1)
    case Nested(e1) => HasLikeAny(e1)
    case Cast(_, e1, _) => HasLikeAny(e1)
    case Like(_, anyOf, e1, p, _) => anyOf || HasLikeAny(e1) || HasLikeAny(p)
    case InList(e1, list, _) => HasLikeAny(e1) || AnyHasLikeAny(list)
    case Between(e1, low, high, _) => HasLikeAny(e1) || HasLikeAny(low) || HasLikeAny(high)
    case _ => false
  }

  predicate ArgsHaveLikeAny(args: List<Arg>) {
    args.Cons? && ((!args.head.Star? && HasLikeAny(args.head.e)) || ArgsHaveLikeAny(args.tail))
  }

  predicate AnyHasLikeAny(es: List<Expr>) {
    es.Cons? && (HasLikeAny(es.head) || AnyHasLikeAny(es.tail))
  }

  ghost predicate Relatives(m: World, w: World) {
    m.dialect == Mysql && w.dialect != Mysql && m.shared == w.shared && m.likeFolds == w.likeFolds
  }

  lemma {:induction false} SameLike(e: Expr, ctx: Context, m: World, w: World)
    requires Relatives(m, w) && e.Like? && (e.anyOf || SameEscape(e.pattern, e.escape))
    requires w.dialect == Postgres ==> !e.anyOf
    requires Eval(e.e, ctx, w) == Eval(e.e, ctx, m) && Eval(e.pattern, ctx, w) == Eval(e.pattern, ctx, m)
    ensures Eval(e, ctx, w) == Eval(e, ctx, m)
  {
    if !e.anyOf && e.escape.None? {
      NoBackslashNoEscape(TextOf(Eval(e.e, ctx, m), m.shared), e.pattern.v.s, m.likeFolds);
    }
  }

  lemma {:induction false} SameWithoutValues(e: Expr, ctx: Context, m: World, w: World)
    requires Relatives(m, w) && Shared(e) && !HasValues(e) && (w.dialect == Postgres ==> !HasLikeAny(e))
    ensures Eval(e, ctx, w) == Eval(e, ctx, m)
  {
    match e
    case Function(fn, ArgList(list)) => ArgsSameWithoutValues(list, ctx, m, w);
    case Binary(l, _, r) => SameWithoutValues(l, ctx, m, w); SameWithoutValues(r, ctx, m, w);
    case Unary(_, e1) => SameWithoutValues(e1, ctx, m, w);
    case Nested(e1) => SameWithoutValues(e1, ctx, m, w);
    case Cast(_, e1, _) => SameWithoutValues(e1, ctx, m, w);
    case Like(_, _, e1, p, _) =>
      SameWithoutValues(e1, ctx, m, w); SameWithoutValues(p, ctx, m, w); SameLike(e, ctx, m, w);
    case InList(e1, list, _) => SameWithoutValues(e1, ctx, m, w); AllSameWithoutValues(list, ctx, m, w);
    case Between(e1, low, high, _) =>
      SameWithoutValues(e1, ctx, m, w); SameWithoutValues(low, ctx, m, w); SameWithoutValues(high, ctx, m, w);
    case _ =>
  }

  lemma {:induction false} ArgsSameWithoutValues(args: List<Arg>, ctx: Context, m: World, w: World)
    requires Relatives(m, w) && ArgsShared(args) && !ArgsHaveValues(args)
    requires w.dialect == Postgres ==> !ArgsHaveLikeAny(args)
    ensures EvalArgs(args, ctx, w) == EvalArgs(args, ctx, m)
  {
    if args.Cons? {
      ArgsSameWithoutValues(args.tail, ctx, m, w);
      if !args.head.Star? {
        SameWithoutValues(args.head.e, ctx, m, w);
      }
    }
  }

  lemma {:induction false} AllSameWithoutValues(es: List<Expr>, ctx: Context, m: World, w: World)
    requires Relatives(m, w) && AllShared(es) && !AnyHasValues(es) && (w.dialect == Postgres ==> !AnyHasLikeAny(es))
    ensures EvalAll(es, ctx, w) == EvalAll(es, ctx, m)
  {
    if es.Cons? {
      SameWithoutValues(es.head, ctx, m, w);
      AllSameWithoutValues(es.tail, ctx, m, w);
    }
  }

  /** `excluded.c` on SQLite is `VALUES(c)` on MySQL. */
  lemma {:induction false} ValuesRefMeaning(e: Expr, ctx: Context, m: World, s: World)
    requires Siblings(m, s) && Shared(e)
    ensures Eval(RewriteValuesRef(e), ctx, s) == Eval(e, ctx, m)
  {
    match e
    case Function(fn, ArgList(list)) =>
      if !IsValuesRef(fn, e.args) {
        ValuesArgsMeaning(list, ctx, m, s);
        RewrittenArgsAreNoRef(fn, list);
      }
    case Binary(l, _, r) => ValuesRefMeaning(l, ctx, m, s); ValuesRefMeaning(r, ctx, m, s);
    case Unary(_, e1) => ValuesRefMeaning(e1, ctx, m, s);
    case Nested(e1) => ValuesRefMeaning(e1, ctx, m, s);
    case Cast(_, e1, _) => ValuesRefMeaning(e1, ctx, m, s);
    case Like(_, _, _, _, _) => SameWithoutValues(e, ctx, m, s);
    case InList(_, _, _) => SameWithoutValues(e, ctx, m, s);
    case Between(_, _, _, _) => SameWithoutValues(e, ctx, m, s);
    case _ =>
  }

  lemma {:induction false} ValuesArgsMeaning(args: List<Arg>, ctx: Context, m: World, s: World)
    requires Siblings(m, s) && ArgsShared(args)
    ensures EvalArgs(RewriteValuesArgs(args), ctx, s) == EvalArgs(args, ctx, m)
  {
    if args.Cons? {
      ValuesArgsMeaning(args.tail, ctx, m, s);
      match args.head
      case Unnamed(e) => ValuesRefMeaning(e, ctx, m, s);
      case Named(_, e) => SameWithoutValues(e, ctx, m, s);
      case Star =>
    }
  }

  // ------------------------------------------------------------------ reading assigned columns

  /** `e` reads none of `columns` of the existing row; an opaque form may read any. */
  predicate ReadsNone(e: Expr, columns: set<string>) {
    match e
    case Identifier(name) => name !in columns
    case Compound(qualifier, name) => qualifier != "excluded" ==> name !in columns
    case Function(fn, ArgList(list)) => IsValuesRef(fn, e.args) || ArgsReadNone(list, columns)
    case Binary(l, _, r) => ReadsNone(l, columns) && ReadsNone(r, columns)
    case Unary(_, e1) => ReadsNone(e1, columns)
    case Nested(e1) => ReadsNone(e1, columns)
    case Cast(_, e1, _) => ReadsNone(e1, columns)
    case Like(_, _, e1, p, _) => ReadsNone(e1, columns) && ReadsNone(p, columns)
    case ILike(_, _, e1, p, _) => ReadsNone(e1, columns) && ReadsNone(p, columns)
    case InList(e1, list, _) => ReadsNone(e1, columns) && AllReadNone(list, columns)
    case Between(e1, low, high, _) => ReadsNone(e1, columns) && ReadsNone(low, columns) && ReadsNone(high, columns)
    case Opaque(_) => columns == {}
    case _ => true
  }

  predicate ArgsReadNone(args: List<Arg>, columns: set<string>) {
    args.Nil? || ((!args.head.Star? ==> ReadsNone(args.head.e, columns)) && ArgsReadNone(args.tail, columns))
  }

  predicate AllReadNone(es: List<Expr>, columns: set<string>) {
    es.Nil? || (ReadsNone(es.head, columns) && AllReadNone(es.tail, columns))
  }

  ghost predicate AgreeExcept(a: Row, b: Row, columns: set<string>) {
    && (forall c :: c !in columns ==> Column(a, c) == Column(b, c))
    && (columns == {} ==> a == b)
  }

  lemma {:induction false} EvalFrame(e: Expr, a: Row, b: Row, proposed: Row, columns: set<string>, m: World)
    requires m.dialect == Mysql && Shared(e) && ReadsNone(e, columns) && AgreeExcept(a, b, columns)
    ensures Eval(e, Context(a, proposed), m) == Eval(e, Context(b, proposed), m)
  {
    match e
    case Function(fn, ArgList(list)) =>
      if !IsValuesRef(fn, e.args) {
        ArgsFrame(list, a, b, proposed, columns, m);
      }
    case Binary(l, _, r) => EvalFrame(l, a, b, proposed, columns, m); EvalFrame(r, a, b, proposed, columns, m);
    case Unary(_, e1) => EvalFrame(e1, a, b, proposed, columns, m);
    case Nested(e1) => EvalFrame(e1, a, b, proposed, columns, m);
    case Cast(_, e1, _) => EvalFrame(e1, a, b, proposed, columns, m);
    case Like(_, _, e1, p, _) => EvalFrame(e1, a, b, proposed, columns, m); EvalFrame(p, a, b, proposed, columns, m);
    case InList(e1, list, _) =>
      EvalFrame(e1, a, b, proposed, columns, m); AllFrame(list, a, b, proposed, columns, m);
    case Between(e1, low, high, _) =>
      EvalFrame(e1, a, b, proposed, columns, m);
      EvalFrame(low, a, b, proposed, columns, m);
      EvalFrame(high, a, b, proposed, columns, m);
    case _ =>
  }

  lemma {:induction false} ArgsFrame(args: List<Arg>, a: Row, b: Row, proposed: Row, columns: set<string>, m: World)
    requires m.dialect == Mysql && ArgsShared(args) && ArgsReadNone(args, columns) && AgreeExcept(a, b, columns)
    ensures EvalArgs(args, Context(a, proposed), m) == EvalArgs(args, Context(b, proposed), m)
  {
    if args.Cons? {
      ArgsFrame(args.tail, a, b, proposed, columns, m);
      if !args.head.Star? {
        EvalFrame(args.head.e, a, b, proposed, columns, m);
      }
    }
  }

  lemma {:induction false} AllFrame(es: List<Expr>, a: Row, b: Row, proposed: Row, columns: set<string>, m: World)
    requires m.dialect == Mysql && AllShared(es) && AllReadNone(es, columns) && AgreeExcept(a, b, columns)
    ensures EvalAll(es, Context(a, proposed), m) == EvalAll(es, Context(b, proposed), m)
  {
    if es.Cons? {
      EvalFrame(es.head, a, b, proposed, columns, m);
      AllFrame(es.tail, a, b, proposed, columns, m);
    }
  }

  // ------------------------------------------------------------------ upsert

  /** Shared right sides, none reading a column assigned before it. */
  predicate Independent(assigns: List<Assignment>, written: set<string>) {
    match assigns
    case Nil => true
    case Cons(a, rest) => Shared(a.value) && ReadsNone(a.value, written) && Independent(rest, written + {a.column})
  }

  lemma {:induction false} UpdateAgrees(before: Row, row: Row, proposed: Row, assigns: List<Assignment>,
                                        written: set<string>, m: World, s: World)
    requires Siblings(m, s) && Independent(assigns, written) && AgreeExcept(row, before, written)
    ensures AtOnce(before, row, proposed, RewriteAssignments(assigns), s) == InOrder(row, proposed, assigns, m)
    decreases assigns
  {
    match assigns
    case Nil =>
    case Cons(a, rest) =>
      EvalFrame(a.value, row, before, proposed, written, m);
      ValuesRefMeaning(a.value, Context(before, proposed), m, s);
      var row' := row[a.column := Eval(a.value, Context(row, proposed), m)];
      UpdateAgrees(before, row', proposed, rest, written + {a.column}, m, s);
  }

  lemma {:induction false} UpsertAllAgrees(t: Table, rows: List<Row>, assigns: List<Assignment>, m: World, s: World)
    requires Siblings(m, s) && Independent(assigns, {})
    ensures InsertAll(t, rows, UpdateAtOnce(RewriteAssignments(assigns), None), s)
            == InsertAll(t, rows, UpdateInOrder(assigns), m)
    decreases rows
  {
    if rows.Cons? {
      var proposed := rows.head;
      var k := Column(proposed, t.key);
      if k in t.rows {
        UpdateAgrees(t.rows[k], t.rows[k], proposed, assigns, {}, m, s);
      }
      var next := InsertRow(t, proposed, UpdateInOrder(assigns), m);
      if next.Some? {
        UpsertAllAgrees(next.value, rows.tail, assigns, m, s);
      }
    }
  }

  lemma {:induction false} KnownRewritten(e: Expr, columns: set<string>)
    ensures Known(RewriteValuesRef(e), columns) <==> Known(e, columns)
  {
    match e
    case Function(fn, ArgList(list)) =>
      if IsValuesRef(fn, e.args) {
        assert ArgsKnown(Nil, columns);
        assert ArgsKnown(list, columns) <==> Known(list.head.e, columns);
      } else {
        ArgsKnownRewritten(list, columns);
      }
    case Binary(l, _, r) => KnownRewritten(l, columns); KnownRewritten(r, columns);
    case Unary(_, e1) => KnownRewritten(e1, columns);
    case Nested(e1) => KnownRewritten(e1, columns);
    case Cast(_, e1, _) => KnownRewritten(e1, columns);
    case _ =>
  }

  lemma {:induction false} ArgsKnownRewritten(args: List<Arg>, columns: set<string>)
    ensures ArgsKnown(RewriteValuesArgs(args), columns) <==> ArgsKnown(args, columns)
  {
    if args.Cons? {
      ArgsKnownRewritten(args.tail, columns);
      if args.head.Unnamed? {
        KnownRewritten(args.head.e, columns);
      }
    }
  }

  lemma {:induction false} AssignmentsKnownRewritten(assigns: List<Assignment>, columns: set<string>)
    ensures AssignmentsKnown(RewriteAssignments(assigns), columns) <==> AssignmentsKnown(assigns, columns)
  {
    if assigns.Cons? {
      KnownRewritten(assigns.head.value, columns);
      AssignmentsKnownRewritten(assigns.tail, columns);
    }
  }

  /**
   `ON DUPLICATE KEY UPDATE`, rewritten for SQLite, leaves the same table or is rejected alike,
   for every table and every list of rows, when no right side reads a column assigned before it.
   */
  lemma {:induction false} UpsertKeepsMeaning(stmt: Insert, t: Table, m: World, s: World)
    requires Siblings(m, s) && stmt.orClause == None && !stmt.returning && !stmt.ignore
    requires stmt.onInsert.Some? && stmt.onInsert.value.DuplicateKeyUpdate?
    requires Independent(stmt.onInsert.value.assignments, {})
    ensures Rewritten(stmt, Sqlite).1 == None
    ensures Run(Rewritten(stmt, Sqlite).0, t, s) == Run(stmt, t, m)
  {
    var assigns := stmt.onInsert.value.assignments;
    AssignmentsKnownRewritten(assigns, t.columns);
    UpsertAllAgrees(t, stmt.rows, assigns, m, s);
  }

  /**
   Reading a column assigned before it does make a difference: `b = v, c = b` comes out the same
   exactly when `b` already held `v`.
   */
  lemma {:induction false} ReadingAnAssignedColumn(row: Row, proposed: Row, b: string, c: string, v: Val, m: World,
                                                   s: World)
    requires Siblings(m, s) && b in row && b != c
    ensures var assigns := Cons(Assignment(b, Literal(v)), Cons(Assignment(c, Identifier(b)), Nil));
            AtOnce(row, row, proposed, RewriteAssignments(assigns), s) == InOrder(row, proposed, assigns, m)
            <==> row[b] == v
  {
    var second := Cons(Assignment(c, Identifier(b)), Nil);
    var assigns := Cons(Assignment(b, Literal(v)), second);
    var row' := row[b := v];
    assert RewriteAssignments(second) == second by { assert RewriteAssignments(Nil) == Nil; }
    assert InOrder(row, proposed, assigns, m) == row'[c := v] by {
      assert InOrder(row', proposed, second, m) == InOrder(row'[c := v], proposed, Nil, m);
    }
    assert AtOnce(row, row, proposed, RewriteAssignments(assigns), s) == row'[c := row[b]] by {
      assert AtOnce(row, row', proposed, second, s) == AtOnce(row, row'[c := row[b]], proposed, Nil, s);
    }
    assert row'[c := v][c] == v && row'[c := row[b]][c] == row[b];
  }

  /** The same rewrite aimed at PostgreSQL is always rejected: DO UPDATE must name a key there. */
  lemma UpsertRejectedByPostgres(stmt: Insert, t: Table, p: World)
    requires p.dialect == Postgres && stmt.orClause == None && !stmt.ignore
    requires stmt.onInsert.Some? && stmt.onInsert.value.DuplicateKeyUpdate?
    ensures Run(Rewritten(stmt, Postgres).0, t, p) == None
  {
  }

  // ------------------------------------------------------------------ the other way

  /** No right side has a form that only one of the two dialects has. */
  predicate Common(assigns: List<Assignment>) {
    match assigns
    case Nil => true
    case Cons(a, rest) => !HasValues(a.value) && !HasLikeAny(a.value) && Common(rest)
  }

  lemma {:induction false} InOrderIsAtOnce(before: Row, row: Row, proposed: Row, assigns: List<Assignment>,
                                           written: set<string>, m: World, w: World)
    requires Relatives(m, w) && Common(assigns) && Independent(assigns, written) && AgreeExcept(row, before, written)
    ensures AtOnce(before, row, proposed, assigns, w) == InOrder(row, proposed, assigns, m)
    decreases assigns
  {
    match assigns
    case Nil =>
    case Cons(a, rest) =>
      EvalFrame(a.value, row, before, proposed, written, m);
      SameWithoutValues(a.value, Context(before, proposed), m, w);
      var row' := row[a.column := Eval(a.value, Context(row, proposed), m)];
      InOrderIsAtOnce(before, row', proposed, rest, written + {a.column}, m, w);
  }

  /** The row a DO UPDATE leaves in the place of the row at `k`. */
  function Updated(t: Table, proposed: Row, assigns: List<Assignment>, w: World): Row
    requires Column(proposed, t.key) in t.rows
  {
    var old' := t.rows[Column(proposed, t.key)];
    AtOnce(old', old', proposed, assigns, w)
  }

  /** The proposed row meets no row whose update the WHERE clause holds back, or that update would change nothing. */
  ghost predicate NotHeldBack(t: Table, proposed: Row, assigns: List<Assignment>, selection: Option<Expr>, w: World) {
    var k := Column(proposed, t.key);
    proposed.Keys == t.columns && k !in {Null, Unsupported} && k in t.rows && selection.Some?
    && Eval(selection.value, Context(t.rows[k], proposed), w) != Bool(true)
    ==> Updated(t, proposed, assigns, w) == t.rows[k]
  }

  lemma {:induction false} UpdateRowAgrees(t: Table, proposed: Row, assigns: List<Assignment>,
                                           selection: Option<Expr>, m: World, w: World)
    requires Relatives(m, w) && Common(assigns) && Independent(assigns, {}) && WellFormed(t)
    requires AssignmentsKnown(assigns, t.columns)
    ensures InsertRow(t, proposed, UpdateInOrder(assigns), m)
            == InsertRow(t, proposed, UpdateAtOnce(assigns, selection), w)
            <==> NotHeldBack(t, proposed, assigns, selection, w)
  {
    var k := Column(proposed, t.key);
    if proposed.Keys == t.columns && k !in {Null, Unsupported} && k in t.rows {
      InOrderIsAtOnce(t.rows[k], t.rows[k], proposed, assigns, {}, m, w);
      InOrderKeys(t.rows[k], proposed, assigns, t.columns, m);
      ReplaceNothing(t, k, InOrder(t.rows[k], proposed, assigns, m));
    }
  }

  ghost predicate NoneHeldBack(t: Table, rows: List<Row>, assigns: List<Assignment>, selection: Option<Expr>, w: World)
    decreases rows
  {
    match rows
    case Nil => true
    case Cons(row, rest) =>
      var next := InsertRow(t, row, UpdateAtOnce(assigns, selection), w);
      && NotHeldBack(t, row, assigns, selection, w)
      && (next.Some? ==> NoneHeldBack(next.value, rest, assigns, selection, w))
  }

  lemma {:induction false} InsertedIsWellFormed(t: Table, proposed: Row, assigns: List<Assignment>, m: World)
    requires WellFormed(t) && AssignmentsKnown(assigns, t.columns)
    ensures var next := InsertRow(t, proposed, UpdateInOrder(assigns), m);
            next.Some? ==> WellFormed(next.value) && next.value.columns == t.columns
  {
    var k := Column(proposed, t.key);
    if proposed.Keys == t.columns && k in t.rows {
      InOrderKeys(t.rows[k], proposed, assigns, t.columns, m);
    }
  }

  lemma {:induction false} UpdateAllAgrees(t: Table, rows: List<Row>, assigns: List<Assignment>,
                                           selection: Option<Expr>, m: World, w: World)
    requires Relatives(m, w) && Common(assigns) && Independent(assigns, {}) && WellFormed(t)
    requires AssignmentsKnown(assigns, t.columns)
    ensures AgreeThroughout(t, rows, UpdateInOrder(assigns), m, UpdateAtOnce(assigns, selection), w)
            <==> NoneHeldBack(t, rows, assigns, selection, w)
    decreases rows
  {
    var a, b := UpdateInOrder(assigns), UpdateAtOnce(assigns, selection);
    match rows
    case Nil =>
      forall n: nat ensures InsertAll(t, Take(rows, n), a, m) == InsertAll(t, Take(rows, n), b, w) {
        InsertNone(t, rows, n, a, m);
        InsertNone(t, rows, n, b, w);
      }
    case Cons(row, rest) =>
      UpdateRowAgrees(t, row, assigns, selection, m, w);
      AgreeStep(t, rows, a, m, b, w);
      InsertedIsWellFormed(t, row, assigns, m);
      var next := InsertRow(t, row, b, w);
      if next.Some? && next == InsertRow(t, row, a, m) {
        UpdateAllAgrees(next.value, rest, assigns, selection, m, w);
      }
  }

  /**
   DO UPDATE, rewritten for MySQL, drops its WHERE clause. It still does the same after each row,
   exactly when no update that the clause holds back would change anything.
   */
  lemma {:induction false} DoUpdateKeepsMeaning(stmt: Insert, assigns: List<Assignment>, t: Table, p: World, m: World)
    requires Relatives(m, p) && p.dialect == Postgres && WellFormed(t)
    requires !stmt.ignore && !stmt.returning && stmt.orClause == None
    requires stmt.onInsert.Some? && stmt.onInsert.value.OnConflict? && stmt.onInsert.value.action.DoUpdate?
    requires stmt.onInsert.value.target.Some? && NamesKey(stmt.onInsert.value.target, t, Postgres)
    requires assigns == stmt.onInsert.value.action.assignments && AssignmentsKnown(assigns, t.columns)
    requires Common(assigns) && Independent(assigns, {})
    ensures Rewritten(stmt, Mysql).1 == None
    ensures (forall n: nat :: PrefixKept(stmt, n, t, p, m))
            <==> NoneHeldBack(t, stmt.rows, assigns, stmt.onInsert.value.action.selection, p)
  {
    var selection := stmt.onInsert.value.action.selection;
    UpdateAllAgrees(t, stmt.rows, assigns, selection, m, p);
    forall n: nat
      ensures PrefixKept(stmt, n, t, p, m)
              <==> InsertAll(t, Take(stmt.rows, n), UpdateInOrder(assigns), m)
                   == InsertAll(t, Take(stmt.rows, n), UpdateAtOnce(assigns, selection), p)
    {
    }
  }

  // ------------------------------------------------------------------ no conflict clause

  lemma {:induction false} FailAgrees(t: Table, rows: List<Row>, a: World, b: World)
    ensures InsertAll(t, rows, Fail, a) == InsertAll(t, rows, Fail, b)
    decreases rows
  {
    if rows.Cons? {
      var next := InsertRow(t, rows.head, Fail, a);
      if next.Some? {
        FailAgrees(next.value, rows.tail, a, b);
      }
    }
  }

  lemma {:induction false} Inserted(t: Table, rows: List<Row>, w: World)
    ensures var done := InsertAll(t, rows, Fail, w);
            done.Some? ==>
              && done.value == t.(rows := done.value.rows)
              && (forall k :: k in t.rows ==> k in done.value.rows && done.value.rows[k] == t.rows[k])
              && |done.value.rows| == |t.rows| + Length(rows)
    decreases rows
  {
    if rows.Cons? {
      var next := InsertRow(t, rows.head, Fail, w);
      if next.Some? {
        Inserted(next.value, rows.tail, w);
      }
    }
  }

  /**
   A plain INSERT is passed on as it is. On every backend it ends in the table, or the refusal of
   a taken key, that the client's own dialect gives, and no row is skipped or overwritten.
   */
  lemma {:induction false} PlainInsertKeepsMeaning(stmt: Insert, t: Table, client: World, w: World)
    requires stmt == Insert(stmt.rows, false, None, None, false)
    ensures Rewritten(stmt, w.dialect) == (stmt, None)
    ensures Run(Rewritten(stmt, w.dialect).0, t, w) == Run(stmt, t, client)
    ensures var done := Run(Rewritten(stmt, w.dialect).0, t, w);
            done.Some? ==>
              && (forall k :: k in t.rows ==> k in done.value.rows && done.value.rows[k] == t.rows[k])
              && |done.value.rows| == |t.rows| + Length(stmt.rows)
  {
    FailAgrees(t, stmt.rows, client, w);
    Inserted(t, stmt.rows, w);
  }

  // ------------------------------------------------------------------ skipping conflicts

  lemma {:induction false} SkipAgrees(t: Table, rows: List<Row>, a: World, b: World)
    ensures InsertAll(t, rows, Skip, a) == InsertAll(t, rows, Skip, b)
    decreases rows
  {
    if rows.Cons? {
      var next := InsertRow(t, rows.head, Skip, a);
      if next.Some? {
        SkipAgrees(next.value, rows.tail, a, b);
      }
    }
  }

  /** INSERT IGNORE and its DO NOTHING form end in the same table, on SQLite and PostgreSQL. */
  lemma {:induction false} IgnoreKeepsMeaning(stmt: Insert, t: Table, m: World, w: World)
    requires m.dialect == Mysql && w.dialect != Mysql
    requires stmt.orClause == None && !stmt.returning && stmt.ignore && stmt.onInsert == None
    ensures Run(Rewritten(stmt, w.dialect).0, t, w) == Run(stmt, t, m)
  {
    SkipAgrees(t, stmt.rows, m, w);
  }

  lemma {:induction false} OneRow(t: Table, row: Row, policy: Policy, w: World)
    ensures InsertAll(t, Cons(row, Nil), policy, w) == InsertRow(t, row, policy, w)
  {
    var next := InsertRow(t, row, policy, w);
    if next.Some? {
      assert InsertAll(next.value, Nil, policy, w) == next;
    }
  }

  /** The first `n` rows. */
  function Take(rows: List<Row>, n: nat): List<Row> {
    if n == 0 || rows.Nil? then Nil else Cons(rows.head, Take(rows.tail, n - 1))
  }

  /** Every right side has the value its column already holds. */
  predicate AssignsHeld(row: Row, proposed: Row, assigns: List<Assignment>, w: World) {
    match assigns
    case Nil => true
    case Cons(a, rest) =>
      && a.column in row && row[a.column] == Eval(a.value, Context(row, proposed), w)
      && AssignsHeld(row, proposed, rest, w)
  }

  /**
   No proposed key is taken, by the table or by a row before it in the list, unless by a row that
   already holds every value assigned to it.
   */
  predicate NothingToUpdate(t: Table, rows: List<Row>, assigns: List<Assignment>, w: World)
    decreases rows
  {
    match rows
    case Nil => true
    case Cons(row, rest) =>
      var k := Column(row, t.key);
      if row.Keys != t.columns || k in {Null, Unsupported} then true
      else if k in t.rows then AssignsHeld(t.rows[k], row, assigns, w) && NothingToUpdate(t, rest, assigns, w)
      else NothingToUpdate(t.(rows := t.rows[k := row]), rest, assigns, w)
  }

  predicate Assigns(assigns: List<Assignment>, column: string) {
    assigns.Cons? && (assigns.head.column == column || Assigns(assigns.tail, column))
  }

  /** No column is assigned twice. */
  predicate AssignedOnce(assigns: List<Assignment>) {
    assigns.Nil? || (!Assigns(assigns.tail, assigns.head.column) && AssignedOnce(assigns.tail))
  }

  lemma {:induction false} UnassignedKept(row: Row, proposed: Row, assigns: List<Assignment>, c: string, w: World)
    requires !Assigns(assigns, c) && c in row
    ensures c in InOrder(row, proposed, assigns, w) && InOrder(row, proposed, assigns, w)[c] == row[c]
    decreases assigns
  {
    match assigns
    case Nil =>
    case Cons(a, rest) =>
      UnassignedKept(row[a.column := Eval(a.value, Context(row, proposed), w)], proposed, rest, c, w);
  }

  /** An update changes nothing when it assigns what is held, and only then if nothing is assigned twice. */
  lemma {:induction false} HeldIsUnchanged(row: Row, proposed: Row, assigns: List<Assignment>, w: World)
    ensures AssignsHeld(row, proposed, assigns, w) ==> InOrder(row, proposed, assigns, w) == row
    ensures AssignedOnce(assigns) && InOrder(row, proposed, assigns, w) == row ==>
              AssignsHeld(row, proposed, assigns, w)
    decreases assigns
  {
    match assigns
    case Nil =>
    case Cons(a, rest) =>
      var v := Eval(a.value, Context(row, proposed), w);
      if a.column in row && row[a.column] == v {
        assert row[a.column := v] == row;
        HeldIsUnchanged(row, proposed, rest, w);
      } else if AssignedOnce(assigns) {
        UnassignedKept(row[a.column := v], proposed, rest, a.column, w);
      }
  }

  lemma {:induction false} ReplaceNothing(t: Table, k: Val, row: Row)
    requires WellFormed(t) && k in t.rows && row.Keys == t.columns
    ensures Replace(t, k, row) == Some(t) <==> row == t.rows[k]
  {
    if row == t.rows[k] {
      assert t.rows[k := row] == t.rows;
    } else if Column(row, t.key) == k {
      assert t.rows[k := row][k] != t.rows[k];
    } else if Replace(t, k, row).Some? {
      assert k in t.rows && k !in Replace(t, k, row).value.rows;
    }
  }

  lemma {:induction false} InOrderKeys(row: Row, proposed: Row, assigns: List<Assignment>, columns: set<string>,
                                       w: World)
    requires AssignmentsKnown(assigns, columns) && row.Keys == columns
    ensures InOrder(row, proposed, assigns, w).Keys == columns
    decreases assigns
  {
    match assigns
    case Nil =>
    case Cons(a, rest) =>
      InOrderKeys(row[a.column := Eval(a.value, Context(row, proposed), w)], proposed, rest, columns, w);
  }

  /** One row: skipping and updating do the same exactly when there is nothing to update. */
  lemma {:induction false} RowAgrees(t: Table, row: Row, assigns: List<Assignment>, m: World, w: World)
    requires WellFormed(t) && AssignmentsKnown(assigns, t.columns)
    ensures NothingToUpdate(t, Cons(row, Nil), assigns, m) ==>
              InsertRow(t, row, UpdateInOrder(assigns), m) == InsertRow(t, row, Skip, w)
    ensures AssignedOnce(assigns) && InsertRow(t, row, UpdateInOrder(assigns), m) == InsertRow(t, row, Skip, w) ==>
              NothingToUpdate(t, Cons(row, Nil), assigns, m)
  {
    var k := Column(row, t.key);
    assert forall t': Table :: NothingToUpdate(t', Nil, assigns, m);
    if row.Keys == t.columns && k !in {Null, Unsupported} && k in t.rows {
      InOrderKeys(t.rows[k], row, assigns, t.columns, m);
      ReplaceNothing(t, k, InOrder(t.rows[k], row, assigns, m));
      HeldIsUnchanged(t.rows[k], row, assigns, m);
    }
  }

  lemma {:induction false} NothingStep(t: Table, row: Row, rest: List<Row>, assigns: List<Assignment>, m: World,
                                       w: World)
    ensures var next := InsertRow(t, row, Skip, w);
            NothingToUpdate(t, Cons(row, rest), assigns, m)
            <==> NothingToUpdate(t, Cons(row, Nil), assigns, m)
                 && (next.Some? ==> NothingToUpdate(next.value, rest, assigns, m))
  {
    assert forall t': Table :: NothingToUpdate(t', Nil, assigns, m);
  }

  /** The two runs end in the same table after each of the first `n` rows. */
  ghost predicate AgreeThroughout(t: Table, rows: List<Row>, a: Policy, wa: World, b: Policy, wb: World) {
    forall n: nat :: InsertAll(t, Take(rows, n), a, wa) == InsertAll(t, Take(rows, n), b, wb)
  }

  lemma {:induction false} InsertStep(t: Table, rows: List<Row>, n: nat, policy: Policy, w: World)
    requires n > 0 && rows.Cons?
    ensures InsertAll(t, Take(rows, n), policy, w)
            == match InsertRow(t, rows.head, policy, w)
               case None => None
               case Some(next) => InsertAll(next, Take(rows.tail, n - 1), policy, w)
  {
    assert Take(rows, n) == Cons(rows.head, Take(rows.tail, n - 1));
  }

  lemma {:induction false} InsertNone(t: Table, rows: List<Row>, n: nat, policy: Policy, w: World)
    requires n == 0 || rows.Nil?
    ensures InsertAll(t, Take(rows, n), policy, w) == Some(t)
  {
    assert Take(rows, n) == Nil;
  }

  /** Agreement from the first row on. */
  lemma {:induction false} AgreeStep(t: Table, rows: List<Row>, a: Policy, wa: World, b: Policy, wb: World)
    requires rows.Cons?
    ensures var next := InsertRow(t, rows.head, b, wb);
            AgreeThroughout(t, rows, a, wa, b, wb)
            <==> InsertRow(t, rows.head, a, wa) == next
                 && (next.Some? ==> AgreeThroughout(next.value, rows.tail, a, wa, b, wb))
  {
    var next := InsertRow(t, rows.head, b, wb);
    forall n: nat ensures n > 0 ==>
        InsertAll(t, Take(rows, n), b, wb)
            == if next.None? then None else InsertAll(next.value, Take(rows.tail, n - 1), b, wb)
    {
      if n > 0 {
        InsertStep(t, rows, n, b, wb);
      }
    }
    if AgreeThroughout(t, rows, a, wa, b, wb) {
      assert InsertAll(t, Take(rows, 1), a, wa) == InsertAll(t, Take(rows, 1), b, wb);
      FirstRow(t, rows, a, wa);
      FirstRow(t, rows, b, wb);
      if next.Some? {
        forall n: nat
          ensures InsertAll(next.value, Take(rows.tail, n), a, wa) == InsertAll(next.value, Take(rows.tail, n), b, wb)
        {
          assert InsertAll(t, Take(rows, n + 1), a, wa) == InsertAll(t, Take(rows, n + 1), b, wb);
          InsertStep(t, rows, n + 1, a, wa);
          InsertStep(t, rows, n + 1, b, wb);
        }
      }
    }
    if InsertRow(t, rows.head, a, wa) == next && (next.Some? ==> AgreeThroughout(next.value, rows.tail, a, wa, b, wb)) {
      forall n: nat ensures InsertAll(t, Take(rows, n), a, wa) == InsertAll(t, Take(rows, n), b, wb) {
        if n == 0 {
          InsertNone(t, rows, n, a, wa);
          InsertNone(t, rows, n, b, wb);
        } else {
          InsertStep(t, rows, n, a, wa);
          InsertStep(t, rows, n, b, wb);
        }
      }
    }
  }

  lemma {:induction false} FirstRow(t: Table, rows: List<Row>, policy: Policy, w: World)
    requires rows.Cons?
    ensures InsertAll(t, Take(rows, 1), policy, w) == InsertRow(t, rows.head, policy, w)
  {
    assert Take(rows.tail, 0) == Nil;
    assert Take(rows, 1) == Cons(rows.head, Nil);
    OneRow(t, rows.head, policy, w);
  }

  lemma {:induction false} UpdatesLost(t: Table, rows: List<Row>, assigns: List<Assignment>, m: World, w: World)
    requires WellFormed(t) && AssignmentsKnown(assigns, t.columns)
    ensures var agree := AgreeThroughout(t, rows, UpdateInOrder(assigns), m, Skip, w);
            && (NothingToUpdate(t, rows, assigns, m) ==> agree)
            && (AssignedOnce(assigns) && agree ==> NothingToUpdate(t, rows, assigns, m))
    decreases rows
  {
    match rows
    case Nil =>
      forall n: nat
        ensures InsertAll(t, Take(rows, n), UpdateInOrder(assigns), m) == InsertAll(t, Take(rows, n), Skip, w)
      {
        InsertNone(t, rows, n, UpdateInOrder(assigns), m);
        InsertNone(t, rows, n, Skip, w);
      }
    case Cons(row, rest) =>
      RowAgrees(t, row, assigns, m, w);
      NothingStep(t, row, rest, assigns, m, w);
      AgreeStep(t, rows, UpdateInOrder(assigns), m, Skip, w);
      var next := InsertRow(t, row, Skip, w);
      if next.Some? {
        UpdatesLost(next.value, rest, assigns, m, w);
      }
  }

  /** The statement cut to its first `n` rows runs like its rewritten form. */
  ghost predicate PrefixKept(stmt: Insert, n: nat, t: Table, m: World, w: World)
    requires stmt.orClause == None
  {
    var cut := stmt.(rows := Take(stmt.rows, n));
    Run(Rewritten(cut, w.dialect).0, t, w) == Run(cut, t, m)
  }

  /**
   IGNORE together with ON DUPLICATE KEY UPDATE loses the update. The rewritten statement does the
   same after each row, for every list of rows, when no proposed key is taken or repeated unless
   by a row that already holds the values assigned, and only then if no column is assigned twice.
   */
  lemma {:induction false} IgnoreLosesUpdate(stmt: Insert, assigns: List<Assignment>, t: Table, m: World, w: World)
    requires m.dialect == Mysql && w.dialect != Mysql && WellFormed(t)
    requires stmt == Insert(stmt.rows, true, Some(DuplicateKeyUpdate(assigns)), None, false)
    requires AssignmentsKnown(assigns, t.columns)
    ensures NothingToUpdate(t, stmt.rows, assigns, m) ==> forall n: nat :: PrefixKept(stmt, n, t, m, w)
    ensures AssignedOnce(assigns) && (forall n: nat :: PrefixKept(stmt, n, t, m, w)) ==>
              NothingToUpdate(t, stmt.rows, assigns, m)
  {
    UpdatesLost(t, stmt.rows, assigns, m, w);
    forall n: nat
      ensures PrefixKept(stmt, n, t, m, w)
              <==> InsertAll(t, Take(stmt.rows, n), UpdateInOrder(assigns), m)
                   == InsertAll(t, Take(stmt.rows, n), Skip, w)
    {
    }
  }

  lemma {:induction false} KeepingIsNoChange(row: Row, proposed: Row, c: string, m: World)
    requires c in row
    ensures InOrder(row, proposed, KeepColumns(Cons(c, Nil)), m) == row
  {
    assert KeepColumns(Cons(c, Nil)) == Cons(Assignment(c, Identifier(c)), KeepColumns(Nil));
    assert row[c := row[c]] == row;
    assert InOrder(row, proposed, KeepColumns(Nil), m) == row;
  }

  lemma {:induction false} KeepingIsSkipping(t: Table, rows: List<Row>, c: string, m: World, w: World)
    requires WellFormed(t) && c in t.columns
    ensures InsertAll(t, rows, UpdateInOrder(KeepColumns(Cons(c, Nil))), m) == InsertAll(t, rows, Skip, w)
    decreases rows
  {
    if rows.Cons? {
      var k := Column(rows.head, t.key);
      if k in t.rows {
        KeepingIsNoChange(t.rows[k], rows.head, c, m);
        assert t.rows[k := t.rows[k]] == t.rows;
      }
      var next := InsertRow(t, rows.head, Skip, w);
      assert InsertRow(t, rows.head, UpdateInOrder(KeepColumns(Cons(c, Nil))), m) == next;
      if next.Some? {
        KeepingIsSkipping(next.value, rows.tail, c, m, w);
      }
    }
  }

  /** The column the MySQL form of DO NOTHING assigns to itself. */
  function KeptColumn(stmt: Insert, t: Table): string
    requires stmt.onInsert.Some? && stmt.onInsert.value.OnConflict?
  {
    match stmt.onInsert.value.target case Some(Columns(_)) => t.key case _ => "id"
  }

  /**
   DO NOTHING rewritten for MySQL ends in the same table exactly when the column it assigns to
   itself exists: always with conflict columns, otherwise (a named constraint included) when
   there is a column `id`.
   */
  lemma {:induction false} DoNothingKeepsMeaning(stmt: Insert, t: Table, p: World, m: World)
    requires p.dialect == Postgres && m.dialect == Mysql && WellFormed(t)
    requires stmt.orClause == None && !stmt.returning && !stmt.ignore
    requires stmt.onInsert.Some? && stmt.onInsert.value.OnConflict? && stmt.onInsert.value.action == DoNothing
    requires NamesKey(stmt.onInsert.value.target, t, Postgres)
    ensures Rewritten(stmt, Mysql).1 == None
    ensures Run(Rewritten(stmt, Mysql).0, t, m)
            == if KeptColumn(stmt, t) in t.columns then Run(stmt, t, p) else None
  {
    var c := KeptColumn(stmt, t);
    assert KeepColumns(Cons(c, Nil)) == Cons(Assignment(c, Identifier(c)), KeepColumns(Nil));
    assert AssignmentsKnown(KeepColumns(Nil), t.columns);
    assert AssignmentsKnown(KeepColumns(Cons(c, Nil)), t.columns) <==> c in t.columns;
    if c in t.columns {
      KeepingIsSkipping(t, stmt.rows, c, m, p);
    }
  }
}
