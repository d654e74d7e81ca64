/** The INSERT rewrite: conflict clauses between MySQL, PostgreSQL and SQLite. */
module InsertRewriting {
  import opened Wrappers
  import opened Dialects
  import opened SqlAst
  import opened Semantics

  // ------------------------------------------------------------------ statements

  datatype Assignment = Assignment(column: string, value: Expr)

  datatype ConflictTarget = Columns(columns: List<string>) | OnConstraint(name: string)

  datatype ConflictAction =
    | DoNothing
    | DoUpdate(assignments: List<Assignment>, selection: Option<Expr>)

  datatype OnInsert =
    | DuplicateKeyUpdate(assignments: List<Assignment>)
    | OnConflict(target: Option<ConflictTarget>, action: ConflictAction)

  datatype Insert = Insert(
    rows: List<Row>,
    ignore: bool,
    onInsert: Option<OnInsert>,
    orClause: Option<string>,
    returning: bool)

  // ------------------------------------------------------------------ VALUES(c)

  /** `VALUES(c)` becomes `excluded.c` wherever the rewrite descends. */
  function RewriteValuesRef(e: Expr): Expr {
    match e
    case Function(fn, ArgList(list)) =>
      if IsValuesRef(fn, e.args) then Compound("excluded", list.head.e.name)
      else Function(fn, ArgList(RewriteValuesArgs(list)))
    case Binary(l, op, r) => Binary(RewriteValuesRef(l), op, RewriteValuesRef(r))
    case Unary(op, e1) => Unary(op, RewriteValuesRef(e1))
    case Nested(e1) => Nested(RewriteValuesRef(e1))
    case Cast(kind, e1, dataType) => Cast(kind, RewriteValuesRef(e1), dataType)
    case _ => e
  }

  function RewriteValuesArgs(args: List<Arg>): List<Arg> {
    match args
    case Nil => Nil
    case Cons(Unnamed(e), rest) => Cons(Unnamed(RewriteValuesRef(e)), RewriteValuesArgs(rest))
    case Cons(arg, rest) => Cons(arg, RewriteValuesArgs(rest))
  }

  function RewriteAssignments(assigns: List<Assignment>): List<Assignment> {
    match assigns
    case Nil => Nil
    case Cons(a, rest) => Cons(Assignment(a.column, RewriteValuesRef(a.value)), RewriteAssignments(rest))
  }

  /** `VALUES(c)` occurs anywhere at all. */
  predicate HasValues(e: Expr) {
    match e
    case Function(fn, ArgList(list)) => IsValuesRef(fn, e.args) || ArgsHaveValues(list)
    case Binary(l, _, r) => HasValues(l) || HasValues(r)
    case Unary(_, e1) => HasValues(e1)
    case Nested(e1) => HasValues(e1)
    case Cast(_, e1, _) => HasValues(e1)
    case Like(_, _, e1, p, _) => HasValues(e1) || HasValues(p)
    case ILike(_, _, e1, p, _) => HasValues(e1) || HasValues(p)
    case InList(e1, list, _) => HasValues(e1) || AnyHasValues(list)
    case Between(e1, low, high, _) => HasValues(e1) || HasValues(low) || HasValues(high)
    case _ => false
  }

  predicate ArgsHaveValues(args: List<Arg>) {
    args.Cons? && ((!args.head.Star? && HasValues(args.head.e)) || ArgsHaveValues(args.tail))
  }

  predicate AnyHasValues(es: List<Expr>) {
    es.Cons? && (HasValues(es.head) || AnyHasValues(es.tail))
  }

  /** `VALUES(c)` occurs below a form the rewrite does not descend into. */
  predicate HidesValues(e: Expr) {
    match e
    case Function(fn, ArgList(list)) => !IsValuesRef(fn, e.args) && ArgsHideValues(list)
    case Binary(l, _, r) => HidesValues(l) || HidesValues(r)
    case Unary(_, e1) => HidesValues(e1)
    case Nested(e1) => HidesValues(e1)
    case Cast(_, e1, _) => HidesValues(e1)
    case _ => HasValues(e)
  }

  predicate ArgsHideValues(args: List<Arg>) {
    match args
    case Nil => false
    case Cons(Unnamed(e), rest) => HidesValues(e) || ArgsHideValues(rest)
    case Cons(Named(_, e), rest) => HasValues(e) || ArgsHideValues(rest)
    case Cons(Star, rest) => ArgsHideValues(rest)
  }

  /** Rewritten arguments never form a new `VALUES(c)`. */
  lemma RewrittenArgsAreNoRef(fn: FunctionName, args: List<Arg>)
    requires !IsValuesRef(fn, ArgList(args))
    ensures !IsValuesRef(fn, ArgList(RewriteValuesArgs(args)))
  {
  }

  /** Some `VALUES(c)` is left exactly when one was hidden. */
  lemma {:induction false} ValuesRefsAllRewritten(e: Expr)
    ensures HasValues(RewriteValuesRef(e)) <==> HidesValues(e)
  {
    match e
    case Function(fn, ArgList(list)) =>
      if !IsValuesRef(fn, e.args) {
        ValuesArgsAllRewritten(list);
        RewrittenArgsAreNoRef(fn, list);
      }
    case Binary(l, _, r) => ValuesRefsAllRewritten(l); ValuesRefsAllRewritten(r);
    case Unary(_, e1) => ValuesRefsAllRewritten(e1);
    case Nested(e1) => ValuesRefsAllRewritten(e1);
    case Cast(_, e1, _) => ValuesRefsAllRewritten(e1);
    case _ =>
  }

  lemma {:induction false} ValuesArgsAllRewritten(args: List<Arg>)
    ensures ArgsHaveValues(RewriteValuesArgs(args)) <==> ArgsHideValues(args)
  {
    if args.Cons? {
      ValuesArgsAllRewritten(args.tail);
      if args.head.Unnamed? {
        ValuesRefsAllRewritten(args.head.e);
      }
    }
  }

  lemma {:induction false} RewriteValuesIdempotent(e: Expr)
    ensures RewriteValuesRef(RewriteValuesRef(e)) == RewriteValuesRef(e)
  {
    match e
    case Function(fn, ArgList(list)) =>
      if !IsValuesRef(fn, e.args) {
        RewriteValuesArgsIdempotent(list);
        RewrittenArgsAreNoRef(fn, list);
      }
    case Binary(l, _, r) => RewriteValuesIdempotent(l); RewriteValuesIdempotent(r);
    case Unary(_, e1) => RewriteValuesIdempotent(e1);
    case Nested(e1) => RewriteValuesIdempotent(e1);
    case Cast(_, e1, _) => RewriteValuesIdempotent(e1);
    case _ =>
  }

  lemma {:induction false} RewriteValuesArgsIdempotent(args: List<Arg>)
    ensures RewriteValuesArgs(RewriteValuesArgs(args)) == RewriteValuesArgs(args)
  {
    if args.Cons? {
      RewriteValuesArgsIdempotent(args.tail);
      if args.head.Unnamed? {
        RewriteValuesIdempotent(args.head.e);
      }
    }
  }

  // ------------------------------------------------------------------ the statement

  datatype Refusal = ReturningUnsupported | OrClauseUnsupported

  function KeepColumns(columns: List<string>): List<Assignment> {
    match columns
    case Nil => Nil
    case Cons(c, rest) => Cons(Assignment(c, Identifier(c)), KeepColumns(rest))
  }

  /** The MySQL form of a conflict clause. */
  function DuplicateKeyForm(on: OnInsert): OnInsert
    requires on.OnConflict?
  {
    match on.action
    case DoUpdate(assignments, _) => DuplicateKeyUpdate(assignments)
    case DoNothing =>
      match on.target
      case Some(Columns(columns)) => DuplicateKeyUpdate(KeepColumns(columns))
      case _ => DuplicateKeyUpdate(KeepColumns(Cons("id", Nil)))
  }

  /** The statement after the rewrite, also when it is refused half way. */
  function Rewritten(stmt: Insert, target: TargetDialect): (Insert, Option<Refusal>) {
    if target == Mysql then
      if stmt.returning then (stmt, Some(ReturningUnsupported))
      else
        var done :=
          if stmt.onInsert.Some? && stmt.onInsert.value.OnConflict? then
            stmt.(onInsert := Some(DuplicateKeyForm(stmt.onInsert.value)))
          else stmt;
        (done, if stmt.orClause.Some? then Some(OrClauseUnsupported) else None)
    else
      var on :=
        if stmt.ignore then Some(OnConflict(None, DoNothing))
        else if stmt.onInsert.Some? && stmt.onInsert.value.DuplicateKeyUpdate? then
          Some(OnConflict(None, DoUpdate(RewriteAssignments(stmt.onInsert.value.assignments), None)))
        else stmt.onInsert;
      (stmt.(ignore := false, onInsert := on, orClause := if target == Postgres then None else stmt.orClause), None)
  }

  /** Every clause is one the target's dialect has. */
  predicate Speaks(stmt: Insert, target: TargetDialect) {
    match target
    case Mysql =>
      && !stmt.returning && stmt.orClause == None
      && (stmt.onInsert.Some? ==> stmt.onInsert.value.DuplicateKeyUpdate?)
    case Postgres => !stmt.ignore && stmt.orClause == None && (stmt.onInsert.Some? ==> stmt.onInsert.value.OnConflict?)
    case Sqlite => !stmt.ignore && (stmt.onInsert.Some? ==> stmt.onInsert.value.OnConflict?)
  }

  /** Exactly the statements the target has a form for are left alone, and any other takes such a form or is refused. */
  lemma RewrittenSpeaksTarget(stmt: Insert, target: TargetDialect)
    ensures Rewritten(stmt, target) == (stmt, None) <==> Speaks(stmt, target)
    ensures Rewritten(stmt, target).1 == None <==> Speaks(Rewritten(stmt, target).0, target)
  {
  }

  /** What no rewrite touches, and what is refused: RETURNING and `INSERT OR`, for MySQL alone. */
  lemma OnlyClausesChange(stmt: Insert, target: TargetDialect)
    ensures var (done, refusal) := Rewritten(stmt, target);
            && done.rows == stmt.rows && done.returning == stmt.returning
            && (done.orClause == stmt.orClause || (target == Postgres && done.orClause == None))
            && (refusal == Some(ReturningUnsupported) <==> target == Mysql && stmt.returning)
            && (refusal == Some(OrClauseUnsupported) <==> target == Mysql && !stmt.returning && stmt.orClause.Some?)
  {
  }

  /** The same columns are assigned on both sides, and with MySQL as target the same values. */
  lemma {:induction false} AssignmentsSurvive(stmt: Insert, target: TargetDialect, assigns: List<Assignment>)
    requires stmt.onInsert.Some? && !stmt.returning && !stmt.ignore
    ensures target == Mysql && stmt.onInsert == Some(DuplicateKeyUpdate(assigns)) ==>
              Rewritten(stmt, target).0.onInsert == Some(DuplicateKeyUpdate(assigns))
    ensures target == Mysql && stmt.onInsert.value.OnConflict? && stmt.onInsert.value.action.DoUpdate?
            && stmt.onInsert.value.action.assignments == assigns ==>
              Rewritten(stmt, target).0.onInsert == Some(DuplicateKeyUpdate(assigns))
    ensures target != Mysql && stmt.onInsert == Some(DuplicateKeyUpdate(assigns)) ==>
              var on := Rewritten(stmt, target).0.onInsert;
              && on.Some? && on.value.OnConflict? && on.value.target == None && on.value.action.DoUpdate?
              && on.value.action.selection == None
              && AssignedColumns(on.value.action.assignments) == AssignedColumns(assigns)
  {
    SameColumns(assigns);
  }

  /** Every column is assigned to itself. */
  predicate SelfAssigned(assigns: List<Assignment>) {
    assigns.Nil? || (assigns.head.value == Identifier(assigns.head.column) && SelfAssigned(assigns.tail))
  }

  lemma {:induction false} KeptColumns(columns: List<string>)
    ensures SelfAssigned(KeepColumns(columns)) && AssignedColumns(KeepColumns(columns)) == columns
  {
    if columns.Cons? {
      KeptColumns(columns.tail);
    }
  }

  /** DO NOTHING becomes self-assignments of the conflict columns in order, or of `id` when none are named. */
  lemma {:induction false} NothingIsSelfAssigned(stmt: Insert, target: Option<ConflictTarget>)
    requires stmt.onInsert == Some(OnConflict(target, DoNothing)) && !stmt.returning
    ensures var on := Rewritten(stmt, Mysql).0.onInsert;
            && on.Some? && on.value.DuplicateKeyUpdate? && SelfAssigned(on.value.assignments)
            && (target.Some? && target.value.Columns? ==>
                  AssignedColumns(on.value.assignments) == target.value.columns)
            && (target.None? || target.value.OnConstraint? ==>
                  AssignedColumns(on.value.assignments) == Cons("id", Nil))
  {
    KeptColumns(match target case Some(Columns(columns)) => columns case _ => Cons("id", Nil));
  }

  function AssignedColumns(assigns: List<Assignment>): List<string> {
    match assigns
    case Nil => Nil
    case Cons(a, rest) => Cons(a.column, AssignedColumns(rest))
  }

  lemma {:induction false} SameColumns(assigns: List<Assignment>)
    ensures AssignedColumns(RewriteAssignments(assigns)) == AssignedColumns(assigns)
  {
    if assigns.Cons? {
      SameColumns(assigns.tail);
    }
  }

  /** An INSERT statement, rewritten in place. */
  class InsertNode {
    const rows: List<Row>
    var ignore: bool
    var onInsert: Option<OnInsert>
    var orClause: Option<string>
    var returning: bool

    constructor (stmt: Insert)
      ensures View() == stmt
    {
      rows, ignore, onInsert := stmt.rows, stmt.ignore, stmt.onInsert;
      orClause, returning := stmt.orClause, stmt.returning;
    }

    ghost function View(): Insert
      reads this
    {
      Insert(rows, ignore, onInsert, orClause, returning)
    }

    method RewriteInsert(target: TargetDialect) returns (refusal: Option<Refusal>)
      modifies this
      ensures (View(), refusal) == Rewritten(old(View()), target)
    {
      if target == Mysql {
        if returning {
          return Some(ReturningUnsupported);
        }
        if onInsert.Some? && onInsert.value.OnConflict? {
          var oc := onInsert.value;
          match oc.action {
            case DoNothing =>
              var columns := match oc.target case Some(Columns(cols)) => cols case _ => Cons("id", Nil);
              onInsert := Some(DuplicateKeyUpdate(KeepColumns(columns)));
            case DoUpdate(assignments, _) =>
              onInsert := Some(DuplicateKeyUpdate(assignments));
          }
        }
        if orClause.Some? {
          return Some(OrClauseUnsupported);
        }
      } else {
        if ignore {
          ignore := false;
          onInsert := Some(OnConflict(None, DoNothing));
        }
        if onInsert.Some? && onInsert.value.DuplicateKeyUpdate? {
          var assigns := onInsert.value.assignments;
          onInsert := Some(OnConflict(None, DoUpdate(RewriteAssignments(assigns), None)));
        }
        if orClause.Some? && target == Postgres {
          orClause := None;
        }
      }
      return None;
    }
  }
}
