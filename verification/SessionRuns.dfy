/**
 A wire session: statements are intercepted or forwarded one by one on a dedicated connection,
 and the last auto-generated id is remembered. The backend is the list of replies it will give.
 */
module SessionRuns {
  import opened Wrappers
  import opened Dialects
  import opened SqlAst

  // ------------------------------------------------------------------ statements and replies

  datatype SelectItem = UnnamedExpr(e: Expr) | ExprWithAlias(e: Expr, alias: string) | OtherItem

  datatype Kind =
    | Query(projection: Option<List<SelectItem>>)  // None: not a plain SELECT
    | Insert
    | Set | Use
    | ShowVariable | ShowTables | ShowSchemas | ShowFunctions | ShowCollation
    | ShowColumns(named: bool)
    | ExplainTable
    | ShowCreate(isTable: bool)
    | OtherStatement

  /** A parsed statement, its own text, its translation, and its catalog query if it has one. */
  datatype Statement = Statement(kind: Kind, text: string, translated: Result<string, string>, catalog: string)

  datatype Cell = NullCell | BigIntCell(n: int) | OtherCell(text: string)

  datatype Rows = Rows(fields: List<string>, rows: List<List<Cell>>)

  datatype Reply = GotRows(rows: Rows) | Executed(affected: nat, lastInsertId: Option<int>) | Failed(message: string)

  datatype Outcome =
    | RowsOutcome(rows: Rows)
    | CatalogOutcome(raw: Rows)        // reshaped for SHOW and DESCRIBE
    | Synthetic(what: Kind)            // answered without the backend
    | Affected(affected: nat, lastInsertId: Option<int>)

  /** What happens on the wire and towards the client, in order. */
  datatype Event =
    | Answered(id: int)                                   // LAST_INSERT_ID() was answered
    | Forwarded(kind: Kind, sql: string, reply: Reply)    // a statement was sent to the backend
    | Catalog(sql: string, reply: Reply)                  // a catalog query for an intercepted statement
    | AskedLastval(reply: Reply)                          // `SELECT lastval()`

  /** The client's dialect and the backend's. */
  datatype Config = Config(front: FrontDialect, dialect: TargetDialect)

  datatype State = State(lastId: int, replies: List<Reply>, events: List<Event>)

  // ------------------------------------------------------------------ interception

  predicate IsLastInsertId(e: Expr) {
    e.Function? && e.fn == LAST_INSERT_ID && (e.args == NoParens || e.args == ArgList(Nil))
  }

  function ItemName(item: SelectItem): Option<string> {
    match item
    case UnnamedExpr(e) => if IsLastInsertId(e) then Some("LAST_INSERT_ID()") else None
    case ExprWithAlias(e, alias) => if IsLastInsertId(e) then Some(alias) else None
    case OtherItem => None
  }

  /** The column name when the statement is a bare `SELECT LAST_INSERT_ID()`. */
  function LastIdQuery(kind: Kind): Option<string> {
    match kind
    case Query(Some(Cons(item, Nil))) => ItemName(item)
    case _ => None
  }

  datatype Interception =
    | AnswerLastId(name: string)
    | AnswerLocally
    | AskCatalog
    | PassOn

  function Intercept(kind: Kind, cfg: Config): Interception {
    if LastIdQuery(kind).Some? then AnswerLastId(LastIdQuery(kind).value)
    else
      match kind
      case Set => if FrontMatchesTarget(cfg.front, cfg.dialect) then PassOn else AnswerLocally
      case Use => AnswerLocally
      case ShowVariable => if cfg.dialect == Postgres then PassOn else AnswerLocally
      case ShowTables => if cfg.dialect == Mysql then PassOn else AskCatalog
      case ShowSchemas =>
        (match cfg.dialect case Mysql => PassOn case Sqlite => AnswerLocally case Postgres => AskCatalog)
      case ShowColumns(named) => if !named || cfg.dialect == Mysql then PassOn else AskCatalog
      case ExplainTable => if cfg.dialect == Mysql then PassOn else AskCatalog
      case ShowCreate(isTable) => if !isTable || cfg.dialect == Mysql then PassOn else AskCatalog
      case _ => PassOn
  }

  predicate ReturnsRows(kind: Kind) {
    kind.Query? || kind.ShowVariable? || kind.ShowColumns? || kind.ShowTables? || kind.ShowFunctions?
        || kind.ShowCollation?
  }

  /** The text sent for a statement that is passed on. */
  function SentText(stmt: Statement, cfg: Config): Result<string, string> {
    if FrontMatchesTarget(cfg.front, cfg.dialect) then Ok(stmt.text) else stmt.translated
  }

  // ------------------------------------------------------------------ one statement

  function Log(s: State, e: Event): State { s.(events := Append(s.events, Cons(e, Nil))) }

  /** The reply to the next text sent, and what is left. */
  function Receive(s: State): (State, Reply) {
    match s.replies
    case Nil => (s, Failed("connection closed"))
    case Cons(r, rest) => (s.(replies := rest), r)
  }

  function Remember(s: State, id: int): State { if id > 0 then s.(lastId := id) else s }

  /** The id in a `lastval()` answer: a first row of exactly one integer. */
  function LastvalIn(r: Reply): Option<int> {
    match r
    case GotRows(Rows(_, Cons(Cons(BigIntCell(id), Nil), _))) => Some(id)
    case _ => None
  }

  /** After an INSERT has been executed. */
  function TrackId(s: State, reported: Option<int>, cfg: Config): State {
    if cfg.dialect == Postgres then
      var (s1, r) := Receive(s);
      var asked := Log(s1, AskedLastval(r));
      if LastvalIn(r).Some? then Remember(asked, LastvalIn(r).value) else asked
    else Remember(s, if reported.Some? then reported.value else 0)
  }

  function Forward(s: State, stmt: Statement, cfg: Config): (State, Result<Outcome, string>) {
    match SentText(stmt, cfg)
    case Err(e) => (s, Err(e))
    case Ok(sql) =>
      var (s1, reply) := Receive(s);
      var sent := Log(s1, Forwarded(stmt.kind, sql, reply));
      if ReturnsRows(stmt.kind) then
        match reply
        case GotRows(rows) => (sent, Ok(RowsOutcome(rows)))
        case Executed(_, _) => (sent, Err("no rows"))
        case Failed(message) => (sent, Err(message))
      else
        match reply
        case Executed(affected, id) =>
          (if stmt.kind.Insert? then TrackId(sent, id, cfg) else sent, Ok(Affected(affected, id)))
        case GotRows(_) => (sent, Err("unexpected rows"))
        case Failed(message) => (sent, Err(message))
  }

  function Step(s: State, stmt: Statement, cfg: Config): (State, Result<Outcome, string>) {
    match Intercept(stmt.kind, cfg)
    case AnswerLastId(name) =>
      (Log(s, Answered(s.lastId)), Ok(RowsOutcome(Rows(Cons(name, Nil), Cons(Cons(BigIntCell(s.lastId), Nil), Nil)))))
    case AnswerLocally => (s, Ok(Synthetic(stmt.kind)))
    case AskCatalog =>
      (var (s1, reply) := Receive(s);
       var sent := Log(s1, Catalog(stmt.catalog, reply));
       match reply
       case GotRows(rows) => (sent, Ok(CatalogOutcome(rows)))
       case Executed(_, _) => (sent, Err("no rows"))
       case Failed(message) => (sent, Err(message)))
    case PassOn => Forward(s, stmt, cfg)
  }

  function RunStatements(s: State, stmts: List<Statement>, cfg: Config): (State, Result<List<Outcome>, string>)
    decreases stmts
  {
    match stmts
    case Nil => (s, Ok(Nil))
    case Cons(stmt, rest) =>
      match Step(s, stmt, cfg)
      case (s1, Err(e)) => (s1, Err(e))
      case (s1, Ok(outcome)) =>
        match RunStatements(s1, rest, cfg)
        case (s2, Err(e)) => (s2, Err(e))
        case (s2, Ok(outcomes)) => (s2, Ok(Cons(outcome, outcomes)))
  }

  /** A session's scripts, one after the other, each starting where the last one stopped. */
  function RunScripts(s: State, scripts: List<List<Statement>>, cfg: Config): State
    decreases scripts
  {
    match scripts
    case Nil => s
    case Cons(script, rest) => RunScripts(RunStatements(s, script, cfg).0, rest, cfg)
  }

  // ------------------------------------------------------------------ the session object

  /** The connection: replies still to come, and everything that has happened on it. */
  class Session {
    const cfg: Config
    var lastInsertId: int
    var replies: List<Reply>
    ghost var events: List<Event>

    constructor (cfg: Config, replies: List<Reply>)
      ensures View() == State(0, replies, Nil) && this.cfg == cfg
    {
      this.cfg, lastInsertId, this.replies, events := cfg, 0, replies, Nil;
    }

    ghost function View(): State
      reads this
    {
      State(lastInsertId, replies, events)
    }

    method SetLastInsertId(id: int)
      modifies this
      ensures View() == Remember(old(View()), id)
    {
      if id > 0 {
        lastInsertId := id;
      }
    }

    /** Send a text and wait for the reply. */
    method Exchange() returns (reply: Reply)
      modifies this`replies
      ensures (View(), reply) == Receive(old(View()))
    {
      match replies {
        case Nil => reply := Failed("connection closed");
        case Cons(r, rest) => reply, replies := r, rest;
      }
    }

    ghost method Note(e: Event)
      modifies this`events
      ensures View() == Log(old(View()), e)
    {
      events := Append(events, Cons(e, Nil));
    }

    method Track(reported: Option<int>)
      modifies this
      ensures View() == TrackId(old(View()), reported, cfg)
    {
      if cfg.dialect == Postgres {
        var reply := Exchange();
        Note(AskedLastval(reply));
        match LastvalIn(reply) {
          case Some(id) => SetLastInsertId(id);
          case None =>
        }
      } else {
        SetLastInsertId(match reported case Some(id) => id case None => 0);
      }
    }

    method ForwardStatement(stmt: Statement) returns (r: Result<Outcome, string>)
      modifies this
      ensures (View(), r) == Forward(old(View()), stmt, cfg)
    {
      var sql := if FrontMatchesTarget(cfg.front, cfg.dialect) then Ok(stmt.text) else stmt.translated;
      if sql.Err? {
        return Err(sql.error);
      }
      var reply := Exchange();
      Note(Forwarded(stmt.kind, sql.value, reply));
      if ReturnsRows(stmt.kind) {
        match reply {
          case GotRows(rows) => return Ok(RowsOutcome(rows));
          case Executed(_, _) => return Err("no rows");
          case Failed(message) => return Err(message);
        }
      }
      match reply {
        case Executed(affected, id) =>
          if stmt.kind.Insert? {
            Track(id);
          }
          return Ok(Affected(affected, id));
        case GotRows(_) => return Err("unexpected rows");
        case Failed(message) => return Err(message);
      }
    }

    method InterceptStatement(stmt: Statement) returns (r: Result<Option<Outcome>, string>)
      modifies this
      ensures Intercept(stmt.kind, cfg) == PassOn ==> View() == old(View()) && r == Ok(None)
      ensures Intercept(stmt.kind, cfg) != PassOn ==>
                (View(), match r case Ok(Some(o)) => Ok(o) case Ok(None) => Err("") case Err(e) => Err(e))
                == Step(old(View()), stmt, cfg) && r != Ok(None)
    {
      match Intercept(stmt.kind, cfg) {
        case AnswerLastId(name) =>
          Note(Answered(lastInsertId));
          return Ok(Some(RowsOutcome(Rows(Cons(name, Nil), Cons(Cons(BigIntCell(lastInsertId), Nil), Nil)))));
        case AnswerLocally => return Ok(Some(Synthetic(stmt.kind)));
        case AskCatalog =>
          var reply := Exchange();
          Note(Catalog(stmt.catalog, reply));
          match reply {
            case GotRows(rows) => return Ok(Some(CatalogOutcome(rows)));
            case Executed(_, _) => return Err("no rows");
            case Failed(message) => return Err(message);
          }
        case PassOn => return Ok(None);
      }
    }

    /** Run a script: one outcome per statement, or the first failure. */
    method RunScript(stmts: List<Statement>) returns (r: Result<List<Outcome>, string>)
      modifies this
      ensures (View(), r) == RunStatements(old(View()), stmts, cfg)
    {
      var outcomes, rest := Nil, stmts;
      ghost var start := View();
      while rest.Cons?
        invariant RunStatements(start, stmts, cfg) == Prepend(outcomes, RunStatements(View(), rest, cfg))
        decreases rest
      {
        ghost var here := View();
        var stmt := rest.head;
        var intercepted := InterceptStatement(stmt);
        if intercepted.Err? {
          return Err(intercepted.error);
        }
        var outcome;
        if intercepted.value.Some? {
          outcome := intercepted.value.value;
        } else {
          var forwarded := ForwardStatement(stmt);
          if forwarded.Err? {
            return Err(forwarded.error);
          }
          outcome := forwarded.value;
        }
        RunOne(here, stmt, rest.tail, cfg);
        PrependAssoc(outcomes, outcome, RunStatements(View(), rest.tail, cfg));
        outcomes := Append(outcomes, Cons(outcome, Nil));
        rest := rest.tail;
      }
      AppendNil(outcomes);
      return Ok(outcomes);
    }
  }

  function Prepend(outcomes: List<Outcome>, r: (State, Result<List<Outcome>, string>))
    : (State, Result<List<Outcome>, string>)
  {
    (r.0, match r.1 case Err(e) => Err(e) case Ok(more) => Ok(Append(outcomes, more)))
  }

  lemma {:induction false} RunOne(s: State, stmt: Statement, rest: List<Statement>, cfg: Config)
    ensures var (s1, r) := Step(s, stmt, cfg);
            RunStatements(s, Cons(stmt, rest), cfg)
            == if r.Err? then (s1, Err(r.error)) else Prepend(Cons(r.value, Nil), RunStatements(s1, rest, cfg))
  {
    var (s1, r) := Step(s, stmt, cfg);
    if r.Ok? {
      var more := RunStatements(s1, rest, cfg).1;
      assert more.Ok? ==> Append(Cons(r.value, Nil), more.value) == Cons(r.value, Append(Nil, more.value));
    }
  }

  lemma {:induction false} PrependAssoc(outcomes: List<Outcome>, o: Outcome, r: (State, Result<List<Outcome>, string>))
    ensures Prepend(outcomes, Prepend(Cons(o, Nil), r)) == Prepend(Append(outcomes, Cons(o, Nil)), r)
  {
    if r.1.Ok? {
      AppendAssoc(outcomes, Cons(o, Nil), r.1.value);
      assert Append(Cons(o, Nil), r.1.value) == Cons(o, r.1.value);
    }
  }

  // ------------------------------------------------------------------ what every run keeps

  /** An INSERT the backend has executed. */
  predicate IsExecutedInsert(e: Event) { e.Forwarded? && e.kind == Insert && e.reply.Executed? }

  /**
   The id that the event at the head of `events` makes the latest: that of an executed INSERT,
   which the backend reports with it, or on PostgreSQL in the answer to `lastval()` right behind it.
   */
  function IdReported(events: List<Event>, dialect: TargetDialect): Option<int> {
    if events.Nil? || !IsExecutedInsert(events.head) then None
    else if dialect != Postgres then events.head.reply.lastInsertId
    else
      match events.tail
      case Cons(AskedLastval(GotRows(Rows(_, Cons(Cons(BigIntCell(id), Nil), _)))), _) => Some(id)
      case _ => None
  }

  /** `id`, if there is one and it is positive. */
  function Latest(current: int, id: Option<int>): int {
    if id.Some? && id.value > 0 then id.value else current
  }

  /** The last positive id reported over the whole log, starting from `current`. */
  function LatestId(current: int, events: List<Event>, dialect: TargetDialect): int
    decreases events
  {
    match events
    case Nil => current
    case Cons(_, rest) => LatestId(Latest(current, IdReported(events, dialect)), rest, dialect)
  }

  /** Every LAST_INSERT_ID() was answered with the last positive id reported before it. */
  predicate AnswersAreLatest(current: int, events: List<Event>, dialect: TargetDialect)
    decreases events
  {
    match events
    case Nil => true
    case Cons(e, rest) =>
      && (e.Answered? ==> e.id == current)
      && AnswersAreLatest(Latest(current, IdReported(events, dialect)), rest, dialect)
  }

  /** PostgreSQL was asked for the id right after each executed INSERT, and never otherwise. */
  predicate AsksForIds(events: List<Event>, dialect: TargetDialect) {
    match events
    case Nil => true
    case Cons(e, rest) =>
      && !e.AskedLastval?
      && if dialect == Postgres && IsExecutedInsert(e) then
           rest.Cons? && rest.head.AskedLastval? && AsksForIds(rest.tail, dialect)
         else AsksForIds(rest, dialect)
  }

  /** A log can be read in two parts, if the first one asks for its ids. */
  lemma {:induction false} LogAppend(current: int, a: List<Event>, b: List<Event>, dialect: TargetDialect)
    requires AsksForIds(a, dialect)
    ensures var middle := LatestId(current, a, dialect);
            && LatestId(current, Append(a, b), dialect) == LatestId(middle, b, dialect)
            && (AnswersAreLatest(current, Append(a, b), dialect)
                <==> AnswersAreLatest(current, a, dialect) && AnswersAreLatest(middle, b, dialect))
    ensures AsksForIds(Append(a, b), dialect) <==> AsksForIds(b, dialect)
    decreases a
  {
    match a
    case Nil =>
    case Cons(e, rest) =>
      var next := Latest(current, IdReported(a, dialect));
      if dialect == Postgres && IsExecutedInsert(e) {
        assert IdReported(Append(a, b), dialect) == IdReported(a, dialect);
        LogAppend(next, rest.tail, b, dialect);
      } else {
        assert IdReported(Append(a, b), dialect) == IdReported(a, dialect);
        LogAppend(next, rest, b, dialect);
      }
  }

  /** What is remembered, and every answer so far, is the latest id of the log. */
  ghost predicate Sound(s: State, dialect: TargetDialect) {
    && AsksForIds(s.events, dialect)
    && s.lastId == LatestId(0, s.events, dialect)
    && AnswersAreLatest(0, s.events, dialect)
  }

  /** `s1` comes from `s` by logging `events`, which by themselves account for the id in `s1`. */
  ghost predicate Accounts(s: State, s1: State, events: List<Event>, dialect: TargetDialect) {
    && s1.events == Append(s.events, events)
    && AsksForIds(events, dialect)
    && s1.lastId == LatestId(s.lastId, events, dialect)
    && AnswersAreLatest(s.lastId, events, dialect)
  }

  lemma {:induction false} AccountsSound(s: State, s1: State, events: List<Event>, dialect: TargetDialect)
    requires Sound(s, dialect) && Accounts(s, s1, events, dialect)
    ensures Sound(s1, dialect)
  {
    LogAppend(0, s.events, events, dialect);
  }

  lemma LogNothing(current: int, dialect: TargetDialect)
    ensures LatestId(current, Nil, dialect) == current
    ensures AnswersAreLatest(current, Nil, dialect) && AsksForIds(Nil, dialect)
  {
  }

  /** One event that reports no id of its own. */
  lemma {:induction false} LogOne(current: int, e: Event, dialect: TargetDialect)
    requires !e.AskedLastval? && (e.Answered? ==> e.id == current)
    requires !(dialect == Postgres && IsExecutedInsert(e))
    ensures var events := Cons(e, Nil);
            && AsksForIds(events, dialect)
            && LatestId(current, events, dialect) == Latest(current, IdReported(events, dialect))
            && AnswersAreLatest(current, events, dialect)
  {
    LogNothing(Latest(current, IdReported(Cons(e, Nil), dialect)), dialect);
    assert AsksForIds(Nil, dialect);
  }

  lemma {:induction false} LogInsertAndAsk(current: int, e: Event, r: Reply)
    requires IsExecutedInsert(e)
    ensures var events := Cons(e, Cons(AskedLastval(r), Nil));
            && AsksForIds(events, Postgres)
            && LatestId(current, events, Postgres) == Latest(current, LastvalIn(r))
            && AnswersAreLatest(current, events, Postgres)
  {
    var next := Latest(current, LastvalIn(r));
    LogNothing(next, Postgres);
    assert IdReported(Cons(e, Cons(AskedLastval(r), Nil)), Postgres) == LastvalIn(r);
  }

  lemma {:induction false} InsertAccounts(s: State, stmt: Statement, sql: string,
                                          cfg: Config) returns (events: List<Event>)
    requires stmt.kind == Insert && SentText(stmt, cfg) == Ok(sql) && Receive(s).1.Executed?
    ensures Accounts(s, Forward(s, stmt, cfg).0, events, cfg.dialect)
  {
    var (s1, reply) := Receive(s);
    var e := Forwarded(Insert, sql, reply);
    var sent := Log(s1, e);
    assert Forward(s, stmt, cfg).0 == TrackId(sent, reply.lastInsertId, cfg);
    if cfg.dialect == Postgres {
      var r := Receive(sent).1;
      events := Cons(e, Cons(AskedLastval(r), Nil));
      LogInsertAndAsk(s.lastId, e, r);
      AppendAssoc(s.events, Cons(e, Nil), Cons(AskedLastval(r), Nil));
      assert Append(Cons(e, Nil), Cons(AskedLastval(r), Nil)) == Cons(e, Append(Nil, Cons(AskedLastval(r), Nil)));
    } else {
      events := Cons(e, Nil);
      LogOne(s.lastId, e, cfg.dialect);
    }
  }

  lemma {:induction false} ForwardAccounts(s: State, stmt: Statement, cfg: Config) returns (events: List<Event>)
    ensures Accounts(s, Forward(s, stmt, cfg).0, events, cfg.dialect)
  {
    var sql := SentText(stmt, cfg);
    if sql.Err? {
      events := Nil;
      AppendNil(s.events);
    } else {
      var (s1, reply) := Receive(s);
      if stmt.kind == Insert && reply.Executed? {
        events := InsertAccounts(s, stmt, sql.value, cfg);
      } else {
        events := Cons(Forwarded(stmt.kind, sql.value, reply), Nil);
        LogOne(s.lastId, Forwarded(stmt.kind, sql.value, reply), cfg.dialect);
      }
    }
  }

  lemma {:induction false} StepSound(s: State, stmt: Statement, cfg: Config)
    requires Sound(s, cfg.dialect)
    ensures Sound(Step(s, stmt, cfg).0, cfg.dialect)
  {
    var s1 := Step(s, stmt, cfg).0;
    match Intercept(stmt.kind, cfg)
    case AnswerLastId(_) =>
      LogOne(s.lastId, Answered(s.lastId), cfg.dialect);
      AccountsSound(s, s1, Cons(Answered(s.lastId), Nil), cfg.dialect);
    case AnswerLocally =>
    case AskCatalog =>
      var e := Catalog(stmt.catalog, Receive(s).1);
      LogOne(s.lastId, e, cfg.dialect);
      AccountsSound(s, s1, Cons(e, Nil), cfg.dialect);
    case PassOn =>
      var events := ForwardAccounts(s, stmt, cfg);
      AccountsSound(s, s1, events, cfg.dialect);
  }

  lemma {:induction false} ScriptSound(s: State, stmts: List<Statement>, cfg: Config)
    requires Sound(s, cfg.dialect)
    ensures Sound(RunStatements(s, stmts, cfg).0, cfg.dialect)
    decreases stmts
  {
    if stmts.Cons? {
      StepSound(s, stmts.head, cfg);
      ScriptSound(Step(s, stmts.head, cfg).0, stmts.tail, cfg);
    }
  }

  lemma {:induction false} ScriptsSound(s: State, scripts: List<List<Statement>>, cfg: Config)
    requires Sound(s, cfg.dialect)
    ensures Sound(RunScripts(s, scripts, cfg), cfg.dialect)
    decreases scripts
  {
    if scripts.Cons? {
      ScriptSound(s, scripts.head, cfg);
      ScriptsSound(RunStatements(s, scripts.head, cfg).0, scripts.tail, cfg);
    }
  }

  /**
   Over every sequence of scripts of a new session, failing ones included, and whatever the backend
   replies: the id remembered, and each one LAST_INSERT_ID() was answered with, is the last
   positive id of an INSERT executed so far, 0 when there is none.
   */
  lemma {:induction false} SessionAnswersLatestId(replies: List<Reply>, scripts: List<List<Statement>>, cfg: Config)
    ensures var end := RunScripts(State(0, replies, Nil), scripts, cfg);
            && end.lastId == LatestId(0, end.events, cfg.dialect)
            && AnswersAreLatest(0, end.events, cfg.dialect)
            && AsksForIds(end.events, cfg.dialect)
  {
    ScriptsSound(State(0, replies, Nil), scripts, cfg);
  }

  /** An intercepted statement neither forwards itself nor changes the remembered id. */
  lemma {:induction false} InterceptedLeavesIdAlone(s: State, stmt: Statement, cfg: Config)
    requires Intercept(stmt.kind, cfg) != PassOn
    ensures Step(s, stmt, cfg).0.lastId == s.lastId
    ensures ForwardedTexts(Step(s, stmt, cfg).0.events) == ForwardedTexts(s.events)
  {
    match Intercept(stmt.kind, cfg)
    case AnswerLastId(_) => ForwardedAppend(s.events, Cons(Answered(s.lastId), Nil));
    case AskCatalog => ForwardedAppend(s.events, Cons(Catalog(stmt.catalog, Receive(s).1), Nil));
    case _ =>
  }

  // ------------------------------------------------------------------ what is forwarded

  function ForwardedTexts(events: List<Event>): List<string> {
    match events
    case Nil => Nil
    case Cons(Forwarded(_, sql, _), rest) => Cons(sql, ForwardedTexts(rest))
    case Cons(_, rest) => ForwardedTexts(rest)
  }

  lemma {:induction false} ForwardedAppend(a: List<Event>, b: List<Event>)
    ensures ForwardedTexts(Append(a, b)) == Append(ForwardedTexts(a), ForwardedTexts(b))
    ensures b.Cons? && b.tail.Nil? && !b.head.Forwarded? ==> ForwardedTexts(Append(a, b)) == ForwardedTexts(a)
  {
    if a.Cons? {
      ForwardedAppend(a.tail, b);
    } else if b.Cons? && b.tail.Nil? {
      assert ForwardedTexts(b.tail) == Nil;
    }
  }

  /** The texts the statements that are passed on are sent as, in order. */
  function PassedOn(stmts: List<Statement>, cfg: Config): List<string> {
    match stmts
    case Nil => Nil
    case Cons(stmt, rest) =>
      if Intercept(stmt.kind, cfg) == PassOn && SentText(stmt, cfg).Ok? then
        Cons(SentText(stmt, cfg).value, PassedOn(rest, cfg))
      else PassedOn(rest, cfg)
  }

  lemma {:induction false} LogForwards(s: State, e: Event)
    ensures ForwardedTexts(Log(s, e).events)
            == if e.Forwarded? then Append(ForwardedTexts(s.events), Cons(e.sql, Nil)) else ForwardedTexts(s.events)
  {
    ForwardedAppend(s.events, Cons(e, Nil));
    assert ForwardedTexts(Nil) == Nil;
  }

  lemma {:induction false} TrackForwardsNothing(s: State, reported: Option<int>, cfg: Config)
    ensures ForwardedTexts(TrackId(s, reported, cfg).events) == ForwardedTexts(s.events)
  {
    if cfg.dialect == Postgres {
      var (s1, r) := Receive(s);
      LogForwards(s1, AskedLastval(r));
    }
  }

  lemma {:induction false} StepForwards(s: State, stmt: Statement, cfg: Config)
    ensures ForwardedTexts(Step(s, stmt, cfg).0.events)
            == Append(ForwardedTexts(s.events), PassedOn(Cons(stmt, Nil), cfg))
  {
    assert PassedOn(Nil, cfg) == Nil;
    AppendNil(ForwardedTexts(s.events));
    if Intercept(stmt.kind, cfg) != PassOn {
      InterceptedLeavesIdAlone(s, stmt, cfg);
    } else if SentText(stmt, cfg).Ok? {
      var (s1, reply) := Receive(s);
      var e := Forwarded(stmt.kind, SentText(stmt, cfg).value, reply);
      LogForwards(s1, e);
      if reply.Executed? {
        TrackForwardsNothing(Log(s1, e), reply.lastInsertId, cfg);
      }
    }
  }

  lemma {:induction false} PassedOnAppend(a: List<Statement>, b: List<Statement>, cfg: Config)
    ensures PassedOn(Append(a, b), cfg) == Append(PassedOn(a, cfg), PassedOn(b, cfg))
  {
    if a.Cons? {
      PassedOnAppend(a.tail, b, cfg);
    }
  }

  /** The statements a run reaches: all of them, or up to and including the one that fails. */
  function Reached(s: State, stmts: List<Statement>, cfg: Config): List<Statement>
    decreases stmts
  {
    match stmts
    case Nil => Nil
    case Cons(stmt, rest) =>
      match Step(s, stmt, cfg)
      case (_, Err(_)) => Cons(stmt, Nil)
      case (s1, Ok(_)) => Cons(stmt, Reached(s1, rest, cfg))
  }

  /**
   What a script forwards is the translations of the statements it reaches that are passed on,
   in order; a successful one reaches all of them and gives one outcome each.
   */
  lemma {:induction false} ScriptForwards(s: State, stmts: List<Statement>, cfg: Config)
    ensures var (s', r) := RunStatements(s, stmts, cfg);
            && ForwardedTexts(s'.events) == Append(ForwardedTexts(s.events), PassedOn(Reached(s, stmts, cfg), cfg))
            && (r.Ok? ==> Reached(s, stmts, cfg) == stmts && Length(r.value) == Length(stmts))
    decreases stmts
  {
    match stmts
    case Nil => AppendNil(ForwardedTexts(s.events));
    case Cons(stmt, rest) =>
      var (s1, r) := Step(s, stmt, cfg);
      StepForwards(s, stmt, cfg);
      if r.Ok? {
        ScriptForwards(s1, rest, cfg);
        PassedOnAppend(Cons(stmt, Nil), Reached(s1, rest, cfg), cfg);
        AppendAssoc(ForwardedTexts(s.events), PassedOn(Cons(stmt, Nil), cfg), PassedOn(Reached(s1, rest, cfg), cfg));
        assert Append(Cons(stmt, Nil), Reached(s1, rest, cfg)) == Cons(stmt, Append(Nil, Reached(s1, rest, cfg)));
      }
  }

  /**
   A script that fails has run a prefix successfully, then failed on the next statement, and
   touched nothing after it.
   */
  lemma {:induction false} FailureStopsAtPrefix(s: State, stmts: List<Statement>, cfg: Config)
    returns (done: List<Statement>, bad: Statement, untouched: List<Statement>)
    requires RunStatements(s, stmts, cfg).1.Err?
    ensures stmts == Append(done, Cons(bad, untouched))
    ensures RunStatements(s, done, cfg).1.Ok?
    ensures var (s', r) := Step(RunStatements(s, done, cfg).0, bad, cfg);
            r.Err? && RunStatements(s, stmts, cfg) == (s', Err(r.error))
    decreases stmts
  {
    var (s1, r) := Step(s, stmts.head, cfg);
    if r.Err? {
      return Nil, stmts.head, stmts.tail;
    }
    var d, b, u := FailureStopsAtPrefix(s1, stmts.tail, cfg);
    return Cons(stmts.head, d), b, u;
  }

  // ------------------------------------------------------------------ what the client is told

  function LastIdCall(parens: bool): Expr { Function(LAST_INSERT_ID, if parens then ArgList(Nil) else NoParens) }

  /** A bare `SELECT LAST_INSERT_ID()`, under its own name or under an alias. */
  ghost predicate AsksLastId(kind: Kind, name: string) {
    exists parens ::
      || kind == Query(Some(Cons(ExprWithAlias(LastIdCall(parens), name), Nil)))
      || (name == "LAST_INSERT_ID()" && kind == Query(Some(Cons(UnnamedExpr(LastIdCall(parens)), Nil))))
  }

  lemma {:induction false} LastIdQueryIff(kind: Kind, name: string)
    ensures LastIdQuery(kind) == Some(name) <==> AsksLastId(kind, name)
  {
    assert LastIdCall(true).args == ArgList(Nil) && LastIdCall(false).args == NoParens;
    if LastIdQuery(kind) == Some(name) {
      var item := kind.projection.value.head;
      assert item.e == LastIdCall(item.e.args.ArgList?);
    }
  }

  /** What each backend is never sent, besides LAST_INSERT_ID(): by backend, where `Intercept` goes by statement. */
  lemma WhatIsPassedOn(kind: Kind, cfg: Config)
    requires LastIdQuery(kind) == None
    ensures kind.Query? || kind.Insert? || kind.ShowFunctions? || kind.ShowCollation? || kind.OtherStatement? ==>
              Intercept(kind, cfg) == PassOn
    ensures cfg.dialect == Mysql ==>
              (Intercept(kind, cfg) == PassOn
               <==> kind != Use && kind != ShowVariable && (kind == Set ==> cfg.front == MysqlFront))
    ensures cfg.dialect == Postgres ==>
              (Intercept(kind, cfg) == PassOn
               <==> kind !in {Use, ShowTables, ShowSchemas, ExplainTable, ShowColumns(true), ShowCreate(true)}
                    && (kind == Set ==> cfg.front == PostgresFront))
    ensures cfg.dialect == Sqlite ==>
              (Intercept(kind, cfg) == PassOn
               <==> kind !in {Set, Use, ShowVariable, ShowTables, ShowSchemas, ExplainTable, ShowColumns(true),
                              ShowCreate(true)})
  {
  }

  /** A client whose dialect is the backend's sends its own text, and any other the translation. */
  ghost predicate SentAs(stmt: Statement, sql: string, cfg: Config) {
    if cfg.dialect == (if cfg.front == MysqlFront then Mysql else Postgres) then sql == stmt.text
    else stmt.translated == Ok(sql)
  }

  /** PostgreSQL is asked for the id behind an INSERT, and nothing else follows a forwarded statement. */
  ghost predicate FollowedUp(kind: Kind, added: List<Event>, cfg: Config) {
    if kind == Insert && cfg.dialect == Postgres then
      added.Cons? && added.head.AskedLastval? && added.tail == Nil
    else added == Nil
  }

  /** `added` is what happens for a statement told to the client as `o`, and `o` holds what came with it. */
  ghost predicate Tells(stmt: Statement, o: Outcome, added: List<Event>, cfg: Config) {
    match o
    case Synthetic(what) => what == stmt.kind && added == Nil
    case CatalogOutcome(raw) => added == Cons(Catalog(stmt.catalog, GotRows(raw)), Nil)
    case RowsOutcome(rows) =>
      || (exists sql :: SentAs(stmt, sql, cfg) && added == Cons(Forwarded(stmt.kind, sql, GotRows(rows)), Nil))
      || (exists id: int, name :: AsksLastId(stmt.kind, name) && added == Cons(Answered(id), Nil))
    case Affected(n, id) =>
      exists sql, more ::
        SentAs(stmt, sql, cfg) && FollowedUp(stmt.kind, more, cfg)
        && added == Cons(Forwarded(stmt.kind, sql, Executed(n, id)), more)
  }

  lemma {:induction false} InsertTells(s: State, stmt: Statement, sql: string, cfg: Config)
    returns (added: List<Event>)
    requires SentText(stmt, cfg) == Ok(sql) && !ReturnsRows(stmt.kind) && Receive(s).1.Executed?
    ensures Forward(s, stmt, cfg).0.events == Append(s.events, added)
    ensures Forward(s, stmt, cfg).1.Ok? && Tells(stmt, Forward(s, stmt, cfg).1.value, added, cfg)
  {
    var (s1, reply) := Receive(s);
    var e := Forwarded(stmt.kind, sql, reply);
    var sent := Log(s1, e);
    var more := Nil;
    if cfg.dialect == Postgres && stmt.kind == Insert {
      more := Cons(AskedLastval(Receive(sent).1), Nil);
      AppendAssoc(s.events, Cons(e, Nil), more);
      assert Append(Cons(e, Nil), more) == Cons(e, Append(Nil, more));
    }
    added := Cons(e, more);
    MatchIsSameDialect(cfg.front, cfg.dialect);
    assert SentAs(stmt, sql, cfg) && FollowedUp(stmt.kind, more, cfg);
  }

  /** A statement that succeeds: what it logs, and what the client is told of it. */
  lemma {:induction false} StepTells(s: State, stmt: Statement, cfg: Config) returns (added: List<Event>)
    requires Step(s, stmt, cfg).1.Ok?
    ensures Step(s, stmt, cfg).0.events == Append(s.events, added)
    ensures Tells(stmt, Step(s, stmt, cfg).1.value, added, cfg)
    ensures forall name :: AsksLastId(stmt.kind, name) ==>
              && added == Cons(Answered(s.lastId), Nil)
              && Step(s, stmt, cfg).1.value
                 == RowsOutcome(Rows(Cons(name, Nil), Cons(Cons(BigIntCell(s.lastId), Nil), Nil)))
  {
    forall name | AsksLastId(stmt.kind, name) ensures LastIdQuery(stmt.kind) == Some(name) {
      LastIdQueryIff(stmt.kind, name);
    }
    match Intercept(stmt.kind, cfg)
    case AnswerLastId(name) =>
      added := Cons(Answered(s.lastId), Nil);
      LastIdQueryIff(stmt.kind, name);
    case AnswerLocally =>
      added := Nil;
      AppendNil(s.events);
    case AskCatalog => added := Cons(Catalog(stmt.catalog, Receive(s).1), Nil);
    case PassOn =>
      var sql := SentText(stmt, cfg).value;
      if ReturnsRows(stmt.kind) {
        added := Cons(Forwarded(stmt.kind, sql, Receive(s).1), Nil);
        MatchIsSameDialect(cfg.front, cfg.dialect);
        assert SentAs(stmt, sql, cfg);
      } else {
        added := InsertTells(s, stmt, sql, cfg);
      }
  }

  /** A statement that fails: its translation did, or the last reply was a failure or of the wrong sort. */
  lemma {:induction false} FailureTells(s: State, stmt: Statement, cfg: Config) returns (added: List<Event>)
    requires Step(s, stmt, cfg).1.Err?
    ensures Step(s, stmt, cfg).0.events == Append(s.events, added) && Step(s, stmt, cfg).0.lastId == s.lastId
    ensures var message := Step(s, stmt, cfg).1.error;
            || (added == Nil && stmt.translated == Err(message)
                && cfg.dialect != if cfg.front == MysqlFront then Mysql else Postgres)
            || (added.Cons? && added.tail == Nil && (added.head.Forwarded? || added.head.Catalog?)
                && (added.head.reply.Failed? ==> added.head.reply == Failed(message))
                && (added.head.reply.GotRows? ==>
                      added.head.Forwarded? && !stmt.kind.Query? && !stmt.kind.ShowVariable? && !stmt.kind.ShowColumns?
                      && stmt.kind !in {ShowTables, ShowFunctions, ShowCollation})
                && (added.head.reply.Executed? ==> stmt.kind != Insert && !stmt.kind.OtherStatement?))
  {
    MatchIsSameDialect(cfg.front, cfg.dialect);
    match Intercept(stmt.kind, cfg)
    case AskCatalog => added := Cons(Catalog(stmt.catalog, Receive(s).1), Nil);
    case PassOn =>
      if SentText(stmt, cfg).Ok? {
        added := Cons(Forwarded(stmt.kind, SentText(stmt, cfg).value, Receive(s).1), Nil);
      } else {
        added := Nil;
        AppendNil(s.events);
      }
    case _ =>
  }

  /** A script that succeeds, cut at one of its statements. */
  lemma {:induction false} RunSplits(s: State, before: List<Statement>, stmt: Statement, after: List<Statement>,
                                     cfg: Config) returns (told: List<Outcome>, more: List<Outcome>)
    requires RunStatements(s, Append(before, Cons(stmt, after)), cfg).1.Ok?
    ensures var (middle, r) := RunStatements(s, before, cfg);
            && r == Ok(told) && Length(told) == Length(before)
            && Step(middle, stmt, cfg).1.Ok?
            && RunStatements(Step(middle, stmt, cfg).0, after, cfg)
               == (RunStatements(s, Append(before, Cons(stmt, after)), cfg).0, Ok(more))
            && RunStatements(s, Append(before, Cons(stmt, after)), cfg).1.value
               == Append(told, Cons(Step(middle, stmt, cfg).1.value, more))
    decreases before
  {
    match before
    case Nil =>
      assert Append(before, Cons(stmt, after)) == Cons(stmt, after);
      told, more := Nil, RunStatements(Step(s, stmt, cfg).0, after, cfg).1.value;
      assert Append(told, Cons(Step(s, stmt, cfg).1.value, more)) == Cons(Step(s, stmt, cfg).1.value, more);
    case Cons(first, rest) =>
      assert Append(before, Cons(stmt, after)) == Cons(first, Append(rest, Cons(stmt, after)));
      var (s1, r) := Step(s, first, cfg);
      var t, m := RunSplits(s1, rest, stmt, after, cfg);
      told, more := Cons(r.value, t), m;
  }

  /** The session when the client's `scripts` have been run and then `before`. */
  function Reaches(replies: List<Reply>, scripts: List<List<Statement>>, before: List<Statement>, cfg: Config): State {
    RunStatements(RunScripts(State(0, replies, Nil), scripts, cfg), before, cfg).0
  }

  /**
   Every outcome of every script of a session. A forwarded statement is told by the rows, or the
   count and the id, that came back for its own text; `LAST_INSERT_ID()` by one row of one
   integer, the last positive id reported before it, under the name asked for.
   */
  lemma {:induction false} OutcomesAreTold(replies: List<Reply>, scripts: List<List<Statement>>,
                                           before: List<Statement>, stmt: Statement, after: List<Statement>,
                                           cfg: Config)
    returns (told: List<Outcome>, o: Outcome, more: List<Outcome>, added: List<Event>)
    requires var s := RunScripts(State(0, replies, Nil), scripts, cfg);
             RunStatements(s, Append(before, Cons(stmt, after)), cfg).1.Ok?
    ensures var s := RunScripts(State(0, replies, Nil), scripts, cfg);
            RunStatements(s, Append(before, Cons(stmt, after)), cfg).1 == Ok(Append(told, Cons(o, more)))
    ensures Length(told) == Length(before)
    ensures var events := Reaches(replies, scripts, before, cfg).events;
            && Reaches(replies, scripts, Append(before, Cons(stmt, Nil)), cfg).events == Append(events, added)
            && Tells(stmt, o, added, cfg)
            && forall name :: AsksLastId(stmt.kind, name) ==>
                 o == RowsOutcome(Rows(Cons(name, Nil),
                                       Cons(Cons(BigIntCell(LatestId(0, events, cfg.dialect)), Nil), Nil)))
  {
    var start := State(0, replies, Nil);
    var s := RunScripts(start, scripts, cfg);
    ScriptsSound(start, scripts, cfg);
    ScriptSound(s, before, cfg);
    told, more := RunSplits(s, before, stmt, after, cfg);
    var middle := RunStatements(s, before, cfg).0;
    o := Step(middle, stmt, cfg).1.value;
    added := StepTells(middle, stmt, cfg);
    RunThenStep(s, before, stmt, cfg);
  }

  lemma {:induction false} RunThenStep(s: State, before: List<Statement>, stmt: Statement, cfg: Config)
    requires RunStatements(s, before, cfg).1.Ok?
    ensures RunStatements(s, Append(before, Cons(stmt, Nil)), cfg).0
            == Step(RunStatements(s, before, cfg).0, stmt, cfg).0
    decreases before
  {
    match before
    case Nil =>
      assert Append(before, Cons(stmt, Nil)) == Cons(stmt, Nil);
      assert forall s1 :: RunStatements(s1, Nil, cfg) == (s1, Ok(Nil));
    case Cons(first, rest) => RunThenStep(Step(s, first, cfg).0, rest, stmt, cfg);
  }
}
