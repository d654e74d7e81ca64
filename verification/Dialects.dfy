/** The dialects a client can speak and a backend can understand. */
module Dialects {
  datatype FrontDialect = PostgresFront | MysqlFront

  datatype TargetDialect = Postgres | Mysql | Sqlite

  /** No translation is needed: the client already speaks the backend's dialect. */
  predicate FrontMatchesTarget(front: FrontDialect, target: TargetDialect) {
    match (front, target)
    case (PostgresFront, Postgres) => true
    case (MysqlFront, Mysql) => true
    case _ => false
  }

  lemma MatchIsSameDialect(front: FrontDialect, target: TargetDialect)
    ensures FrontMatchesTarget(front, target) <==> target == if front == MysqlFront then Mysql else Postgres
  {
  }
}
