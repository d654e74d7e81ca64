/**
 CREATE TABLE rewriting: types, auto-increment columns, column options and table constraints.
 Type names, option keywords and function names are kept up to ASCII case, as the source
 compares them.
 */
module CreateTable {
  import opened Wrappers
  import opened Dialects
  import opened SqlAst

  // ------------------------------------------------------------------ data types

  datatype TypeVariant =
    | Bool | Boolean
    | Int | Int4 | Integer | Int2 | SmallInt | TinyInt | MediumInt | Int8 | BigInt
    | IntUnsigned | Int4Unsigned | IntegerUnsigned | Int2Unsigned | SmallIntUnsigned | Int8Unsigned | BigIntUnsigned
    | Float | Float4 | Float32 | Float8 | Float64 | Double | DoubleUnsigned | DoublePrecision | DoublePrecisionUnsigned
    | Real | RealUnsigned
    | Varchar | Char | Character | CharacterVarying | CharVarying | String
    | Text | TinyText | MediumText | LongText | Clob
    | JSON | JSONB
    | Bytea | Binary | Varbinary | Blob | Bytes | Bit | BitVarying | VarBit | TinyBlob | MediumBlob | LongBlob
    | Numeric | Decimal | Dec | BigDecimal
    | Date | Time | Datetime | Timestamp | TimestampNtz
    | Uuid | Interval
    | OtherVariant(text: string)

  datatype TypeName =
    | SERIAL | SERIAL4 | BIGSERIAL | SERIAL8 | SMALLSERIAL | SERIAL2
    | INTEGER | BIGINT | SMALLINT | BOOLEAN | FLOAT | DOUBLE | DOUBLE_PRECISION | REAL
    | TEXT | TINYTEXT | MEDIUMTEXT | LONGTEXT | JSON_NAME | JSONB_NAME | BLOB | BYTEA_NAME
    | NUMERIC_NAME | DATE | TIME | DATETIME | TIMESTAMP | CHAR36 | UUID
    | OtherName(text: string)

  /** A built-in type with its printed parameters, or a name. */
  datatype DataType = BuiltIn(variant: TypeVariant, params: string) | Custom(name: TypeName, args: string)

  function Plain(name: TypeName): DataType { Custom(name, "") }

  function MapVariant(variant: TypeVariant, target: TargetDialect): Option<TypeName> {
    match target
    case Mysql => MysqlName(variant)
    case Sqlite => SqliteName(variant)
    case Postgres => PostgresName(variant)
  }

  /** None keeps the type as it is. */
  function MysqlName(variant: TypeVariant): Option<TypeName> {
    match variant
    case Bool | Boolean => Some(BOOLEAN)
    case Float | Float4 | Float32 => Some(FLOAT)
    case Double | DoubleUnsigned | Float64 | DoublePrecision | DoublePrecisionUnsigned | Float8 => Some(DOUBLE)
    case Real | RealUnsigned => Some(FLOAT)
    case TinyText => Some(TINYTEXT)
    case MediumText => Some(MEDIUMTEXT)
    case LongText => Some(LONGTEXT)
    case JSON | JSONB => Some(JSON_NAME)
    case Bytea | Binary | Varbinary | Blob | Bytes | Bit | BitVarying | VarBit => Some(BLOB)
    case Date => Some(DATE)
    case Time => Some(TIME)
    case Datetime => Some(DATETIME)
    case Timestamp | TimestampNtz => Some(TIMESTAMP)
    case Uuid => Some(CHAR36)
    case Interval => Some(TEXT)
    case _ => None
  }

  function SqliteName(variant: TypeVariant): Option<TypeName> {
    match variant
    case Bool | Boolean => Some(BOOLEAN)
    case BigInt | Int8 | BigIntUnsigned | Int8Unsigned => Some(BIGINT)
    case SmallInt | Int2 | SmallIntUnsigned | Int2Unsigned | TinyInt => Some(SMALLINT)
    case Int | Int4 | Integer | MediumInt | IntUnsigned | Int4Unsigned | IntegerUnsigned => Some(INTEGER)
    case Float | Float4 | Float32 | Float8 | Float64 | Double | DoubleUnsigned => Some(REAL)
    case DoublePrecision | DoublePrecisionUnsigned | Real | RealUnsigned => Some(REAL)
    case Varchar | Char | Character | CharacterVarying | CharVarying | String => Some(TEXT)
    case TinyText | MediumText | LongText | Text | Clob => Some(TEXT)
    case JSON | JSONB => Some(TEXT)
    case Bytea | Binary | Varbinary | Blob | Bytes | Bit | BitVarying | VarBit => Some(BLOB)
    case Numeric | Decimal | Dec | BigDecimal => Some(NUMERIC_NAME)
    case Date | Time | Datetime | Timestamp | TimestampNtz => Some(TEXT)
    case Uuid => Some(TEXT)
    case Interval => Some(TEXT)
    case _ => None
  }

  function PostgresName(variant: TypeVariant): Option<TypeName> {
    match variant
    case Bool | Boolean => Some(BOOLEAN)
    case Int | Int4 | Integer | MediumInt => Some(INTEGER)
    case TinyInt | SmallInt | Int2 | SmallIntUnsigned | Int2Unsigned => Some(SMALLINT)
    case Int8 | BigInt | BigIntUnsigned | Int8Unsigned => Some(BIGINT)
    case IntUnsigned | Int4Unsigned | IntegerUnsigned => Some(INTEGER)
    case Float | Float4 | Float32 | Real | RealUnsigned => Some(REAL)
    case Double | DoubleUnsigned | Float64 | DoublePrecision | DoublePrecisionUnsigned | Float8 =>
      Some(DOUBLE_PRECISION)
    case Varchar | Char | Character | CharacterVarying | CharVarying | String => Some(TEXT)
    case Text | TinyText | MediumText | LongText | Clob => Some(TEXT)
    case JSON => Some(JSON_NAME)
    case JSONB => Some(JSONB_NAME)
    case Bytea | Binary | Varbinary | Blob | Bytes | Bit | BitVarying | VarBit => Some(BYTEA_NAME)
    case TinyBlob | MediumBlob | LongBlob => Some(BYTEA_NAME)
    case Date => Some(DATE)
    case Time => Some(TIME)
    case Datetime | Timestamp | TimestampNtz => Some(TIMESTAMP)
    case Uuid => Some(UUID)
    case _ => None
  }

  function MapType(dt: DataType, target: TargetDialect): DataType {
    match dt
    case Custom(_, _) => dt
    case BuiltIn(variant, _) =>
      match MapVariant(variant, target)
      case Some(name) => Plain(name)
      case None => dt
  }

  // ------------------------------------------------------------------ columns

  datatype Keyword = AUTO_INCREMENT | AUTOINCREMENT | ENGINE | COMMENT | CHARSET | COLLATE | OtherWord(text: string)

  datatype Token = Word(w: Keyword) | OtherToken(text: string)

  datatype ColumnOption =
    | DialectSpecific(tokens: List<Token>)
    | Comment(text: string) | CharacterSet(text: string) | Collation(text: string) | OnUpdate(text: string)
    | PrimaryKey(text: string)
    | OtherOption(text: string)  // CHECK, GENERATED, DEFAULT, NOT NULL, NULL, UNIQUE, REFERENCES, ...

  datatype OptionDef = OptionDef(name: Option<string>, option: ColumnOption)

  datatype ColumnDef = ColumnDef(name: string, dataType: DataType, options: List<OptionDef>)

  datatype AutoInc = SmallWidth | IntWidth | BigWidth

  predicate IsAutoWord(t: Token) { t == Word(AUTO_INCREMENT) || t == Word(AUTOINCREMENT) }

  predicate IsStripped(t: Token) { t.Word? && t.w in {ENGINE, COMMENT, CHARSET, COLLATE} }

  predicate HasAutoWord(tokens: List<Token>) {
    tokens.Cons? && (IsAutoWord(tokens.head) || HasAutoWord(tokens.tail))
  }

  predicate HasStripped(tokens: List<Token>) {
    tokens.Cons? && (IsStripped(tokens.head) || HasStripped(tokens.tail))
  }

  predicate IsAutoOption(o: OptionDef) { o.option.DialectSpecific? && HasAutoWord(o.option.tokens) }

  predicate HasAutoOption(options: List<OptionDef>) {
    options.Cons? && (IsAutoOption(options.head) || HasAutoOption(options.tail))
  }

  function SerialWidth(dt: DataType): Option<AutoInc> {
    match dt
    case Custom(SERIAL, _) => Some(IntWidth)
    case Custom(SERIAL4, _) => Some(IntWidth)
    case Custom(BIGSERIAL, _) => Some(BigWidth)
    case Custom(SERIAL8, _) => Some(BigWidth)
    case Custom(SMALLSERIAL, _) => Some(SmallWidth)
    case Custom(SERIAL2, _) => Some(SmallWidth)
    case _ => None
  }

  function OptionWidth(dt: DataType): AutoInc {
    if dt.Custom? then IntWidth
    else
      match dt.variant
      case SmallInt | Int2 | TinyInt => SmallWidth
      case BigInt | Int8 => BigWidth
      case _ => IntWidth
  }

  /** The width of an auto-increment column, if the column is one. */
  function AutoWidth(dt: DataType, options: List<OptionDef>): Option<AutoInc> {
    if SerialWidth(dt).Some? then SerialWidth(dt)
    else if HasAutoOption(options) then Some(OptionWidth(dt))
    else None
  }

  predicate KeepsOption(o: OptionDef, target: TargetDialect) {
    match o.option
    case DialectSpecific(tokens) => !HasAutoWord(tokens) && !(target != Mysql && HasStripped(tokens))
    case Comment(_) => target == Mysql
    case CharacterSet(_) => target == Mysql
    case Collation(_) => target == Mysql
    case OnUpdate(_) => target == Mysql
    case _ => true
  }

  function KeptOptions(options: List<OptionDef>, target: TargetDialect): List<OptionDef> {
    match options
    case Nil => Nil
    case Cons(o, rest) =>
      if KeepsOption(o, target) then Cons(o, KeptOptions(rest, target)) else KeptOptions(rest, target)
  }

  predicate HasPrimaryKey(options: List<OptionDef>) {
    options.Cons? && (options.head.option.PrimaryKey? || HasPrimaryKey(options.tail))
  }

  function AutoKeyword(k: Keyword): OptionDef {
    OptionDef(None, DialectSpecific(Cons(Word(k), Nil)))
  }

  const KEY_OPTION := OptionDef(None, PrimaryKey(""))

  function Push<T>(a: List<T>, x: T): List<T> { Append(a, Cons(x, Nil)) }

  /** A column with its type already mapped, and the width detected on it. */
  function WithOptions(col: ColumnDef, target: TargetDialect, width: Option<AutoInc>): ColumnDef {
    var kept := KeptOptions(col.options, target);
    if width == None then col.(options := kept)
    else
      match target
      case Mysql => ColumnDef(col.name, Plain(IntName(width.value)), Push(kept, AutoKeyword(AUTO_INCREMENT)))
      case Sqlite =>
        var keyed := if HasPrimaryKey(kept) then kept else Push(kept, KEY_OPTION);
        ColumnDef(col.name, Plain(INTEGER), Push(keyed, AutoKeyword(AUTOINCREMENT)))
      case Postgres => ColumnDef(col.name, Plain(SerialName(width.value)), kept)
  }

  function RewriteColumn(col: ColumnDef, target: TargetDialect): ColumnDef {
    var mapped := col.(dataType := MapType(col.dataType, target));
    WithOptions(mapped, target, AutoWidth(mapped.dataType, mapped.options))
  }

  function IntName(width: AutoInc): TypeName {
    match width case SmallWidth => SMALLINT case IntWidth => INTEGER case BigWidth => BIGINT
  }

  function SerialName(width: AutoInc): TypeName {
    match width case SmallWidth => SMALLSERIAL case IntWidth => SERIAL case BigWidth => BIGSERIAL
  }

  /** The column is an auto-increment column, seen after its type has been mapped. */
  predicate IsAuto(col: ColumnDef, target: TargetDialect) {
    AutoWidth(MapType(col.dataType, target), col.options).Some?
  }

  // ------------------------------------------------------------------ the same, in place

  method HasAutoToken(tokens: List<Token>) returns (found: bool)
    ensures found == HasAutoWord(tokens)
  {
    var rest := tokens;
    found := false;
    while rest.Cons?
      invariant HasAutoWord(tokens) == HasAutoWord(rest) && !found
      decreases rest
    {
      if IsAutoWord(rest.head) {
        found := true;
        return;
      }
      rest := rest.tail;
    }
  }

  method DetectAutoIncrement(col: ColumnDef) returns (width: Option<AutoInc>)
    ensures width == AutoWidth(col.dataType, col.options)
  {
    if SerialWidth(col.dataType).Some? {
      return SerialWidth(col.dataType);
    }
    var rest := col.options;
    while rest.Cons?
      invariant HasAutoOption(col.options) == HasAutoOption(rest)
      decreases rest
    {
      if rest.head.option.DialectSpecific? {
        var found := HasAutoToken(rest.head.option.tokens);
        if found {
          return Some(OptionWidth(col.dataType));
        }
      }
      rest := rest.tail;
    }
    return None;
  }

  /** Does any token ask for auto-increment, and is any a MySQL-only word? */
  method ScanTokens(tokens: List<Token>, target: TargetDialect) returns (isAuto: bool, strip: bool)
    ensures isAuto == HasAutoWord(tokens) && strip == (target != Mysql && HasStripped(tokens))
  {
    isAuto, strip := false, false;
    var rest := tokens;
    while rest.Cons?
      invariant HasAutoWord(tokens) == (isAuto || HasAutoWord(rest))
      invariant (target != Mysql && HasStripped(tokens)) == (strip || (target != Mysql && HasStripped(rest)))
      decreases rest
    {
      if IsAutoWord(rest.head) {
        isAuto := true;
      }
      if IsStripped(rest.head) && target != Mysql {
        strip := true;
      }
      rest := rest.tail;
    }
  }

  method DrainOptions(options: List<OptionDef>, target: TargetDialect) returns (kept: List<OptionDef>)
    ensures kept == KeptOptions(options, target)
  {
    kept := Nil;
    var rest := options;
    while rest.Cons?
      invariant KeptOptions(options, target) == Append(kept, KeptOptions(rest, target))
      decreases rest
    {
      var keep := true;
      match rest.head.option {
        case DialectSpecific(tokens) =>
          var isAuto, strip := ScanTokens(tokens, target);
          keep := !isAuto && !strip;
        case Comment(_) => keep := target == Mysql;
        case CharacterSet(_) => keep := target == Mysql;
        case Collation(_) => keep := target == Mysql;
        case OnUpdate(_) => keep := target == Mysql;
        case _ =>
      }
      assert keep == KeepsOption(rest.head, target);
      if keep {
        AppendAssoc(kept, Cons(rest.head, Nil), KeptOptions(rest.tail, target));
        kept := Push(kept, rest.head);
      }
      rest := rest.tail;
    }
    AppendNil(kept);
  }

  method RewriteColumnOptions(col: ColumnDef, target: TargetDialect, width: Option<AutoInc>) returns (r: ColumnDef)
    ensures r == WithOptions(col, target, width)
  {
    var kept := DrainOptions(col.options, target);
    var dataType := col.dataType;
    if width.Some? {
      match target {
        case Mysql =>
          dataType := Plain(IntName(width.value));
          kept := Push(kept, AutoKeyword(AUTO_INCREMENT));
        case Sqlite =>
          dataType := Plain(INTEGER);
          if !HasPrimaryKey(kept) {
            kept := Push(kept, KEY_OPTION);
          }
          kept := Push(kept, AutoKeyword(AUTOINCREMENT));
        case Postgres =>
          dataType := Plain(SerialName(width.value));
      }
    }
    return ColumnDef(col.name, dataType, kept);
  }

  // ------------------------------------------------------------------ tables

  /** A constraint; the columns of a key are the texts they print as. */
  datatype TableConstraint = PrimaryKeyOn(columns: List<string>) | OtherConstraint(text: string)

  datatype Table = Table(
    tableOptions: Option<string>,
    orReplace: bool,
    columns: List<ColumnDef>,
    constraints: List<TableConstraint>)

  function RewriteColumns(cols: List<ColumnDef>, target: TargetDialect): List<ColumnDef> {
    match cols
    case Nil => Nil
    case Cons(c, rest) => Cons(RewriteColumn(c, target), RewriteColumns(rest, target))
  }

  /** The name of the last auto-increment column. */
  function AutoName(cols: List<ColumnDef>, target: TargetDialect): Option<string> {
    match cols
    case Nil => None
    case Cons(c, rest) =>
      if AutoName(rest, target).Some? then AutoName(rest, target)
      else if IsAuto(c, target) then Some(c.name)
      else None
  }

  predicate Mentions(columns: List<string>, name: string) {
    columns.Cons? && (Lower(columns.head) == Lower(name) || Mentions(columns.tail, name))
  }

  function DropKeysOn(constraints: List<TableConstraint>, name: string): List<TableConstraint> {
    match constraints
    case Nil => Nil
    case Cons(c, rest) =>
      if c.PrimaryKeyOn? && Mentions(c.columns, name) then DropKeysOn(rest, name) else Cons(c, DropKeysOn(rest, name))
  }

  function RewriteTable(t: Table, target: TargetDialect): Table {
    var name := AutoName(t.columns, target);
    Table(
      if target != Mysql then None else t.tableOptions,
      if target != Postgres then false else t.orReplace,
      RewriteColumns(t.columns, target),
      if target == Sqlite && name.Some? then DropKeysOn(t.constraints, name.value) else t.constraints)
  }

  /** A CREATE TABLE statement, rewritten in place. */
  class CreateTableNode {
    var tableOptions: Option<string>
    var orReplace: bool
    var columns: List<ColumnDef>
    var constraints: List<TableConstraint>

    constructor (t: Table)
      ensures View() == t
    {
      tableOptions, orReplace, columns, constraints := t.tableOptions, t.orReplace, t.columns, t.constraints;
    }

    ghost function View(): Table
      reads this
    {
      Table(tableOptions, orReplace, columns, constraints)
    }

    method RewriteCreateTable(target: TargetDialect)
      modifies this
      ensures View() == RewriteTable(old(View()), target)
    {
      if target != Mysql {
        tableOptions := None;
      }
      if target != Postgres && orReplace {
        orReplace := false;
      }
      var cols := columns;
      var done, rest, autoName := Nil, cols, None;
      ghost var start := View();
      while rest.Cons?
        invariant View() == start
        invariant RewriteColumns(cols, target) == Append(done, RewriteColumns(rest, target))
        invariant AutoName(cols, target) == if AutoName(rest, target).Some? then AutoName(rest, target) else autoName
        decreases rest
      {
        var col := rest.head;
        var mapped := col.(dataType := MapType(col.dataType, target));
        var width := DetectAutoIncrement(mapped);
        var rewritten := RewriteColumnOptions(mapped, target, width);
        if width.Some? {
          autoName := Some(col.name);
        }
        AppendAssoc(done, Cons(rewritten, Nil), RewriteColumns(rest.tail, target));
        done := Push(done, rewritten);
        rest := rest.tail;
      }
      AppendNil(done);
      columns := done;
      if target == Sqlite && autoName.Some? {
        constraints := DropKeysOn(constraints, autoName.value);
      }
    }
  }

  // ------------------------------------------------------------------ idempotence

  lemma {:induction false} KeptOnce(options: List<OptionDef>, target: TargetDialect)
    ensures KeptOptions(KeptOptions(options, target), target) == KeptOptions(options, target)
    ensures !HasAutoOption(KeptOptions(options, target))
  {
    if options.Cons? {
      KeptOnce(options.tail, target);
    }
  }

  lemma {:induction false} KeptPush(options: List<OptionDef>, o: OptionDef, target: TargetDialect)
    ensures KeptOptions(Push(options, o), target)
            == if KeepsOption(o, target) then Push(KeptOptions(options, target), o) else KeptOptions(options, target)
    ensures HasAutoOption(Push(options, o)) <==> HasAutoOption(options) || IsAutoOption(o)
    ensures HasPrimaryKey(Push(options, o)) <==> HasPrimaryKey(options) || o.option.PrimaryKey?
  {
    if options.Cons? {
      KeptPush(options.tail, o, target);
    } else {
      assert KeptOptions(Nil, target) == Nil && !HasAutoOption(Nil) && !HasPrimaryKey(Nil);
    }
  }

  lemma {:induction false} ColumnRewrittenTwice(col: ColumnDef, target: TargetDialect)
    requires target != Mysql
    ensures RewriteColumn(RewriteColumn(col, target), target) == RewriteColumn(col, target)
    ensures IsAuto(RewriteColumn(col, target), target) <==> IsAuto(col, target)
    ensures RewriteColumn(col, target).name == col.name
  {
    var kept := KeptOptions(col.options, target);
    KeptOnce(col.options, target);
    if IsAuto(col, target) && target == Sqlite {
      KeptPush(kept, KEY_OPTION, target);
      var keyed := if HasPrimaryKey(kept) then kept else Push(kept, KEY_OPTION);
      KeptPush(keyed, AutoKeyword(AUTOINCREMENT), target);
    }
  }

  lemma {:induction false} ColumnsRewrittenTwice(cols: List<ColumnDef>, target: TargetDialect)
    requires target != Mysql
    ensures RewriteColumns(RewriteColumns(cols, target), target) == RewriteColumns(cols, target)
    ensures AutoName(RewriteColumns(cols, target), target) == AutoName(cols, target)
  {
    if cols.Cons? {
      ColumnsRewrittenTwice(cols.tail, target);
      ColumnRewrittenTwice(cols.head, target);
    }
  }

  lemma {:induction false} KeysDroppedOnce(constraints: List<TableConstraint>, name: string)
    ensures DropKeysOn(DropKeysOn(constraints, name), name) == DropKeysOn(constraints, name)
  {
    if constraints.Cons? {
      KeysDroppedOnce(constraints.tail, name);
    }
  }

  /** For SQLite and PostgreSQL a second rewrite changes no type, option, order or constraint. */
  lemma {:induction false} TableRewrittenTwice(t: Table, target: TargetDialect)
    requires target != Mysql
    ensures RewriteTable(RewriteTable(t, target), target) == RewriteTable(t, target)
  {
    ColumnsRewrittenTwice(t.columns, target);
    var name := AutoName(t.columns, target);
    if name.Some? {
      KeysDroppedOnce(t.constraints, name.value);
    }
  }

  // ------------------------------------------------------------------ widths

  /** Every auto-increment column has the middle width. */
  predicate OnlyIntWidths(cols: List<ColumnDef>) {
    match cols
    case Nil => true
    case Cons(c, rest) =>
      AutoWidth(MapType(c.dataType, Mysql), c.options) in {None, Some(IntWidth)} && OnlyIntWidths(rest)
  }

  lemma {:induction false} MysqlColumnTwice(col: ColumnDef)
    ensures RewriteColumn(RewriteColumn(col, Mysql), Mysql) == RewriteColumn(col, Mysql)
            <==> AutoWidth(MapType(col.dataType, Mysql), col.options) in {None, Some(IntWidth)}
  {
    var kept := KeptOptions(col.options, Mysql);
    KeptOnce(col.options, Mysql);
    KeptPush(kept, AutoKeyword(AUTO_INCREMENT), Mysql);
  }

  /**
   For MySQL a second rewrite takes BIGINT and SMALLINT auto-increment columns down to INTEGER,
   because the first one writes the type as a name: it changes nothing exactly when there is no
   such column.
   */
  lemma {:induction false} MysqlColumnsTwice(cols: List<ColumnDef>)
    ensures RewriteColumns(RewriteColumns(cols, Mysql), Mysql) == RewriteColumns(cols, Mysql) <==> OnlyIntWidths(cols)
  {
    if cols.Cons? {
      MysqlColumnTwice(cols.head);
      MysqlColumnsTwice(cols.tail);
    }
  }

  // ------------------------------------------------------------------ what a mapped type stands for

  /** What the values of a type are. */
  datatype Kind =
    | Logical | Whole | Floating | Exact | Textual | Document | Octets | Identity | Span
    | Moment(date: bool, clock: bool)

  /** None for types the mapping does not know. */
  function KindOf(variant: TypeVariant): Option<Kind> {
    match variant
    case Bool | Boolean => Some(Logical)
    case Int | Int4 | Integer | Int2 | SmallInt | TinyInt | MediumInt | Int8 | BigInt => Some(Whole)
    case IntUnsigned | Int4Unsigned | IntegerUnsigned | Int2Unsigned | SmallIntUnsigned => Some(Whole)
    case Int8Unsigned | BigIntUnsigned => Some(Whole)
    case Float | Float4 | Float32 | Float8 | Float64 | Double | DoubleUnsigned => Some(Floating)
    case DoublePrecision | DoublePrecisionUnsigned | Real | RealUnsigned => Some(Floating)
    case Varchar | Char | Character | CharacterVarying | CharVarying | String => Some(Textual)
    case Text | TinyText | MediumText | LongText | Clob => Some(Textual)
    case JSON | JSONB => Some(Document)
    case Bytea | Binary | Varbinary | Blob | Bytes | Bit | BitVarying | VarBit => Some(Octets)
    case TinyBlob | MediumBlob | LongBlob => Some(Octets)
    case Numeric | Decimal | Dec | BigDecimal => Some(Exact)
    case Date => Some(Moment(true, false))
    case Time => Some(Moment(false, true))
    case Datetime | Timestamp | TimestampNtz => Some(Moment(true, true))
    case Uuid => Some(Identity)
    case Interval => Some(Span)
    case OtherVariant(_) => None
  }

  function KindOfName(name: TypeName): Option<Kind> {
    match name
    case BOOLEAN => Some(Logical)
    case INTEGER | BIGINT | SMALLINT => Some(Whole)
    case FLOAT | DOUBLE | DOUBLE_PRECISION | REAL => Some(Floating)
    case NUMERIC_NAME => Some(Exact)
    case TEXT | TINYTEXT | MEDIUMTEXT | LONGTEXT | CHAR36 => Some(Textual)
    case JSON_NAME | JSONB_NAME => Some(Document)
    case BLOB | BYTEA_NAME => Some(Octets)
    case DATE => Some(Moment(true, false))
    case TIME => Some(Moment(false, true))
    case DATETIME | TIMESTAMP => Some(Moment(true, true))
    case UUID => Some(Identity)
    case _ => None
  }

  /** Kinds a backend has no type for; their values are written out as text there. */
  predicate WrittenOut(kind: Kind, target: TargetDialect) {
    match target
    case Mysql => kind == Identity || kind == Span
    case Sqlite => kind == Identity || kind == Span || kind == Document || kind.Moment?
    case Postgres => false
  }

  ghost predicate StandsFor(name: TypeName, variant: TypeVariant, target: TargetDialect) {
    && KindOf(variant).Some?
    && KindOfName(name)
       == Some(if WrittenOut(KindOf(variant).value, target) then Textual else KindOf(variant).value)
  }

  lemma MysqlKeepsKind(variant: TypeVariant)
    ensures MysqlName(variant).Some? ==> StandsFor(MysqlName(variant).value, variant, Mysql)
  {
  }

  lemma SqliteKeepsKind(variant: TypeVariant)
    ensures SqliteName(variant).Some? ==> StandsFor(SqliteName(variant).value, variant, Sqlite)
  {
  }

  lemma PostgresKeepsKind(variant: TypeVariant)
    ensures PostgresName(variant).Some? ==> StandsFor(PostgresName(variant).value, variant, Postgres)
  {
  }

  /**
   A mapped type holds values of the kind it held: dates stay dates, bytes stay bytes. Where a
   backend has no type for the kind, it holds their text.
   */
  lemma MappingKeepsKind(variant: TypeVariant, target: TargetDialect)
    requires MapVariant(variant, target).Some?
    ensures StandsFor(MapVariant(variant, target).value, variant, target)
  {
    MysqlKeepsKind(variant);
    SqliteKeepsKind(variant);
    PostgresKeepsKind(variant);
  }

  predicate IsSizedBlob(variant: TypeVariant) { variant == TinyBlob || variant == MediumBlob || variant == LongBlob }

  /** Types a target has under the same name. */
  predicate StaysOn(variant: TypeVariant, target: TargetDialect) {
    match target
    case Mysql =>
      || KindOf(variant) == Some(Whole) || KindOf(variant) == Some(Exact) || IsSizedBlob(variant)
      || (KindOf(variant) == Some(Textual) && variant != TinyText && variant != MediumText && variant != LongText)
    case Sqlite => IsSizedBlob(variant)
    case Postgres => KindOf(variant) == Some(Exact) || KindOf(variant) == Some(Span)
  }

  /** Exactly those, the types the client named and the unknown ones are left alone. */
  lemma TypesLeftAlone(dt: DataType, target: TargetDialect)
    ensures MapType(dt, target) == dt
            <==> dt.Custom? || KindOf(dt.variant) == None || StaysOn(dt.variant, target)
  {
  }

  /** The type names a backend has. */
  predicate Has(target: TargetDialect, name: TypeName) {
    match target
    case Mysql =>
      || name == BOOLEAN || name == FLOAT || name == DOUBLE || name == TEXT || name == TINYTEXT || name == MEDIUMTEXT
      || name == LONGTEXT || name == CHAR36 || name == JSON_NAME || name == BLOB || name == DATE || name == TIME
      || name == DATETIME || name == TIMESTAMP
    case Sqlite =>
      || name == BOOLEAN || name == INTEGER || name == BIGINT || name == SMALLINT || name == REAL || name == TEXT
      || name == BLOB || name == NUMERIC_NAME
    case Postgres =>
      || name == BOOLEAN || name == INTEGER || name == BIGINT || name == SMALLINT || name == REAL
      || name == DOUBLE_PRECISION || name == TEXT || name == JSON_NAME || name == JSONB_NAME || name == BYTEA_NAME
      || name == DATE || name == TIME || name == TIMESTAMP || name == UUID
  }

  lemma MysqlHasName(variant: TypeVariant)
    ensures MysqlName(variant).Some? ==> Has(Mysql, MysqlName(variant).value)
  {
  }

  lemma SqliteHasName(variant: TypeVariant)
    ensures SqliteName(variant).Some? ==> Has(Sqlite, SqliteName(variant).value)
  {
  }

  lemma PostgresHasName(variant: TypeVariant)
    ensures PostgresName(variant).Some? ==> Has(Postgres, PostgresName(variant).value)
  {
  }

  /** Every other type becomes one the target has. */
  lemma MappedTypesExist(variant: TypeVariant, target: TargetDialect)
    requires MapVariant(variant, target).Some?
    ensures Has(target, MapVariant(variant, target).value)
  {
    MysqlHasName(variant);
    SqliteHasName(variant);
    PostgresHasName(variant);
  }

  /** Within a kind, MySQL keeps its text sizes and both of its clocks, PostgreSQL its two JSON types. */
  lemma SubtypesKept(variant: TypeVariant)
    ensures var name := MysqlName(variant);
            && (variant == TinyText ==> name == Some(TINYTEXT)) && (variant == MediumText ==> name == Some(MEDIUMTEXT))
            && (variant == LongText ==> name == Some(LONGTEXT)) && (variant == Uuid ==> name == Some(CHAR36))
            && (variant == Datetime ==> name == Some(DATETIME)) && (variant == Timestamp ==> name == Some(TIMESTAMP))
    ensures var name := PostgresName(variant);
            && (variant == JSON ==> name == Some(JSON_NAME)) && (variant == JSONB ==> name == Some(JSONB_NAME))
  {
  }

  predicate IsDouble(variant: TypeVariant) {
    || variant == Float8 || variant == Float64 || variant == Double || variant == DoubleUnsigned
    || variant == DoublePrecision || variant == DoublePrecisionUnsigned
  }

  /** The two floating sizes keep apart where the backend has two. */
  lemma FloatNames(variant: TypeVariant, target: TargetDialect)
    requires KindOf(variant) == Some(Floating)
    ensures MapVariant(variant, target)
            == Some(match target
                    case Mysql => if IsDouble(variant) then DOUBLE else FLOAT
                    case Postgres => if IsDouble(variant) then DOUBLE_PRECISION else REAL
                    case Sqlite => REAL)
  {
  }

  /** The precision in bits of a floating type written without one; FLOAT and REAL swap sides between the dialects. */
  function FloatBits(variant: TypeVariant, client: TargetDialect): nat {
    match variant
    case Float4 | Float32 => 32
    case Float => if client == Mysql then 32 else 64
    case Real | RealUnsigned => if client == Mysql then 64 else 32
    case _ => 64
  }

  function FloatBitsOfName(name: TypeName, target: TargetDialect): nat {
    if target == Sqlite then 64
    else
      match name
      case FLOAT => if target == Mysql then 32 else 64
      case REAL => if target == Mysql then 64 else 32
      case _ => 64
  }

  /**
   A floating column keeps its precision exactly unless it is FLOAT from a PostgreSQL client on
   MySQL, or REAL from a MySQL client on PostgreSQL.
   */
  lemma FloatsKeepPrecision(variant: TypeVariant, client: TargetDialect, target: TargetDialect)
    requires KindOf(variant) == Some(Floating) && client != target && client != Sqlite
    ensures MapVariant(variant, target).Some?
    ensures FloatBitsOfName(MapVariant(variant, target).value, target) >= FloatBits(variant, client)
            <==> !(variant == Float && client == Postgres && target == Mysql)
                 && !((variant == Real || variant == RealUnsigned) && client == Mysql && target == Postgres)
  {
  }

  // ------------------------------------------------------------------ what a mapped type holds

  /** Two to the `n`. */
  function Power(n: nat): int { if n == 0 then 1 else 2 * Power(n - 1) }

  /** The width in bits of a whole-number type, and whether it is unsigned. */
  function BitsOf(variant: TypeVariant): Option<(nat, bool)> {
    match variant
    case TinyInt => Some((8, false))
    case SmallInt | Int2 => Some((16, false))
    case SmallIntUnsigned | Int2Unsigned => Some((16, true))
    case MediumInt => Some((24, false))
    case Int | Int4 | Integer => Some((32, false))
    case IntUnsigned | Int4Unsigned | IntegerUnsigned => Some((32, true))
    case BigInt | Int8 => Some((64, false))
    case BigIntUnsigned | Int8Unsigned => Some((64, true))
    case _ => None
  }

  /** `v` is a value of a whole-number type. */
  predicate InBits(v: int, bits: nat, unsigned: bool)
    requires bits > 0
  {
    if unsigned then 0 <= v < Power(bits) else -Power(bits - 1) <= v < Power(bits - 1)
  }

  /** The width of a signed whole-number type. SQLite stores 64 bits whatever the name. */
  function BitsOfName(name: TypeName, target: TargetDialect): nat {
    if target == Sqlite then 64
    else
      match name
      case SMALLINT | SMALLSERIAL | SERIAL2 => 16
      case BIGINT | BIGSERIAL | SERIAL8 => 64
      case _ => 32
  }

  lemma {:induction false} PowerGrows(a: nat, b: nat)
    requires a <= b
    ensures Power(a) <= Power(b) && (a < b ==> Power(a) < Power(b))
  {
    if a < b {
      PowerGrows(a, b - 1);
      PowerPositive(b - 1);
    }
  }

  lemma {:induction false} PowerPositive(n: nat)
    ensures Power(n) > 0
  {
    if n > 0 {
      PowerPositive(n - 1);
    }
  }

  /** All values of `bits` bits are values of `width` signed bits exactly when they are no wider. */
  lemma {:induction false} RangesNest(bits: nat, unsigned: bool, width: nat)
    requires bits > 0 && width > 0
    ensures (forall v :: InBits(v, bits, unsigned) ==> InBits(v, width, false))
            <==> if unsigned then bits < width else bits <= width
  {
    var top := if unsigned then bits else bits - 1;
    PowerPositive(top);
    if top <= width - 1 {
      PowerGrows(top, width - 1);
    } else {
      PowerGrows(width - 1, top);
      PowerPositive(width - 1);
      var v := Power(top) - 1;
      assert InBits(v, bits, unsigned);
      assert Power(width - 1) <= v ==> !InBits(v, width, false);
    }
  }

  /**
   Every value of a whole-number column fits the column it is mapped to exactly when the column
   is signed, or narrower than the target's: PostgreSQL gets a signed type of the same width.
   */
  lemma {:induction false} WholeNumbersFit(variant: TypeVariant, target: TargetDialect)
    requires BitsOf(variant).Some? && MapVariant(variant, target).Some?
    ensures var (bits, unsigned) := BitsOf(variant).value;
            var name := MapVariant(variant, target).value;
            (forall v :: InBits(v, bits, unsigned) ==> InBits(v, BitsOfName(name, target), false))
            <==> !unsigned || (target == Sqlite && bits < 64)
  {
    var (bits, unsigned) := BitsOf(variant).value;
    RangesNest(bits, unsigned, BitsOfName(MapVariant(variant, target).value, target));
  }

  /**
   The type written for a whole number is the narrowest of SMALLINT, INTEGER and BIGINT with its
   bits, on SQLite too, where the name says what the catalog will report.
   */
  lemma NarrowestIsWritten(variant: TypeVariant, target: TargetDialect)
    requires BitsOf(variant).Some? && target != Mysql
    ensures var bits := BitsOf(variant).value.0;
            MapVariant(variant, target)
            == Some(if bits <= 16 then SMALLINT else if bits <= 32 then INTEGER else BIGINT)
  {
  }

  /** The width of the declared type of an auto-increment column, a serial or a whole number. */
  function BitsOfType(dt: DataType): Option<(nat, bool)> {
    match dt
    case BuiltIn(variant, _) => BitsOf(variant)
    case Custom(name, _) => if SerialWidth(dt).Some? then Some((BitsOfName(name, Postgres), false)) else None
  }

  /** The guard under which an auto-increment column keeps room for its ids. */
  predicate KeepsRoom(dt: DataType, target: TargetDialect)
    requires BitsOfType(dt).Some?
  {
    var (bits, unsigned) := BitsOfType(dt).value;
    match target
    case Sqlite => !unsigned || bits < 64
    case Mysql => !unsigned || bits < 32
    case Postgres => dt.Custom? || bits < 32 || (bits == 32 && !unsigned)
  }

  lemma WrittenBits(col: ColumnDef, target: TargetDialect)
    requires BitsOfType(col.dataType).Some? && IsAuto(col, target)
    ensures RewriteColumn(col, target).dataType.Custom?
    ensures var (bits, unsigned) := BitsOfType(col.dataType).value;
            var width := BitsOfName(RewriteColumn(col, target).dataType.name, target);
            && bits > 0 && width > 0
            && (KeepsRoom(col.dataType, target) <==> if unsigned then bits < width else bits <= width)
  {
  }

  /**
   Every id of an auto-increment column fits the column the rewrite declares exactly when:
   for SQLite, it is not an unsigned 64-bit one; for MySQL, it is signed or unsigned below 32 bits;
   for PostgreSQL, it is a serial, or fits 32 signed bits.
   */
  lemma {:induction false} IdsFitTarget(col: ColumnDef, target: TargetDialect)
    requires BitsOfType(col.dataType).Some? && IsAuto(col, target)
    ensures RewriteColumn(col, target).dataType.Custom?
    ensures var (bits, unsigned) := BitsOfType(col.dataType).value;
            var width := BitsOfName(RewriteColumn(col, target).dataType.name, target);
            bits > 0 && width > 0 &&
            ((forall v :: InBits(v, bits, unsigned) ==> InBits(v, width, false)) <==> KeepsRoom(col.dataType, target))
  {
    var (bits, unsigned) := BitsOfType(col.dataType).value;
    WrittenBits(col, target);
    RangesNest(bits, unsigned, BitsOfName(RewriteColumn(col, target).dataType.name, target));
  }

  // ------------------------------------------------------------------ what survives

  /** `a` is `b` with some elements left out. */
  predicate Sublist<T(==)>(a: List<T>, b: List<T>) {
    a.Nil? || (b.Cons? && ((a.head == b.head && Sublist(a.tail, b.tail)) || Sublist(a, b.tail)))
  }

  function Count<T(==)>(xs: List<T>, x: T): nat {
    match xs
    case Nil => 0
    case Cons(y, rest) => (if y == x then 1 else 0) + Count(rest, x)
  }

  predicate Names(o: ColumnOption, w: Keyword) { o.DialectSpecific? && Contains(o.tokens, Word(w)) }

  predicate AsksForAuto(o: ColumnOption) { Names(o, AUTO_INCREMENT) || Names(o, AUTOINCREMENT) }

  /** Options that only MySQL has. */
  predicate MysqlOnly(o: ColumnOption) {
    || o.Comment? || o.CharacterSet? || o.Collation? || o.OnUpdate?
    || Names(o, ENGINE) || Names(o, COMMENT) || Names(o, CHARSET) || Names(o, COLLATE)
  }

  lemma {:induction false} WordsAreFound(tokens: List<Token>)
    ensures HasAutoWord(tokens) <==> Contains(tokens, Word(AUTO_INCREMENT)) || Contains(tokens, Word(AUTOINCREMENT))
    ensures HasStripped(tokens)
            <==> Contains(tokens, Word(ENGINE)) || Contains(tokens, Word(COMMENT)) || Contains(tokens, Word(CHARSET))
                 || Contains(tokens, Word(COLLATE))
  {
    if tokens.Cons? {
      WordsAreFound(tokens.tail);
    }
  }

  lemma KeptIff(o: OptionDef, target: TargetDialect)
    ensures KeepsOption(o, target) <==> !AsksForAuto(o.option) && (target == Mysql || !MysqlOnly(o.option))
  {
    if o.option.DialectSpecific? {
      WordsAreFound(o.option.tokens);
    }
  }

  lemma {:induction false} KeptAreSublist(options: List<OptionDef>, target: TargetDialect)
    ensures Sublist(KeptOptions(options, target), options)
  {
    if options.Cons? {
      KeptAreSublist(options.tail, target);
    }
  }

  lemma {:induction false} KeptCount(options: List<OptionDef>, target: TargetDialect, o: OptionDef)
    ensures Count(KeptOptions(options, target), o) == if KeepsOption(o, target) then Count(options, o) else 0
  {
    if options.Cons? {
      KeptCount(options.tail, target, o);
    }
  }

  lemma {:induction false} AutoColumnIff(col: ColumnDef, target: TargetDialect)
    ensures IsAuto(col, target)
            <==> || (col.dataType.Custom?
                     && col.dataType.name in {SERIAL, SERIAL4, BIGSERIAL, SERIAL8, SMALLSERIAL, SERIAL2})
                 || exists o :: Contains(col.options, o) && AsksForAuto(o.option)
  {
    AutoOptionIff(col.options);
  }

  lemma {:induction false} AutoOptionIff(options: List<OptionDef>)
    ensures HasAutoOption(options) <==> exists o :: Contains(options, o) && AsksForAuto(o.option)
  {
    if options.Cons? {
      AutoOptionIff(options.tail);
      if options.head.option.DialectSpecific? {
        WordsAreFound(options.head.option.tokens);
      }
      assert Contains(options, options.head);
      assert forall o :: Contains(options.tail, o) ==> Contains(options, o);
    }
  }

  /** The options written behind the declared ones. */
  function Appended(col: ColumnDef, target: TargetDialect): List<OptionDef> {
    if !IsAuto(col, target) || target == Postgres then Nil
    else if target == Mysql then Cons(OptionDef(None, DialectSpecific(Cons(Word(AUTO_INCREMENT), Nil))), Nil)
    else
      var last := Cons(OptionDef(None, DialectSpecific(Cons(Word(AUTOINCREMENT), Nil))), Nil);
      if KeyOptions(col.options) > 0 then last else Cons(OptionDef(None, PrimaryKey("")), last)
  }

  /**
   What a column keeps: its options in order, each as often as declared, but for those that ask
   for auto-increment and, on other backends, those that only MySQL has. What is written behind
   them is a key, if SQLite still needs one, and the backend's own auto-increment word.
   */
  lemma {:induction false} OptionsSurvive(col: ColumnDef, target: TargetDialect) returns (kept: List<OptionDef>)
    ensures RewriteColumn(col, target).name == col.name
    ensures RewriteColumn(col, target).options == Append(kept, Appended(col, target))
    ensures Sublist(kept, col.options)
    ensures forall o ::
              Count(kept, o)
              == if AsksForAuto(o.option) || (target != Mysql && MysqlOnly(o.option)) then 0 else Count(col.options, o)
  {
    kept := KeptOptions(col.options, target);
    KeptAreSublist(col.options, target);
    KeptKeys(col.options, target);
    KeptKeys(kept, target);
    AppendNil(kept);
    if IsAuto(col, target) && target == Sqlite {
      AppendAssoc(kept, Cons(KEY_OPTION, Nil), Cons(AutoKeyword(AUTOINCREMENT), Nil));
    }
    forall o
      ensures Count(kept, o)
              == if AsksForAuto(o.option) || (target != Mysql && MysqlOnly(o.option)) then 0 else Count(col.options, o)
    {
      KeptCount(col.options, target, o);
      KeptIff(o, target);
    }
  }

  /** The primary keys of a column and the options every backend has: NOT NULL, DEFAULT, UNIQUE, CHECK, ... */
  function Portable(options: List<OptionDef>): List<OptionDef> {
    match options
    case Nil => Nil
    case Cons(o, rest) =>
      if o.option.OtherOption? || o.option.PrimaryKey? then Cons(o, Portable(rest)) else Portable(rest)
  }

  lemma {:induction false} PortableKept(options: List<OptionDef>, target: TargetDialect)
    ensures Portable(KeptOptions(options, target)) == Portable(options)
  {
    if options.Cons? {
      PortableKept(options.tail, target);
    }
  }

  lemma {:induction false} PortablePush(options: List<OptionDef>, o: OptionDef)
    ensures Portable(Push(options, o))
            == if o.option.OtherOption? || o.option.PrimaryKey? then Push(Portable(options), o) else Portable(options)
  {
    if options.Cons? {
      PortablePush(options.tail, o);
    } else {
      assert Portable(Nil) == Nil;
    }
  }

  /** NOT NULL, DEFAULT, UNIQUE and the like stay where they are among the keys, with a key added for SQLite alone. */
  lemma {:induction false} PortableOptionsStay(col: ColumnDef, target: TargetDialect)
    ensures Portable(RewriteColumn(col, target).options)
            == if target == Sqlite && IsAuto(col, target) && KeyOptions(col.options) == 0
               then Append(Portable(col.options), Cons(OptionDef(None, PrimaryKey("")), Nil))
               else Portable(col.options)
  {
    var kept := KeptOptions(col.options, target);
    PortableKept(col.options, target);
    KeptKeys(col.options, target);
    KeptKeys(kept, target);
    PortablePush(kept, AutoKeyword(AUTO_INCREMENT));
    PortablePush(kept, KEY_OPTION);
    PortablePush(kept, AutoKeyword(AUTOINCREMENT));
    PortablePush(Push(kept, KEY_OPTION), AutoKeyword(AUTOINCREMENT));
  }

  /** The types written for auto-increment columns: serials by their size, and declared whole numbers likewise. */
  lemma {:induction false} AutoTypes(col: ColumnDef, target: TargetDialect)
    requires IsAuto(col, target)
    ensures var written := RewriteColumn(col, target).dataType;
            && (target == Sqlite ==> written == Custom(INTEGER, ""))
            && (col.dataType.Custom? && col.dataType.name in {SMALLSERIAL, SERIAL2} ==>
                  && (target == Mysql ==> written == Custom(SMALLINT, ""))
                  && (target == Postgres ==> written == Custom(SMALLSERIAL, "")))
            && (col.dataType.Custom? && col.dataType.name in {BIGSERIAL, SERIAL8} ==>
                  && (target == Mysql ==> written == Custom(BIGINT, ""))
                  && (target == Postgres ==> written == Custom(BIGSERIAL, "")))
            && (col.dataType.Custom? && col.dataType.name !in {SMALLSERIAL, SERIAL2, BIGSERIAL, SERIAL8} ==>
                  && (target == Mysql ==> written == Custom(INTEGER, ""))
                  && (target == Postgres ==> written == Custom(SERIAL, "")))
            && (col.dataType.BuiltIn? && target == Mysql ==>
                  written == if col.dataType.variant in {TinyInt, SmallInt, Int2} then Custom(SMALLINT, "")
                             else if col.dataType.variant in {BigInt, Int8} then Custom(BIGINT, "")
                             else Custom(INTEGER, ""))
            && (col.dataType.BuiltIn? && target == Postgres && BitsOf(col.dataType.variant).Some? ==>
                  written == Custom(SERIAL, ""))
  {
  }

  lemma {:induction false} ColumnsAreSeparate(before: List<ColumnDef>, col: ColumnDef, after: List<ColumnDef>,
                                              target: TargetDialect)
    ensures RewriteColumns(Append(before, Cons(col, after)), target)
            == Append(RewriteColumns(before, target), Cons(RewriteColumn(col, target), RewriteColumns(after, target)))
    ensures Length(RewriteColumns(before, target)) == Length(before)
  {
    if before.Cons? {
      ColumnsAreSeparate(before.tail, col, after, target);
    } else {
      assert RewriteColumns(Nil, target) == Nil;
      assert Append(Nil, Cons(col, after)) == Cons(col, after);
    }
  }

  /** A primary key on `name`, compared up to ASCII case. */
  ghost predicate KeyOn(c: TableConstraint, name: string) {
    c.PrimaryKeyOn? && exists n :: Contains(c.columns, n) && Lower(n) == Lower(name)
  }

  lemma {:induction false} MentionedIff(columns: List<string>, name: string)
    ensures Mentions(columns, name) <==> KeyOn(PrimaryKeyOn(columns), name)
  {
    if columns.Cons? {
      MentionedIff(columns.tail, name);
      if Lower(columns.head) == Lower(name) {
        assert Contains(columns, columns.head);
      } else if Mentions(columns.tail, name) {
        var n :| Contains(columns.tail, n) && Lower(n) == Lower(name);
        assert Contains(columns, n);
      }
    }
  }

  lemma {:induction false} ConstraintsSublist(constraints: List<TableConstraint>, name: string)
    ensures Sublist(DropKeysOn(constraints, name), constraints)
  {
    if constraints.Cons? {
      ConstraintsSublist(constraints.tail, name);
    }
  }

  lemma {:induction false} ConstraintCount(constraints: List<TableConstraint>, name: string, c: TableConstraint)
    ensures Count(DropKeysOn(constraints, name), c) == if KeyOn(c, name) then 0 else Count(constraints, c)
  {
    if constraints.Cons? {
      ConstraintCount(constraints.tail, name, c);
      if constraints.head.PrimaryKeyOn? {
        MentionedIff(constraints.head.columns, name);
      }
    }
  }

  /** The auto-increment column that counts is the last one. */
  lemma {:induction false} AutoNameIsLast(before: List<ColumnDef>, col: ColumnDef, after: List<ColumnDef>)
    requires IsAuto(col, Sqlite) && AutoCount(after) == 0
    ensures AutoName(Append(before, Cons(col, after)), Sqlite) == Some(col.name)
  {
    if before.Cons? {
      AutoNameIsLast(before.tail, col, after);
    } else {
      assert Append(Nil, Cons(col, after)) == Cons(col, after);
      SqliteColumns(after);
    }
  }

  /** What the table as a whole keeps; only SQLite has keys to drop, and only with an auto-increment column. */
  lemma {:induction false} TableKeeps(t: Table, target: TargetDialect)
    ensures var r := RewriteTable(t, target);
            && r.tableOptions == (if target == Mysql then t.tableOptions else None)
            && r.orReplace == (t.orReplace && target == Postgres)
            && r.columns == RewriteColumns(t.columns, target)
            && (target != Sqlite || AutoCount(t.columns) == 0 ==> r.constraints == t.constraints)
  {
    SqliteColumns(t.columns);
  }

  /** On SQLite the keys that mention the last auto-increment column go, and no other constraint does; order is kept. */
  lemma {:induction false} SqliteConstraints(t: Table, before: List<ColumnDef>, col: ColumnDef, after: List<ColumnDef>)
    requires t.columns == Append(before, Cons(col, after)) && IsAuto(col, Sqlite) && AutoCount(after) == 0
    ensures var r := RewriteTable(t, Sqlite);
            && Sublist(r.constraints, t.constraints)
            && forall c :: Count(r.constraints, c) == if KeyOn(c, col.name) then 0 else Count(t.constraints, c)
  {
    AutoNameIsLast(before, col, after);
    ConstraintsSublist(t.constraints, col.name);
    forall c
      ensures Count(DropKeysOn(t.constraints, col.name), c)
              == if KeyOn(c, col.name) then 0 else Count(t.constraints, c)
    {
      ConstraintCount(t.constraints, col.name, c);
    }
  }

  /** Names are compared without regard to ASCII case. */
  lemma NamesWithoutCase(c: char)
    ensures 'A' <= c <= 'Z' ==> FoldChar(c) as int == c as int + 32
    ensures !('A' <= c <= 'Z') ==> FoldChar(c) == c
    ensures Lower("User_ID2") == "user_id2"
  {
  }

  // ------------------------------------------------------------------ one key

  function KeyOptions(options: List<OptionDef>): nat {
    match options
    case Nil => 0
    case Cons(o, rest) => (if o.option.PrimaryKey? then 1 else 0) + KeyOptions(rest)
  }

  function ColumnKeys(cols: List<ColumnDef>): nat {
    match cols
    case Nil => 0
    case Cons(c, rest) => KeyOptions(c.options) + ColumnKeys(rest)
  }

  function TableKeys(constraints: List<TableConstraint>): nat {
    match constraints
    case Nil => 0
    case Cons(c, rest) => (if c.PrimaryKeyOn? then 1 else 0) + TableKeys(rest)
  }

  /** All primary keys declared anywhere in a table. */
  function KeyCount(t: Table): nat { ColumnKeys(t.columns) + TableKeys(t.constraints) }

  function AutoCount(cols: List<ColumnDef>): nat {
    match cols
    case Nil => 0
    case Cons(c, rest) => (if IsAuto(c, Sqlite) then 1 else 0) + AutoCount(rest)
  }

  /** INTEGER, a PRIMARY KEY option, and a single AUTOINCREMENT that comes last, so after it. */
  ghost predicate IsSqliteAutoColumn(col: ColumnDef) {
    && col.dataType == Plain(INTEGER)
    && exists front ::
         && col.options == Push(front, AutoKeyword(AUTOINCREMENT))
         && HasPrimaryKey(front) && !HasAutoOption(front)
  }

  ghost predicate AutoColumnsAreValid(cols: List<ColumnDef>) {
    match cols
    case Nil => true
    case Cons(c, rest) => (HasAutoOption(c.options) ==> IsSqliteAutoColumn(c)) && AutoColumnsAreValid(rest)
  }

  lemma {:induction false} KeyOptionsPush(options: List<OptionDef>, o: OptionDef)
    ensures KeyOptions(Push(options, o)) == KeyOptions(options) + (if o.option.PrimaryKey? then 1 else 0)
  {
    if options.Cons? {
      KeyOptionsPush(options.tail, o);
    } else {
      assert KeyOptions(Nil) == 0;
    }
  }

  lemma {:induction false} KeptKeys(options: List<OptionDef>, target: TargetDialect)
    ensures KeyOptions(KeptOptions(options, target)) == KeyOptions(options)
    ensures HasPrimaryKey(options) <==> KeyOptions(options) > 0
  {
    if options.Cons? {
      KeptKeys(options.tail, target);
    }
  }

  lemma {:induction false} SqliteColumn(col: ColumnDef)
    ensures var r := RewriteColumn(col, Sqlite);
            && KeyOptions(r.options)
               == (if IsAuto(col, Sqlite) && KeyOptions(col.options) == 0 then 1 else KeyOptions(col.options))
            && (HasAutoOption(r.options) <==> IsAuto(col, Sqlite))
            && (HasAutoOption(r.options) ==> IsSqliteAutoColumn(r))
  {
    var kept := KeptOptions(col.options, Sqlite);
    KeptKeys(col.options, Sqlite);
    KeptKeys(kept, Sqlite);
    KeptOnce(col.options, Sqlite);
    if IsAuto(col, Sqlite) {
      var keyed := if HasPrimaryKey(kept) then kept else Push(kept, KEY_OPTION);
      KeyOptionsPush(kept, KEY_OPTION);
      KeptPush(kept, KEY_OPTION, Sqlite);
      KeyOptionsPush(keyed, AutoKeyword(AUTOINCREMENT));
      KeptPush(keyed, AutoKeyword(AUTOINCREMENT), Sqlite);
      assert RewriteColumn(col, Sqlite).options == Push(keyed, AutoKeyword(AUTOINCREMENT));
    }
  }

  /** Keys declared on columns other than the auto-increment ones. */
  function OtherColumnKeys(cols: List<ColumnDef>): nat {
    match cols
    case Nil => 0
    case Cons(c, rest) => (if IsAuto(c, Sqlite) then 0 else KeyOptions(c.options)) + OtherColumnKeys(rest)
  }

  lemma {:induction false} SqliteColumns(cols: List<ColumnDef>)
    ensures AutoColumnsAreValid(RewriteColumns(cols, Sqlite))
    ensures ColumnKeys(RewriteColumns(cols, Sqlite)) >= AutoCount(cols) + OtherColumnKeys(cols)
    ensures ColumnKeys(cols) <= 1 ==>
              ColumnKeys(RewriteColumns(cols, Sqlite)) == AutoCount(cols) + OtherColumnKeys(cols)
    ensures ColumnKeys(cols) >= OtherColumnKeys(cols)
    ensures AutoCount(cols) > 0 <==> AutoName(cols, Sqlite).Some?
  {
    if cols.Cons? {
      SqliteColumns(cols.tail);
      SqliteColumn(cols.head);
    }
  }

  /** Every table-level key names the column, as printed, up to case. */
  predicate KeysMention(constraints: List<TableConstraint>, name: string) {
    match constraints
    case Nil => true
    case Cons(c, rest) => (c.PrimaryKeyOn? ==> Mentions(c.columns, name)) && KeysMention(rest, name)
  }

  lemma {:induction false} DroppedKeys(constraints: List<TableConstraint>, name: string)
    ensures TableKeys(DropKeysOn(constraints, name)) == 0 <==> KeysMention(constraints, name)
    ensures TableKeys(DropKeysOn(constraints, name)) <= TableKeys(constraints)
  {
    if constraints.Cons? {
      DroppedKeys(constraints.tail, name);
    }
  }

  /** The declared key, if any, is on the auto-increment column or mentions it. */
  predicate KeyCoversAuto(t: Table)
    requires AutoCount(t.columns) == 1
  {
    SqliteColumns(t.columns);
    OtherColumnKeys(t.columns) == 0 && KeysMention(t.constraints, AutoName(t.columns, Sqlite).value)
  }

  /**
   With one auto-increment column and at most one declared key, SQLite gets a table with exactly
   one primary key exactly when the declared key covers that column; either way the column is
   INTEGER with PRIMARY KEY before a single, last AUTOINCREMENT.
   */
  lemma {:induction false} SqliteTableHasOneKey(t: Table)
    requires AutoCount(t.columns) == 1 && KeyCount(t) <= 1
    ensures KeyCount(RewriteTable(t, Sqlite)) == 1 <==> KeyCoversAuto(t)
    ensures AutoColumnsAreValid(RewriteTable(t, Sqlite).columns)
  {
    SqliteColumns(t.columns);
    DroppedKeys(t.constraints, AutoName(t.columns, Sqlite).value);
  }

  /** A key on a quoted name prints with its quotes, so it is not recognised and stays. */
  lemma {:induction false} QuotedKeyStays(t: Table, q: char, quoted: string)
    requires AutoCount(t.columns) == 1 && ColumnKeys(t.columns) == 0
    requires t.constraints == Cons(PrimaryKeyOn(Cons(quoted, Nil)), Nil)
    requires AutoName(t.columns, Sqlite).Some? && quoted == [q] + AutoName(t.columns, Sqlite).value + [q]
    ensures KeyCount(RewriteTable(t, Sqlite)) == 2
  {
    var name := AutoName(t.columns, Sqlite).value;
    SqliteColumns(t.columns);
    assert |Lower(quoted)| == |name| + 2;
    assert !Mentions(Nil, name);
    assert DropKeysOn(t.constraints, name) == t.constraints by { assert DropKeysOn(Nil, name) == Nil; }
    assert TableKeys(t.constraints) == 1 by { assert TableKeys(Nil) == 0; }
  }
}
