# SQLRedirect: a model of its SQL rewriting, in Dafny

SQLRedirect accepts MySQL or PostgreSQL clients and sends their statements to a MySQL, PostgreSQL
or SQLite backend. This project models what happens between "statement parsed" and "text sent",
and proves what the rewriting keeps. Where the code does not keep something, the project proves
when it does.

| file | models |
|---|---|
| `SqlLexer.dfy`, `Quoting.dfy`, `Requoting.dfy` | the re-quoting scanner, an independent definition of tokens, and what re-quoting preserves |
| `Translation.dfy` | the two entry points of the translator |
| `Placeholders.dfy`, `Substitution.dfy`, `ValueTokens.dfy` | placeholder substitution, quoted values, the schema probe |
| `SqlAst.dfy`, `Semantics.dfy`, `ExprRewriting.dfy`, `ExprMeaning.dfy` | expressions, their meaning in each dialect, the expression visitor |
| `InsertRewriting.dfy`, `UpsertMeaning.dfy` | the INSERT rewrite and what it does to a keyed table |
| `CreateTable.dfy` | CREATE TABLE rewriting |
| `ExprPrinting.dfy`, `ParamHints.dfy` | how expressions print and are read as columns, parameter type inference |
| `SessionRuns.dfy` | the script loop, interception and `LAST_INSERT_ID()` |
| `Bytea.dfy`, `SqliteTables.dfy`, `SqliteColumns.dfy`, `SqliteQueries.dfy` | the bytea text form and the SQLite text scanners |
| `Wrappers.dfy`, `Text.dfy`, `Dialects.dfy` | shared types and searches |

Loops over characters are methods with invariants, proved equal to a function of the input; the
statements and the session that the source changes in place are classes whose methods give the
whole new state. The theorems are then about those functions. Lemmas switch automatic induction
off (`{:induction false}`), so their bodies are their proofs and verification stays quick.

## Findings

Properties that do not hold of the code on all inputs, with the condition under which they do:

- `fix_quoting` slices out of range on a text that ends in a lone opening quote, and drops the last
  character of any other unclosed identifier (rewrite.rs:410). Two identifiers that touch merge.
- Re-quoting doubles the target's quote inside a name but never collapses the source's doubled
  quote, so a name that contains its own quote changes, and re-quoting is not idempotent for a
  name that contains the target's quote.
- A `$tag$` left open in one statement can be closed by a later one when texts are joined before
  re-quoting (mod.rs:142-150): the join scans into the texts' own tokens exactly when no text
  leaves something open that those behind it end.
- A bound value can close a dollar quote left open in front of its placeholder; a `?` or `$n` inside
  an identifier or comment (`"a?b"`) is filled; and an apostrophe in a comment (`-- it's`) hides the
  placeholders behind it. Substitution is right for all values exactly when both scanners see the
  same placeholders, none of these touches a string or another one, and no `$tag$` is left open in
  front of one.
- A LIKE without change of its own means something else on a target that ignores case (the default
  on SQLite and MySQL), unless its pattern asks for no letter. A LIKE or ILIKE pattern with a
  backslash changes meaning on SQLite, which has no default escape character. ILIKE with a letter as
  escape character changes meaning on both, as the pattern is lowered and the escape is not
  (rewrite.rs:284-290).
- A CONCAT is passed on as it is, and NULL arguments make it NULL on MySQL only. A MySQL client's `||`
  is a logical OR and is passed on as well.
- `ON DUPLICATE KEY UPDATE` is evaluated left to right on MySQL and all at once elsewhere; aimed at
  PostgreSQL it becomes a DO UPDATE without a conflict target, which PostgreSQL always rejects
  (`UpsertMeaning.UpsertRejectedByPostgres`).
- `INSERT IGNORE ... ON DUPLICATE KEY UPDATE` loses its update (rewrite.rs:127-134).
- DO UPDATE loses its WHERE clause on MySQL (rewrite.rs:112-115).
- DO NOTHING without a target, or on a named constraint, becomes `id = id` on MySQL, rejected when
  there is no column `id` (rewrite.rs:105).
- Auto-increment columns lose width: BIGINT becomes SERIAL on PostgreSQL, BIGINT UNSIGNED becomes
  INTEGER on MySQL as well (types.rs:35-36 maps the type before the width is read, and the width of
  unsigned types is never read). Rewriting for MySQL twice narrows BIGINT to INTEGER.
- Unsigned columns become signed ones of the same width on PostgreSQL, so their upper half is lost; on
  SQLite only 64-bit ones do not fit.
- A FLOAT column has half the precision on MySQL that it has for a PostgreSQL client, and so has REAL
  the other way round (types.rs:244-247, 316).
- The replacement of RAND() for SQLite is between -3/4 and -1/4, never between 0 and 1
  (`ExprRewriting.RandomIsNegative`, rewrite.rs:330).
- A table-level key on a quoted name is not recognised, so SQLite gets two primary keys
  (types.rs:52-54).
- Parameter inference takes any printed text that ends in a qualified name for that column, so
  `price + t.tax > $1` is noted for `tax`; so are numbers and NULL. It misses `t."name" = $1`, and
  everything below a cast, an IN list, a BETWEEN or a named argument (pgparams.rs:217-300).
- The schema probe's substitution fails on `$0`, and on an overflowing `$n` or a `?` with too few
  literals; the text is then sent with its placeholders in it.
- The SQLite table scan looks for FROM and JOIN inside words, so `SELECT date_from FROM t` also
  reports a table named FROM. It is right exactly when no identifier has one of them in it with more
  of the word or a space behind.
- A call with a qualified argument, `count(t.id)`, is read as a column `id)`.
- A column named FROM between spaces is taken for the keyword by the SQLite column scan; a name AS
  does no harm, although it looks as if it might.

## Model

| member | source | states |
|---|---|---|
| SqlLexer.BodyExtentSplits | src/translate/rewrite.rs:360-376 | a quoted body ends at the first quote that is not doubled, or at the end of the text |
| SqlLexer.DollarSplits | src/translate/rewrite.rs:445-471 | an opened dollar quote is a tag, a body without that tag's delimiter, and the delimiter again |
| SqlLexer.LexIsTokenization | src/translate/rewrite.rs:351-442 | for every text, scanning yields tokens that fit what follows them, and loses no character |
| SqlLexer.TokenizationIsLexed | src/translate/rewrite.rs:351-442 | conversely any list of tokens that fit, however obtained, is what scanning its text yields: tokenizations are unique |
| SqlLexer.StringForm | src/translate/rewrite.rs:360-376 | `'body'` in front of any text is one string token |
| SqlLexer.IdentifierForms | src/translate/rewrite.rs:390-417 | so is a body in double quotes, and one in backticks, one identifier |
| SqlLexer.LineCommentForm | src/translate/rewrite.rs:418-425 | `--` to the end of the line is one comment |
| SqlLexer.BlockCommentForm | src/translate/rewrite.rs:426-433 | `/*` to the first `*/` is one comment |
| SqlLexer.DollarForm | src/translate/rewrite.rs:377-389 | `$tag$ body $tag$` is one dollar quote, for every tag that starts with no underscore, or none |
| Quoting.ScanQuoted | src/translate/rewrite.rs:360-376 | the scan of a string or identifier stops just behind its closing quote, doubled quotes skipped |
| Quoting.ScanBlock | src/translate/rewrite.rs:426-433 | a block comment ends behind its first `*/`, or at the end of the text |
| Quoting.MatchDelimiter | src/translate/rewrite.rs:457-466 | answers whether `$tag$` occurs at a position, and where it ends |
| Quoting.FindDelimiter | src/translate/rewrite.rs:455-470 | finds the end of the first `$tag$`, or says there is none |
| Quoting.SkipDollarQuoted | src/translate/rewrite.rs:445-471 | the end of the dollar-quoted string, or just past the `$` when none is opened and closed |
| Quoting.EmitIdentifier | src/translate/rewrite.rs:407-416 | the body between target quotes with every target quote doubled |
| Quoting.ConvertIdentifier | src/translate/rewrite.rs:390-417 | converts one identifier; the slice is out of range exactly for a lone opening quote |
| Quoting.FixQuoting | src/translate/rewrite.rs:351-442 | the loop computes, for every text, the rendering of its tokens, and aborts exactly when some token is a lone opening quote |
| Requoting.FlatDollar | src/translate/rewrite.rs:377-389 | whether a `$` opens a dollar quote does not depend on the kind or number of identifier quotes behind it |
| Requoting.FlatRender | src/translate/rewrite.rs:407-416 | re-quoting closed identifiers changes a text only in its runs of quote characters |
| Requoting.ImagesAreTokens | src/translate/rewrite.rs:351-442 | however a text splits into tokens, their images are tokens of the output, no `$tag$`, comment or string created or destroyed, exactly when every identifier is closed and no two touch |
| Requoting.RequotingKeepsTokens | src/translate/rewrite.rs:351-442 | for every text, the output has the input's tokens with each identifier in target quotes exactly when every identifier is closed and no two touch |
| Requoting.RequotingUsesTargetQuotes | src/translate/rewrite.rs:390-417 | under that condition every identifier token of the output is in backticks for MySQL and in double quotes for PostgreSQL and SQLite |
| Requoting.UnclosedIsCut | src/translate/rewrite.rs:407-416 | an identifier left open comes out closed and without its last character |
| Requoting.LoneQuoteAborts | src/translate/rewrite.rs:410 | a lone quote aborts |
| Requoting.UndoubleEscape | src/translate/rewrite.rs:410-415 | un-doubling the emitted body gives back the body |
| Requoting.ImageNames | src/translate/rewrite.rs:390-417 | the images of any tokens name the same identifiers exactly when no body contains its own quote |
| Requoting.RequotingKeepsNames | src/translate/rewrite.rs:390-417 | every identifier denotes the same name exactly when no body contains its own quote |
| Requoting.RequotingAbsorbs | src/translate/rewrite.rs:390-417 | re-quoting via another target equals re-quoting directly exactly when no body contains that target's quote; idempotence is the case of equal targets |
| Dialects.MatchIsSameDialect | src/translate/mod.rs:154-160 | nothing is translated exactly when the client's own dialect is the backend's |
| Translation.LexJoin | src/translate/mod.rs:142-148 | a text keeps its own tokens in front of `; ` and another text exactly when it leaves no string, identifier or comment open and no `$` of it opens a dollar quote that the other text closes |
| Translation.JoinScansApart | src/translate/mod.rs:142-148 | for every list of texts, the join scans into the texts' own tokens exactly when each text is apart from those behind it |
| Translation.RequoteDistributes | src/translate/mod.rs:142-150 | under that condition re-quoting the join is joining the re-quoted texts |
| Translation.TranslateStatement | src/translate/mod.rs:116-123 | rewrite, visit, print, re-quote; a rejection passes through |
| Translation.Translate | src/translate/mod.rs:126-151 | for the two pairs of equal dialects the text itself; for each of the other four pairs the first rejection, or the re-quoted join of the printed statements |
| Translation.StagesInOrder | src/translate/mod.rs:116-151 | each statement is rewritten, then visited, then printed, and re-quoting comes last, over the join |
| Translation.CombineIsJoin | src/translate/mod.rs:116-151 | under that condition both entry points agree, errors and aborts included; statements with `$1` and the like are covered |
| Translation.LeftOverDollar | src/translate/mod.rs:142-150 | a statement ending in a `$` of its own makes them disagree |
| Placeholders.ScanIsScan | src/translate/mod.rs:181-222 | the pieces (strings, `$n`, `?`, characters) of a text fit together and lose nothing |
| Placeholders.ScanIsUnique | src/translate/mod.rs:181-222 | any list of pieces that fit is what scanning its text yields |
| Placeholders.SubstitutePlaceholders | src/translate/mod.rs:176-224 | the loop is simultaneous substitution over the pieces of the input, and fails with the first index out of range |
| Placeholders.SubstitutionIsPointwise | src/translate/mod.rs:198-218 | around any placeholder the output is text before, its own literal, text after; it succeeds exactly when every placeholder is in range; inserted text is never rescanned |
| Placeholders.NumberedRule | src/translate/mod.rs:198-214 | `$n` in front of any text becomes the n-th literal and then what the rest becomes; `$0` and an n beyond the last literal fail, an n beyond the machine word counts as 1 |
| Placeholders.PositionalRule | src/translate/mod.rs:215-218 | `?` becomes the literal at the count of placeholders before it, numbered ones included, or fails beyond the last |
| Placeholders.StringRule | src/translate/mod.rs:183-197 | a string is copied, with whatever looks like a placeholder in it |
| Placeholders.CharacterRule | src/translate/mod.rs:219-221 | any other character is copied, a `$` without digits too |
| Placeholders.TakeNumbered | src/translate/mod.rs:198-214 | `$n` takes literal n, one that overflows takes literal 1, `$` alone is kept, `$0` fails |
| Substitution.SubstitutionKeepsPieces | src/translate/mod.rs:176-241 | with quoted values the output has the input's pieces, each placeholder one string, exactly when no placeholder touches a string or a placeholder |
| Substitution.SubstitutedValuesAreReadBack | src/translate/mod.rs:238-241 | the strings of the output denote the input's strings and the supplied values, in place, whatever the values contain |
| Substitution.BytesAgree | src/server/pg.rs:216-237 | scanning UTF-8 bytes finds the same highest number as scanning characters |
| Substitution.MaxPositionalPlaceholder | src/server/pg.rs:216-237 | the loop returns the highest `$n` that fits the machine word |
| Substitution.HighestIsFound | src/server/pg.rs:216-237 | that number stands behind some `$` of the text, strings included, unless it is 0 |
| Substitution.HighestIsBound | src/server/pg.rs:216-237 | and no `$n` that fits the machine word is higher |
| Substitution.HighestBounds | src/server/pg.rs:196-198 | that number, found without skipping strings, bounds every index the string-skipping scanner asks for |
| Substitution.ProbeSubstitutes | src/server/pg.rs:196-198 | substituting that many NULLs succeeds exactly when there is no `$0` and every overflowing `$n` and `?` finds a literal |
| ValueTokens.PlacesShow | src/translate/mod.rs:181-222 | the same text filled at different places gives different texts, for all values |
| ValueTokens.ValuesBecomeTokens | src/translate/mod.rs:176-241 | for every text: the output has, to the re-quoting scanner, the input's tokens (comments, identifiers, dollar quotes) with each placeholder turned into one string holding its value, for all values, exactly when both scanners see the same placeholders, none touches a string or another one, and no `$tag$` is left open in front of one |
| ValueTokens.OpenDollarBreaks | src/translate/mod.rs:204-206 | wherever `$tag$` is left open in front of a placeholder, the value `$tag$` closes it |
| ValueTokens.IdentifierIsFilled | src/translate/mod.rs:215-218 | a `?` inside a quoted identifier is filled like a placeholder, for every identifier and value |
| ValueTokens.ApostropheInComment | src/translate/mod.rs:183-197 | behind an apostrophe in a comment a placeholder is left in, for every comment and all values |
| ExprRewriting.NodeIsNormal | src/translate/rewrite.rs:271-343 | a node whose children are in normal form is in normal form after the visit, the calls it inserts included |
| ExprRewriting.RewritingIsNormal | src/translate/rewrite.rs:271-343 | no ILIKE, `::`, string concatenation operator (for MySQL) or replaced function is left anywhere the visitor reaches, in inserted nodes neither |
| ExprRewriting.RewritingIsIdempotent | src/translate/rewrite.rs:271-343 | visiting twice changes nothing more |
| ExprRewriting.UnchangedIffNormal | src/translate/rewrite.rs:271-343 | a tree is left as it is exactly when it holds no such form |
| ExprRewriting.PostgresUnchanged | src/translate/rewrite.rs:271-343 | for PostgreSQL every tree is left as it is |
| ExprRewriting.StandIns | src/translate/rewrite.rs:312-338 | which functions SQLite gets replacements for and which, arguments dropped; every other call keeps its name, and on the other backends all do |
| ExprMeaning.MatchesLowered | src/translate/rewrite.rs:273-292 | matching without case equals matching the lowered texts, whether or not the target's LIKE folds case, when the escape characters correspond |
| ExprMeaning.BackslashOnSqlite | src/translate/rewrite.rs:273-292 | without an ESCAPE clause ILIKE and its SQLite form agree on all texts exactly when the pattern has no backslash |
| ExprMeaning.LetterEscape | src/translate/rewrite.rs:284-290 | with an ESCAPE clause ILIKE and its lowered form agree on all patterns and texts exactly when the escape character is no letter |
| ExprMeaning.FoldingLike | src/translate/rewrite.rs:271-343 | a LIKE that ignores case and one that does not match the same texts exactly when the pattern asks for no letter literally, or can match nothing |
| ExprMeaning.LikeAcrossDialects | src/translate/rewrite.rs:271-343 | a LIKE passed on as it is matches the same texts on the target exactly when client and target treat letter case alike or that condition holds and, on SQLite without an ESCAPE clause, the pattern has no backslash |
| ExprMeaning.RewritingKeepsMeaning | src/translate/rewrite.rs:271-311 | for PostgreSQL and MySQL clients, every expression tree whose LIKE, ILIKE and CONCAT values meet those conditions, and every row and target: the rewritten expression has the value the client's dialect gave it |
| ExprMeaning.ConcatAcrossDialects | src/translate/rewrite.rs:312-338 | a CONCAT passed on as it is means the same on MySQL as elsewhere exactly when no argument is NULL (or one is rejected) |
| InsertRewriting.InsertNode.RewriteInsert | src/translate/rewrite.rs:83-164 | the whole statement after the rewrite in place, also when it is refused half way |
| InsertRewriting.RewrittenSpeaksTarget | src/translate/rewrite.rs:83-164 | a statement is left alone exactly when each of its clauses is one the target has (a plain INSERT for all targets); any other takes such a form or is refused |
| InsertRewriting.OnlyClausesChange | src/translate/rewrite.rs:83-164 | rows and RETURNING are never touched; RETURNING and `INSERT OR` are refused for MySQL and nowhere else |
| InsertRewriting.AssignmentsSurvive | src/translate/rewrite.rs:112-155 | an update keeps its assignments on the way to MySQL, and its columns in order on the way from it |
| InsertRewriting.NothingIsSelfAssigned | src/translate/rewrite.rs:92-110 | DO NOTHING becomes an update that assigns each conflict column to itself, in order, or `id` when none are named |
| InsertRewriting.ValuesRefsAllRewritten | src/translate/rewrite.rs:169-218 | some `VALUES(c)` is left exactly when one stood under a form the rewrite does not descend into |
| InsertRewriting.RewriteValuesIdempotent | src/translate/rewrite.rs:169-218 | a second application changes nothing |
| UpsertMeaning.ValuesRefMeaning | src/translate/rewrite.rs:169-218 | `excluded.c` on SQLite has the value of `VALUES(c)` on MySQL in every expression both share |
| UpsertMeaning.UpsertAllAgrees | src/translate/rewrite.rs:135-155 | row by row, left-to-right and all-at-once updates leave the same table when no right side reads a column assigned before it |
| UpsertMeaning.UpsertKeepsMeaning | src/translate/rewrite.rs:135-155 | so the whole rewritten upsert leaves the same table, or is rejected alike, for every table and row list |
| UpsertMeaning.ReadingAnAssignedColumn | src/translate/rewrite.rs:135-155 | `b = v, c = b` comes out the same exactly when `b` already held `v` |
| UpsertMeaning.DoUpdateKeepsMeaning | src/translate/rewrite.rs:112-115 | DO UPDATE and its MySQL form, which has no WHERE clause, do the same after each row exactly when no update the clause holds back would change anything |
| UpsertMeaning.PlainInsertKeepsMeaning | src/translate/rewrite.rs:83-164 | an INSERT without conflict clause is passed on as it is, and ends on every backend in the same table, or refusal of a taken key, as in the client's dialect, for every row list; no row is skipped or overwritten |
| UpsertMeaning.IgnoreKeepsMeaning | src/translate/rewrite.rs:127-134 | INSERT IGNORE and its DO NOTHING form end in the same table on SQLite and PostgreSQL |
| UpsertMeaning.HeldIsUnchanged | src/translate/rewrite.rs:135-155 | an update changes nothing when each column already holds what it is assigned, and only then if no column is assigned twice |
| UpsertMeaning.IgnoreLosesUpdate | src/translate/rewrite.rs:127-155 | for every row list, IGNORE with ON DUPLICATE KEY UPDATE does the same after each row when no proposed key is taken or repeated, unless by a row that already holds the values assigned; and, for assignments that name no column twice, only then |
| UpsertMeaning.KeepingIsSkipping | src/translate/rewrite.rs:94-110 | assigning an existing column to itself is skipping, for every row list |
| UpsertMeaning.DoNothingKeepsMeaning | src/translate/rewrite.rs:92-124 | DO NOTHING (no target, conflict columns or a named constraint) and its MySQL form end in the same table exactly when the column assigned to itself exists |
| CreateTable.DetectAutoIncrement | src/translate/types.rs:66-105 | the width of an auto-increment column by its serial name, else by an AUTO_INCREMENT option and its type |
| CreateTable.DrainOptions | src/translate/types.rs:117-164 | the loop keeps the options a target has, in order; OptionsSurvive says which those are |
| CreateTable.OptionsSurvive | src/translate/types.rs:109-213 | a rewritten column has its name and its options in order, each as often as declared, but for those that ask for auto-increment and, except on MySQL, those only MySQL has; behind them stand at most a key (SQLite) and the target's own auto-increment word |
| CreateTable.PortableOptionsStay | src/translate/types.rs:154-164 | NOT NULL, DEFAULT, UNIQUE and the like stay where they are among the declared primary keys, for every column and target |
| CreateTable.AutoColumnIff | src/translate/types.rs:66-105 | a column counts as auto-increment, for every target, exactly when its type is a serial or an option names AUTO_INCREMENT or AUTOINCREMENT |
| CreateTable.AutoTypes | src/translate/types.rs:166-213 | the type written for each declared type of an auto-increment column |
| CreateTable.RewriteColumnOptions | src/translate/types.rs:109-213 | a column's type and options for the target |
| CreateTable.CreateTableNode.RewriteCreateTable | src/translate/types.rs:22-63 | the whole table after the rewrite in place |
| CreateTable.TableKeeps | src/translate/types.rs:22-63 | table options survive for MySQL alone, OR REPLACE for PostgreSQL alone, and every constraint unless SQLite has an auto-increment column |
| CreateTable.SqliteConstraints | src/translate/types.rs:48-60 | then exactly the primary keys that mention the last such column go, up to case, and all other constraints stay, in order |
| CreateTable.ColumnsAreSeparate | src/translate/types.rs:34-41 | each column is rewritten by itself, in its place |
| CreateTable.TableRewrittenTwice | src/translate/types.rs:22-63 | for SQLite and PostgreSQL a second rewrite changes no type, option, option order or constraint |
| CreateTable.MysqlColumnsTwice | src/translate/types.rs:34-46 | for MySQL a second rewrite changes nothing exactly when every auto-increment column has the middle width |
| CreateTable.MappingKeepsKind | src/translate/types.rs:233-336 | a mapped type holds values of the kind it held (dates, times, bytes, exact numbers and so on), or their text where the target has no such type |
| CreateTable.TypesLeftAlone | src/translate/types.rs:233-336 | the types left as they are: exactly those the client named, unknown ones, and those the target has under the same name |
| CreateTable.MappedTypesExist | src/translate/types.rs:233-336 | every mapped type is one the target has |
| CreateTable.FloatsKeepPrecision | src/translate/types.rs:233-336 | a floating column keeps its precision exactly unless it is a PostgreSQL client's FLOAT on MySQL or a MySQL client's REAL on PostgreSQL |
| CreateTable.NarrowestIsWritten | src/translate/types.rs:275-316 | the name written for a whole number is the narrowest that has its bits |
| CreateTable.WholeNumbersFit | src/translate/types.rs:233-336 | every value of a whole-number column fits the mapped column exactly when it is signed, or for SQLite narrower than 64 bits |
| CreateTable.IdsFitTarget | src/translate/types.rs:34-46 | every id of an auto-increment column, serial or whole-number, fits the column written for the target exactly when: SQLite, not unsigned 64 bits; MySQL, signed or below 32 bits; PostgreSQL, a serial or within 32 signed bits |
| CreateTable.SqliteColumn | src/translate/types.rs:166-195 | an auto-increment column becomes INTEGER with a PRIMARY KEY before a single, last AUTOINCREMENT |
| CreateTable.SqliteTableHasOneKey | src/translate/types.rs:34-60 | with one auto-increment column and at most one key, the SQLite table has exactly one primary key exactly when that key covers the column |
| CreateTable.QuotedKeyStays | src/translate/types.rs:48-60 | a table-level key on the quoted name stays, and makes two |
| ParamHints.Hints.WalkExpr | src/server/pgparams.rs:217-271 | pushes the hints of every visited node, in order, and keeps `max_index` the highest |
| ParamHints.Hints.WalkStatement | src/server/pgparams.rs:105-214 | pushes a statement's hints and adds its tables |
| ParamHints.Hints.ParseHints | src/server/pgparams.rs:94-149 | pushes the hints and adds the tables of a list of statements |
| ExprPrinting.PrintedIsRead | src/server/pgparams.rs:294-300 | which column the test on the printed text takes each form of expression for, by recursion on the tree: an unclosed form is read as the qualified name it ends in |
| ExprPrinting.ReadsTrueColumn | src/server/pgparams.rs:294-300 | with plain names, that is the column the expression is exactly when it is not a quoted name behind a qualifier (missed) and neither a number, NULL, TRUE, FALSE, bare function nor a longer form ending in a qualified name (taken for columns) |
| ParamHints.HintsAreExact | src/server/pgparams.rs:217-300 | over every tree, hints recorded and comparisons hidden below a cast, IN list, BETWEEN or named argument add up to all comparisons of that `$n` with an expression read as that column, and no other hint is recorded |
| ParamHints.StatementHintsAreExact | src/server/pgparams.rs:94-300 | over whole texts each hint is recorded once per comparison that is not hidden, assignment or INSERT position, and no other is |
| ParamHints.TablesAreNamed | src/server/pgparams.rs:94-214 | the tables collected are exactly those the statements name, of a DELETE the first |
| ParamHints.NumberOfPlaceholder | src/server/pgparams.rs:302-309 | `$n` is read as n when that fits the machine word |
| ParamHints.HighestIsNoted | src/server/pgparams.rs:284-285 | `max_index` bounds every recorded index and is one of them |
| ParamHints.InferParamTypes | src/server/pgparams.rs:30-75 | one type per index up to `max_index`, the last resolved hint's or TEXT; underflows exactly on a resolved `$0` |
| ParamHints.LastHintWins | src/server/pgparams.rs:45-70 | of several resolved hints for `$n` the last one decides, OID 25 and none at all are TEXT |
| ParamHints.ResolvedBy | src/server/pgparams.rs:45-70 | a column without a table has the type the first table to declare it gives it, one with a table that table's |
| SessionRuns.Session.InterceptStatement | src/server/intercept.rs:24-73 | passes on without touching the session, or answers as the step function does, whose answers OutcomesAreTold and WhatIsPassedOn pin down |
| SessionRuns.WhatIsPassedOn | src/server/intercept.rs:34-72 | which statements each backend is sent, and which it is spared |
| SessionRuns.LastIdQueryIff | src/server/intercept.rs:91-126 | what counts as a bare `SELECT LAST_INSERT_ID()`, and the name of its column |
| SessionRuns.Session.RunScript | src/server/common.rs:103-178 | the loop is the fold of the step function, stopping at the first failure |
| SessionRuns.SessionAnswersLatestId | src/server/common.rs:48-56 | over every sequence of scripts of a new session and whatever the backend replies, the id remembered and each one `LAST_INSERT_ID()` is answered with is the last positive id the log shows for an executed INSERT (in its reply, or on PostgreSQL in the reply to `lastval()` right behind it), 0 if none |
| SessionRuns.InterceptedLeavesIdAlone | src/server/intercept.rs:29-73 | an intercepted statement neither changes the id nor is forwarded |
| SessionRuns.ScriptForwards | src/server/common.rs:117-176 | what reaches the backend is the translations of the statements reached and passed on, in order; a successful script gives one outcome each |
| SessionRuns.OutcomesAreTold | src/server/common.rs:117-176 | over every run of scripts: the outcome of `SELECT LAST_INSERT_ID()` is one row of one integer, the last positive id in the log before it, under the name or alias asked for; each outcome of a forwarded statement holds the rows, or the count and id, of the reply to its own text, the client's own or the translation; each of a catalog query its rows |
| SessionRuns.FailureStopsAtPrefix | src/server/common.rs:117-176 | a failing script has run exactly a successful prefix and one failing statement |
| SessionRuns.FailureTells | src/server/common.rs:117-176 | a statement fails with the error of its translation, before anything is sent, or with that of the one reply it got, and leaves the id alone |
| Bytea.EscapeBytea | src/backend/rows.rs:137-153 | the loop concatenates the bytes' escapes |
| Bytea.EscapeByteDecodes | src/backend/rows.rs:137-153 | escapes are prefix-free: any byte's escape is taken back whatever follows it |
| Bytea.EscapeDecodes | src/backend/rows.rs:137-153 | decoding the text gives the bytes back |
| Bytea.EscapeIsInjective | src/backend/rows.rs:137-153 | different byte strings have different texts |
| Bytea.EscapeIsPrintable | src/backend/rows.rs:137-153 | every character of the text is printable ASCII |
| SqliteTables.FirstTableToken | src/backend/mod.rs:365-409 | the loops read the name the specification reads |
| SqliteTables.PlainNameIsRead | src/backend/mod.rs:365-409 | a plain name, with or without a path in front and whatever ends it, is read back |
| SqliteTables.QuotedNameIsRead | src/backend/mod.rs:365-409 | a quoted name is read back exactly when it is not empty, has no dot and does not begin or end with a quote |
| SqliteTables.QuotedPathIsRead | src/backend/mod.rs:379-398 | of a quoted schema and name the name is read |
| SqliteTables.SqliteTablesInQuery | src/backend/mod.rs:344-361 | the loops collect the tables behind each hit of each needle |
| SqliteTables.EveryOccurrenceIsFound | src/backend/mod.rs:348-359 | a search that skips each hit finds every occurrence of a needle that cannot overlap itself |
| SqliteTables.TablesAreExact | src/backend/mod.rs:344-361 | for every text, the tables found are exactly those named behind some FROM or JOIN: the four longer needles add none |
| SqliteTables.TablesInOrder | src/backend/mod.rs:344-361 | the list starts with the tables behind each FROM in order, then those behind each JOIN |
| SqliteTables.JoinsAgain | src/backend/mod.rs:347-360 | ... and then, a second time, those behind the four kinds of join |
| SqliteTables.NameBehindFrom | src/backend/mod.rs:344-361 | the name behind any FROM is reported, in any case and whatever stands in front, a longer word included |
| SqliteQueries.PhraseLists | src/backend/mod.rs:348-359 | walking any phrase of names, separators and keywords, the search for FROM or JOIN lists the names behind that keyword, and more exactly when an identifier hides the needle |
| SqliteQueries.QueryTablesAreListed | src/backend/mod.rs:344-361 | for every printed SELECT with joins, the lists behind FROM and behind JOIN are its table and its joined tables, in order, exactly when no identifier has FROM or JOIN in it with more of the word or a space behind |
| SqliteQueries.QueryTablesAreIts | src/backend/mod.rs:344-361 | then all tables listed, by all six needles, are the query's own |
| SqliteColumns.CutItem | src/backend/mod.rs:422-426 | how much of a printed item the cut at ` FROM ` leaves |
| SqliteColumns.ColumnIsRead | src/backend/mod.rs:429-446 | a plain or qualified column is read as its name |
| SqliteColumns.AliasIsRead | src/backend/mod.rs:432-434 | an aliased column is read as its alias, a name AS included |
| SqliteColumns.AliasInAnyCase | src/backend/mod.rs:432-434 | also when AS is not in upper case |
| SqliteColumns.CallIsRead | src/backend/mod.rs:435-446 | a call without an alias has no name exactly when its argument has no path; otherwise it is read as what follows the last dot, parenthesis included |
| SqliteColumns.StarIsSkipped | src/backend/mod.rs:440-446 | `*` and `t.*` have no name |
| SqliteColumns.OnlySelects | src/backend/mod.rs:416-420 | a text that does not start with SELECT has no columns |
| SqliteColumns.SelectInAnyCase | src/backend/mod.rs:416-420 | SELECT in any case gives the same columns |
| SqliteColumns.ColumnWithoutFrom | src/backend/mod.rs:423-426 | without a FROM the list reaches to the end |
| SqliteColumns.NamesAreReadBack | src/backend/mod.rs:415-448 | for every list of plain, qualified and aliased columns the printed SELECT is read back in order exactly when no loose identifier FROM stands in it |

## Left out

- SubstitutePlaceholders: `$0` is a failure of its own, the panic of a checked build; an unchecked build wraps around and fails with a different index.
- FixQuoting: an out-of-range slice is None rather than a panic, and the scan of one string, comment or identifier is a method of its own.
- RequoteDistributes: texts that are not apart may still re-quote alike by luck, when nothing in the part swallowed would change; JoinScansApart is exact for the tokens.
- LeftOverDollar: a family of examples for JoinScansApart, with the outputs spelled out.
- RewritingKeepsMeaning: leaves out LIKE ANY and ILIKE ANY (PostgreSQL only), a MySQL client's `||`, and the nondeterministic `now`, `uuid` and `rand`; for ILIKE with a letter as escape character the condition per pattern is sufficient (LetterEscape is exact over all patterns).
- MatchesLowered: case folding is ASCII only, as SQLite's LOWER is, and a pattern that ends in its escape character matches nothing.
- UpsertKeepsMeaning: a unique key of one column, rows with all columns filled in, and expressions with the same meaning on MySQL and SQLite: no CONCAT (NULLs) or `||` (a logical OR on MySQL, and not rewritten), and LIKE with an ESCAPE clause or a pattern without backslash.
- IgnoreLosesUpdate: agreement is after each row, as a later row can undo an update by luck; that it needs the condition is stated for lists that assign no column twice.
- RewriteInsert: `INSERT OR` clauses are carried along, but given no meaning.
- ReadingAnAssignedColumn: two assignments, which shows that UpsertKeepsMeaning needs its condition; a list of assignments may still come out the same by coincidence.
- DoNothingKeepsMeaning: for conflict targets PostgreSQL accepts, that is, those that name the key of one column; a composite target becomes one self-assignment per column.
- DoUpdateKeepsMeaning: right sides with one meaning on both backends, so none with `excluded`, which the rewrite leaves as it is and MySQL does not know; both treat letter case in LIKE alike.
- IgnoreKeepsMeaning: a NULL key is rejected in every dialect here; MySQL's IGNORE turns that error into a warning.
- IdentifierIsFilled: one shape of text for each of this and ApostropheInComment, with the outputs spelled out; ValuesBecomeTokens is exact.
- RewriteCreateTable: type names, keywords and function names are compared up to ASCII case in the source and are enumerations here; the columns of a key are the texts they print as.
- IdsFitTarget: columns of a serial or whole-number type; display widths and lengths are not modelled.
- FloatsKeepPrecision: types written without a precision; one that is given, as in FLOAT(53), is dropped by the mapping.
- PrintedIsRead: names and types are kept as they print; expression forms outside the model are opaque texts, read as such.
- ParseHints: parsing and the normalising of table names are not modelled; table names come bare and in lower case.
- InferParamTypes: the catalog is a map from table and column to type, and unknown type numbers are kept as they are.
- RunScript: the backend is the list of replies it will give; taking the connection, column metadata, command tags and the reshaping of catalog answers are not modelled.
- QueryTablesAreListed: plain names, tables and join conditions of two columns; other clauses and quoted tables are not printed.
- NamesAreReadBack: plain names; quoted columns and aliases, whose quotes the scan trims and whose commas, dots and spaces it cuts at, are not printed.
- Expression forms the rewrites never name (CASE, subqueries, arrays and so on) are opaque leaves of the model, although the visitor does descend into them.
- Lists the source keeps in growable arrays are inductive lists here, reassigned as a whole.
- The two character classes of Unicode are unspecified extensions of the ASCII ones.
- `normalize_limit`, UPDATE and DELETE rewriting and the MySQL-only clauses they drop: single-branch facts.
- Parsing and printing of SQL, sockets, authentication, configuration, pools and row encoding.
- Catalog query texts, float formatting and the type lookup tables.
