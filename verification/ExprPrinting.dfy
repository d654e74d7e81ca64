/**
 How expressions print, and which of them the test for a plain column, made on the printed text,
 takes for which column. Names, types and operators are kept as they print, quotes included.
 */
module ExprPrinting {
  import opened Wrappers
  import opened Text
  import opened SqlAst

  // ------------------------------------------------------------------ printing

  function OperatorText(op: BinaryOperator): string {
    match op
    case StringConcat => "||"
    case Eq => "="
    case NotEq => "<>"
    case Lt => "<"
    case LtEq => "<="
    case Gt => ">"
    case GtEq => ">="
    case OtherOp(text) => text
  }

  function FunctionText(fn: FunctionName): string {
    match fn
    case LOWER => "LOWER"
    case CONCAT => "CONCAT"
    case VALUES => "VALUES"
    case HEX => "HEX"
    case RANDOMBLOB => "RANDOMBLOB"
    case NOW => "NOW"
    case CURRENT_TIMESTAMP => "CURRENT_TIMESTAMP"
    case UUID_GENERATE_V4 => "UUID_GENERATE_V4"
    case GEN_RANDOM_UUID => "GEN_RANDOM_UUID"
    case RAND => "RAND"
    case LAST_INSERT_ID => "LAST_INSERT_ID"
    case OtherFunction(name) => name
  }

  function LiteralText(v: Val): string {
    match v
    case Null => "NULL"
    case Num(n) => if n < 0 then "-" + Decimal(-n) else Decimal(n)
    case Str(s) => "'" + (Escape(s, '\'') + "'")
    case Bool(b) => if b then "true" else "false"
    case Unsupported => "()"
  }

  function Not(negated: bool): string { if negated then "NOT " else "" }

  function EscapeText(escape: Option<char>): string {
    if escape.Some? then " ESCAPE '" + ([escape.value] + "'") else ""
  }

  function LikeText(first: string, negated: bool, word: string, anyOf: bool, last: string,
                    escape: Option<char>): string {
    ((first + (" " + (Not(negated) + (word + (if anyOf then "ANY " else ""))))) + last) + EscapeText(escape)
  }

  function Show(e: Expr): string {
    match e
    case Identifier(name) => name
    case Compound(qualifier, name) => (qualifier + ".") + name
    case Literal(v) => LiteralText(v)
    case Placeholder(text) => text
    case Function(fn, NoParens) => FunctionText(fn)
    case Function(fn, ArgList(list)) => (FunctionText(fn) + ("(" + ShowArgs(list))) + ")"
    case Function(fn, Subquery(text)) => (FunctionText(fn) + ("(" + text)) + ")"
    case Binary(l, op, r) => (Show(l) + (" " + (OperatorText(op) + " "))) + Show(r)
    case Unary(op, e1) => op + Show(e1)
    case Nested(e1) => ("(" + Show(e1)) + ")"
    case Cast(CastFunction, e1, dataType) => ("CAST(" + (Show(e1) + (" AS " + dataType))) + ")"
    case Cast(DoubleColon, e1, dataType) => (Show(e1) + "::") + dataType
    case Like(negated, anyOf, e1, pattern, escape) =>
      LikeText(Show(e1), negated, "LIKE ", anyOf, Show(pattern), escape)
    case ILike(negated, anyOf, e1, pattern, escape) =>
      LikeText(Show(e1), negated, "ILIKE ", anyOf, Show(pattern), escape)
    case InList(e1, list, negated) => (Show(e1) + (" " + (Not(negated) + ("IN (" + ShowAll(list))))) + ")"
    case Between(e1, low, high, negated) =>
      (Show(e1) + (" " + (Not(negated) + ("BETWEEN " + (Show(low) + " AND "))))) + Show(high)
    case Opaque(text) => text
  }

  function ShowArg(arg: Arg): string {
    match arg
    case Unnamed(e) => Show(e)
    case Named(name, e) => name + (" => " + Show(e))
    case Star => "*"
  }

  function ShowArgs(args: List<Arg>): string {
    match args
    case Nil => ""
    case Cons(arg, rest) => ShowArg(arg) + ((if rest.Nil? then "" else ", ") + ShowArgs(rest))
  }

  function ShowAll(es: List<Expr>): string {
    match es
    case Nil => ""
    case Cons(e, rest) => Show(e) + ((if rest.Nil? then "" else ", ") + ShowAll(rest))
  }

  // ------------------------------------------------------------------ the test on text

  const MARKS: set<char> := {'"', '`', ' '}

  function Word(s: string): Option<string> {
    if s != [] && AllWord(s) then Some(Lower(s)) else None
  }

  /** `users.name` and `"name"` are the column `name`; other texts are no column. */
  function PlainIdentifier(text: string): Option<string> {
    Word(LastComponent(Trim(text, MARKS)))
  }

  /** What is read of a text behind a dot, where nothing is trimmed in front of it. */
  function Qualified(text: string): Option<string> {
    Word(LastComponent(TrimEnd(text, MARKS)))
  }

  /** What is read of a text that stands at the end of a longer one. */
  function TrailingText(text: string): Option<string> {
    if '.' in text then Qualified(text) else None
  }

  /** A character that is neither part of a name nor a dot. */
  predicate Breaks(c: char) { c != '.' && !IsWord(c) }

  predicate HasCore(text: string) { TrimEnd(text, MARKS) != [] }

  lemma {:induction false} TrimEndBehind(a: string, t: string)
    requires HasCore(t)
    ensures TrimEnd(a + t, MARKS) == a + TrimEnd(t, MARKS)
  {
    if t[|t| - 1] in MARKS {
      var t' := t[..|t| - 1];
      assert (a + t)[..|a + t| - 1] == a + t';
      TrimEndBehind(a, t');
    }
  }

  lemma {:induction false} DotsStay(t: string)
    ensures '.' in TrimEnd(t, MARKS) <==> '.' in t
  {
    if t != [] && t[|t| - 1] in MARKS {
      DotsStay(t[..|t| - 1]);
      assert t == t[..|t| - 1] + [t[|t| - 1]];
    }
  }

  lemma {:induction false} LastBehindDot(a: string, x: string)
    requires '.' in x
    ensures LastComponent(a + x) == LastComponent(x)
  {
    if a == [] {
      assert a + x == x;
    } else {
      LastBehindDot(a[1..], x);
      assert (a + x)[1..] == a[1..] + x;
    }
  }

  /** A breaking character stays part of the last component, in front of a text without dots. */
  lemma {:induction false} LastKeepsBreak(a: string, x: string)
    requires a != [] && Breaks(a[|a| - 1]) && '.' !in x
    ensures a[|a| - 1] in LastComponent(a + x)
  {
    var c := a[|a| - 1];
    assert (a + x)[|a| - 1] == c;
    if '.' in (a + x)[1..] {
      assert (a + x)[1..] == a[1..] + x;
      LastKeepsBreak(a[1..], x);
    } else if (a + x)[0] == '.' {
      assert (a + x)[1..][|a| - 2] == c;
    }
  }

  lemma {:induction false} WordHasNoBreak(s: string, c: char)
    requires AllWord(s) && !IsWord(c)
    ensures c !in s
  {
    if s != [] {
      WordHasNoBreak(s[1..], c);
      assert s == [s[0]] + s[1..];
    }
  }

  lemma {:induction false} NoWordWithBreak(s: string, c: char)
    requires c in s && !IsWord(c)
    ensures Word(s) == None
  {
    if AllWord(s) {
      WordHasNoBreak(s, c);
    }
  }

  /** Trimming in front takes a prefix of marks. */
  lemma {:induction false} TrimStartSplits(s: string) returns (marks: string)
    ensures s == marks + TrimStart(s, MARKS) && forall i :: 0 <= i < |marks| ==> marks[i] in MARKS
  {
    if s != [] && s[0] in MARKS {
      var more := TrimStartSplits(s[1..]);
      marks := [s[0]] + more;
      assert s == [s[0]] + s[1..];
    } else {
      marks := [];
    }
  }

  lemma {:induction false} LastOfTrimmed(x: string)
    requires '.' in x
    ensures LastComponent(TrimStart(x, MARKS)) == LastComponent(x)
  {
    var marks := TrimStartSplits(x);
    assert '.' in TrimStart(x, MARKS);
    LastBehindDot(marks, TrimStart(x, MARKS));
  }

  /** Text with a dot is read the same wherever it starts. */
  lemma {:induction false} DottedRead(t: string)
    requires '.' in t
    ensures PlainIdentifier(t) == Qualified(t)
  {
    DotsStay(t);
    LastOfTrimmed(TrimEnd(t, MARKS));
  }

  predicate HasNonMark(a: string) { exists i :: 0 <= i < |a| && a[i] !in MARKS }

  /** `a` ends in a breaking character, and is not only marks. */
  predicate EndsApart(a: string) { a != [] && Breaks(a[|a| - 1]) && HasNonMark(a) }

  lemma {:induction false} TrimStartKeeps(a: string, x: string)
    requires HasNonMark(a)
    ensures exists b: string :: b != [] && b[|b| - 1] == a[|a| - 1] && TrimStart(a + x, MARKS) == b + x
  {
    if a[0] in MARKS {
      assert (a + x)[1..] == a[1..] + x;
      var i :| 0 <= i < |a| && a[i] !in MARKS;
      assert a[1..][i - 1] !in MARKS;
      TrimStartKeeps(a[1..], x);
    }
  }

  /** Only a dotted text is read as a column behind a text that ends apart from it. */
  lemma {:induction false} ReadBehind(a: string, t: string)
    requires EndsApart(a) && HasCore(t)
    ensures PlainIdentifier(a + t) == TrailingText(t)
    ensures TrailingText(a + t) == TrailingText(t)
    ensures HasCore(a + t)
  {
    var x := TrimEnd(t, MARKS);
    TrimEndBehind(a, t);
    DotsStay(t);
    if '.' in t {
      LastBehindDot(a, x);
      DottedRead(a + t);
    } else {
      var c := a[|a| - 1];
      LastKeepsBreak(a, x);
      NoWordWithBreak(LastComponent(a + x), c);
      TrimStartKeeps(a, x);
      var b: string :| b != [] && b[|b| - 1] == c && TrimStart(a + x, MARKS) == b + x;
      LastKeepsBreak(b, x);
      NoWordWithBreak(LastComponent(b + x), c);
    }
  }

  /** A text that ends in a breaking character which is no mark is no column. */
  lemma {:induction false} ReadClosed(a: string, c: char)
    requires Breaks(c) && c !in MARKS
    ensures PlainIdentifier(a + [c]) == None && TrailingText(a + [c]) == None && HasCore(a + [c])
  {
    var t := a + [c];
    assert t[|t| - 1] == c && TrimEnd(t, MARKS) == t;
    assert t + [] == t;
    LastKeepsBreak(t, []);
    NoWordWithBreak(LastComponent(t), c);
    TrimStartKeeps(t, []);
    var b: string :| b != [] && b[|b| - 1] == c && TrimStart(t + [], MARKS) == b + [];
    assert b + [] == b;
    LastKeepsBreak(b, []);
    NoWordWithBreak(LastComponent(b), c);
  }

  /** A name behind a dot is read without what is in front. */
  lemma {:induction false} ReadQualified(qualifier: string, name: string)
    requires HasCore(name)
    ensures PlainIdentifier((qualifier + ".") + name) == Qualified(name)
    ensures TrailingText((qualifier + ".") + name) == Qualified(name)
    ensures HasCore((qualifier + ".") + name)
  {
    var a, x := qualifier + ".", TrimEnd(name, MARKS);
    TrimEndBehind(a, name);
    assert a[|a| - 1] == '.' && '.' in a && '.' in a + name;
    DottedRead(a + name);
    BehindDot(qualifier, x);
  }

  lemma {:induction false} BehindDot(q: string, x: string)
    ensures LastComponent((q + ".") + x) == LastComponent(x)
  {
    var s := "." + x;
    Assoc(q, ".", x);
    assert s[1..] == x;
    LastBehindDot(q, s);
  }

  // ------------------------------------------------------------------ names

  /** An unquoted name is read as itself, with or without a qualifier. */
  lemma {:induction false} NameIsRead(name: string)
    requires AllWord(name) && name != []
    ensures PlainIdentifier(name) == Some(Lower(name)) && Qualified(name) == Some(Lower(name)) && HasCore(name)
  {
    WordHasNoBreak(name, '"');
    WordHasNoBreak(name, '`');
    WordHasNoBreak(name, ' ');
    WordHasNoBreak(name, '.');
    assert name[0] in name && name[|name| - 1] in name;
    assert TrimEnd(name, MARKS) == name && TrimStart(name, MARKS) == name;
  }

  /** A quoted name is read as itself too, but not behind a qualifier. */
  lemma {:induction false} QuotedNameIsRead(q: char, name: string)
    requires IsQuote(q) && AllWord(name) && name != []
    ensures PlainIdentifier([q] + (name + [q])) == Some(Lower(name)) && Qualified([q] + (name + [q])) == None
  {
    NameIsRead(name);
    var open := [q] + name;
    Assoc([q], name, [q]);
    assert (open + [q])[..|open + [q]| - 1] == open;
    assert open[|open| - 1] == name[|name| - 1];
    WordHasNoBreak(name, '"');
    WordHasNoBreak(name, '`');
    WordHasNoBreak(name, ' ');
    WordHasNoBreak(name, '.');
    assert name[0] in name && name[|name| - 1] in name;
    assert TrimEnd(open + [q], MARKS) == open;
    assert open[1..] == name;
    assert TrimStart(open, MARKS) == name;
    assert q in open;
    NoWordWithBreak(open, q);
  }

  // ------------------------------------------------------------------ what expressions are read as

  /** Names, types and operators are not empty, and operators are set apart from names. */
  predicate Printable(e: Expr) {
    match e
    case Identifier(name) => HasCore(name)
    case Compound(_, name) => HasCore(name)
    case Literal(v) => v != Unsupported
    case Placeholder(text) => HasCore(text)
    case Function(fn, NoParens) => HasCore(FunctionText(fn))
    case Function(_, ArgList(list)) => PrintableArgs(list)
    case Function(_, Subquery(_)) => true
    case Binary(l, op, r) => Printable(l) && HasNonMark(OperatorText(op)) && Printable(r)
    case Unary(op, e1) => EndsApart(op) && Printable(e1)
    case Nested(e1) => Printable(e1)
    case Cast(_, e1, dataType) => Printable(e1) && HasCore(dataType)
    case Like(_, _, e1, pattern, _) => Printable(e1) && Printable(pattern)
    case ILike(_, _, e1, pattern, _) => Printable(e1) && Printable(pattern)
    case InList(e1, list, _) => Printable(e1) && PrintableAll(list)
    case Between(e1, low, high, _) => Printable(e1) && Printable(low) && Printable(high)
    case Opaque(text) => HasCore(text)
  }

  predicate PrintableArgs(args: List<Arg>) {
    args.Nil? || ((!args.head.Star? ==> Printable(args.head.e)) && PrintableArgs(args.tail))
  }

  predicate PrintableAll(es: List<Expr>) {
    es.Nil? || (Printable(es.head) && PrintableAll(es.tail))
  }

  /** What an expression is read as where it ends a longer one. */
  function Trailing(e: Expr): Option<string> {
    match e
    case Identifier(name) => TrailingText(name)
    case Compound(_, name) => Qualified(name)
    case Placeholder(text) => TrailingText(text)
    case Function(fn, NoParens) => TrailingText(FunctionText(fn))
    case Binary(_, _, r) => Trailing(r)
    case Unary(_, e1) => Trailing(e1)
    case Cast(DoubleColon, _, dataType) => TrailingText(dataType)
    case Like(_, _, _, pattern, None) => Trailing(pattern)
    case ILike(_, _, _, pattern, None) => Trailing(pattern)
    case Between(_, _, high, _) => Trailing(high)
    case Opaque(text) => TrailingText(text)
    case _ => None
  }

  /** The column an expression is read as: for most forms, that of a qualified name at their end. */
  function ColumnRead(e: Expr): Option<string> {
    match e
    case Identifier(name) => PlainIdentifier(name)
    case Literal(Null) => Some("null")
    case Literal(Bool(b)) => Some(if b then "true" else "false")
    case Literal(Num(n)) => if n < 0 then None else Some(Decimal(n))
    case Placeholder(text) => PlainIdentifier(text)
    case Function(fn, NoParens) => PlainIdentifier(FunctionText(fn))
    case Opaque(text) => PlainIdentifier(text)
    case _ => Trailing(e)
  }

  lemma {:induction false} DigitsAreWords(n: nat)
    ensures AllWord(Decimal(n)) && Decimal(n) != [] && Lower(Decimal(n)) == Decimal(n)
  {
    if n < 10 {
      assert Decimal(n)[1..] == [];
    } else {
      DigitsAreWords(n / 10);
      AppendDigit(Decimal(n / 10), '0' + (n % 10) as char);
    }
  }

  lemma {:induction false} AppendDigit(s: string, d: char)
    requires AllWord(s) && Lower(s) == s && IsDigit(d)
    ensures AllWord(s + [d]) && Lower(s + [d]) == s + [d]
  {
    if s == [] {
      assert s + [d] == [d] && [d][1..] == [];
    } else {
      assert (s + [d])[1..] == s[1..] + [d];
      assert Lower(s)[1..] == Lower(s[1..]);
      AppendDigit(s[1..], d);
      assert [s[0]] + (s[1..] + [d]) == s + [d];
    }
  }

  /** `t` is read as `alone`, and as `last` at the end of a longer text. */
  ghost predicate Reads(t: string, alone: Option<string>, last: Option<string>) {
    PlainIdentifier(t) == alone && TrailingText(t) == last && HasCore(t)
  }

  lemma {:induction false} WordReads(name: string)
    requires AllWord(name) && name != []
    ensures Reads(name, Some(Lower(name)), None)
  {
    NameIsRead(name);
    WordHasNoBreak(name, '.');
  }

  lemma {:induction false} NullReads()
    ensures Reads("NULL", Some("null"), None)
  {
    var name := "NULL";
    assert name[1..] == "ULL" && name[1..][1..] == "LL" && name[1..][1..][1..] == "L";
    assert "L"[1..] == "" && AllWord("L") && AllWord("LL") && AllWord("ULL");
    assert Lower("L") == "l" && Lower("LL") == "ll" && Lower("ULL") == "ull" && Lower(name) == "null";
    WordReads(name);
  }

  lemma {:induction false} TrueReads()
    ensures Reads("true", Some("true"), None)
  {
    var name := "true";
    assert name[1..] == "rue" && name[1..][1..] == "ue" && name[1..][1..][1..] == "e";
    assert "e"[1..] == "" && AllWord("e") && AllWord("ue") && AllWord("rue");
    assert Lower("e") == "e" && Lower("ue") == "ue" && Lower("rue") == "rue" && Lower(name) == "true";
    WordReads(name);
  }

  lemma {:induction false} FalseReads()
    ensures Reads("false", Some("false"), None)
  {
    var name := "false";
    assert name[1..] == "alse" && name[1..][1..] == "lse";
    assert name[1..][1..][1..] == "se" && name[1..][1..][1..][1..] == "e";
    assert "e"[1..] == "" && AllWord("e") && AllWord("se") && AllWord("lse") && AllWord("alse");
    assert Lower("e") == "e" && Lower("se") == "se" && Lower("lse") == "lse";
    assert Lower("alse") == "alse" && Lower(name) == "false";
    WordReads(name);
  }

  lemma {:induction false} NumberReads(n: int)
    ensures Reads(LiteralText(Num(n)), if n < 0 then None else Some(Decimal(n)), None)
  {
    if n < 0 {
      DigitsAreWords(-n);
      WordReads(Decimal(-n));
      assert EndsApart("-") by { assert "-"[0] !in MARKS; }
      ReadBehind("-", Decimal(-n));
    } else {
      DigitsAreWords(n);
      WordReads(Decimal(n));
    }
  }

  lemma {:induction false} StringReads(s: string)
    ensures Reads(LiteralText(Str(s)), None, None)
  {
    var front := "'" + Escape(s, '\'');
    Assoc("'", Escape(s, '\''), "'");
    assert LiteralText(Str(s)) == front + ['\''];
    ReadClosed(front, '\'');
  }

  lemma {:induction false} LiteralReads(v: Val)
    requires v != Unsupported
    ensures Reads(LiteralText(v), ColumnRead(Literal(v)), None)
  {
    match v
    case Null => NullReads();
    case Bool(_) => TrueReads(); FalseReads();
    case Num(n) => NumberReads(n);
    case Str(s) => StringReads(s);
  }

  /** `first`, an operator and `last`. */
  lemma {:induction false} ReadOperands(first: string, op: string, last: string)
    requires op != [] && Breaks(op[|op| - 1]) && HasNonMark(op) && HasCore(last)
    ensures Reads((first + op) + last, TrailingText(last), TrailingText(last))
  {
    var a := first + op;
    var i :| 0 <= i < |op| && op[i] !in MARKS;
    assert a[|first| + i] !in MARKS;
    ReadBehind(a, last);
  }

  /** `core` between spaces. */
  lemma {:induction false} SpacedOperator(core: string)
    requires HasNonMark(core)
    ensures var op := " " + (core + " "); Breaks(op[|op| - 1]) && HasNonMark(op)
  {
    var op := " " + (core + " ");
    var i :| 0 <= i < |core| && core[i] !in MARKS;
    assert op[1 + i] !in MARKS;
  }

  lemma {:induction false} EscapeReads(text: string, escape: Option<char>, alone: Option<string>, last: Option<string>)
    requires Reads(text, alone, last)
    ensures if escape.None? then Reads(text + EscapeText(escape), alone, last)
            else Reads(text + EscapeText(escape), None, None)
  {
    if escape.None? {
      assert text + "" == text;
    } else {
      var a := text + (" ESCAPE '" + [escape.value]);
      assert text + EscapeText(escape) == a + ['\''];
      ReadClosed(a, '\'');
    }
  }

  lemma {:induction false} LikeReads(first: string, negated: bool, word: string, anyOf: bool, last: string,
                                     escape: Option<char>)
    requires word in {"LIKE ", "ILIKE "} && HasCore(last)
    ensures var read := if escape.None? then TrailingText(last) else None;
            Reads(LikeText(first, negated, word, anyOf, last, escape), read, read)
  {
    var op := " " + (Not(negated) + (word + (if anyOf then "ANY " else "")));
    assert op[|op| - 1] == ' ';
    assert word[0] !in MARKS && op[1 + |Not(negated)|] == word[0];
    ReadOperands(first, op, last);
    EscapeReads((first + op) + last, escape, TrailingText(last), TrailingText(last));
  }

  lemma {:induction false} BetweenReads(first: string, negated: bool, low: string, high: string)
    requires HasCore(high)
    ensures var text := (first + (" " + (Not(negated) + ("BETWEEN " + (low + " AND "))))) + high;
            Reads(text, TrailingText(high), TrailingText(high))
  {
    var op := " " + (Not(negated) + ("BETWEEN " + (low + " AND ")));
    assert op[|op| - 1] == ' ';
    assert "BETWEEN "[0] !in MARKS && op[1 + |Not(negated)|] == "BETWEEN "[0];
    ReadOperands(first, op, high);
  }

  lemma {:induction false} CastReads(first: string, dataType: string)
    requires HasCore(dataType)
    ensures Reads((first + "::") + dataType, TrailingText(dataType), TrailingText(dataType))
  {
    assert "::"[0] !in MARKS;
    ReadOperands(first, "::", dataType);
  }

  predicate IsClosed(e: Expr) {
    || e.Nested? || e.InList?
    || (e.Function? && !e.args.NoParens?)
    || (e.Cast? && e.kind == CastFunction)
  }

  /** Forms that end in a parenthesis. */
  lemma {:induction false} ClosedReads(e: Expr)
    requires IsClosed(e)
    ensures Reads(Show(e), None, None)
  {
    var front :=
      match e
      case Function(fn, ArgList(list)) => FunctionText(fn) + ("(" + ShowArgs(list))
      case Function(fn, Subquery(text)) => FunctionText(fn) + ("(" + text)
      case Nested(e1) => "(" + Show(e1)
      case Cast(_, e1, dataType) => "CAST(" + (Show(e1) + (" AS " + dataType))
      case InList(e1, list, negated) => Show(e1) + (" " + (Not(negated) + ("IN (" + ShowAll(list))))
      case _ => "";
    assert Show(e) == front + ")";
    ReadClosed(front, ')');
  }

  lemma {:induction false} BinaryReads(e: Expr)
    requires e.Binary? && HasNonMark(OperatorText(e.op)) && HasCore(Show(e.right))
    ensures Reads(Show(e), TrailingText(Show(e.right)), TrailingText(Show(e.right)))
  {
    SpacedOperator(OperatorText(e.op));
    ReadOperands(Show(e.left), " " + (OperatorText(e.op) + " "), Show(e.right));
  }

  /** What the test on the printed text takes an expression for. */
  lemma {:induction false} PrintedIsRead(e: Expr)
    requires Printable(e)
    ensures Reads(Show(e), ColumnRead(e), Trailing(e))
  {
    if IsClosed(e) {
      ClosedReads(e);
    } else {
      match e
      case Compound(qualifier, name) => ReadQualified(qualifier, name);
      case Literal(v) => LiteralReads(v);
      case Binary(_, _, r) => PrintedIsRead(r); BinaryReads(e);
      case Unary(op, e1) => PrintedIsRead(e1); ReadBehind(op, Show(e1));
      case Cast(_, e1, dataType) => CastReads(Show(e1), dataType);
      case Like(negated, anyOf, e1, pattern, escape) =>
        PrintedIsRead(pattern);
        LikeReads(Show(e1), negated, "LIKE ", anyOf, Show(pattern), escape);
      case ILike(negated, anyOf, e1, pattern, escape) =>
        PrintedIsRead(pattern);
        LikeReads(Show(e1), negated, "ILIKE ", anyOf, Show(pattern), escape);
      case Between(e1, low, high, negated) =>
        PrintedIsRead(high);
        BetweenReads(Show(e1), negated, Show(low), Show(high));
      case _ =>
    }
  }

  // ------------------------------------------------------------------ misreadings

  /** A name without its quotes. */
  function Bare(name: string): string {
    if |name| >= 2 && IsQuote(name[0]) && name[|name| - 1] == name[0] then name[1..|name| - 1] else name
  }

  /** The column an expression is, if it is one. */
  function TrueColumn(e: Expr): Option<string> {
    match e
    case Identifier(name) => Some(Lower(Bare(name)))
    case Compound(_, name) => Some(Lower(Bare(name)))
    case _ => None
  }

  /** A name of word characters, with or without quotes. */
  predicate PlainName(name: string) { AllWord(Bare(name)) && Bare(name) != [] }

  lemma BareQuoted(name: string)
    requires PlainName(name) && Bare(name) != name
    ensures name == [name[0]] + (Bare(name) + [name[0]])
  {
  }

  /**
   With plain names, an expression is read as the column it is exactly when it is neither a
   quoted name behind a qualifier (which is missed), nor a number, NULL, TRUE, FALSE or a
   function without parentheses, nor a longer form that ends in a qualified name (all of which are
   taken for columns).
   */
  lemma {:induction false} ReadsTrueColumn(e: Expr)
    requires Printable(e) && ((e.Identifier? || e.Compound?) ==> PlainName(e.name))
    ensures PlainIdentifier(Show(e)) == TrueColumn(e)
            <==> match e
                 case Identifier(_) => true
                 case Compound(_, name) => Bare(name) == name
                 case Literal(v) => v.Str? || (v.Num? && v.n < 0)
                 case Placeholder(text) => PlainIdentifier(text).None?
                 case Opaque(text) => PlainIdentifier(text).None?
                 case Function(fn, NoParens) => PlainIdentifier(FunctionText(fn)).None?
                 case _ => Trailing(e).None?
  {
    PrintedIsRead(e);
    if e.Identifier? || e.Compound? {
      NameIsRead(Bare(e.name));
      if Bare(e.name) != e.name {
        BareQuoted(e.name);
        QuotedNameIsRead(e.name[0], Bare(e.name));
      }
    }
  }
}
