/**
 Rewriting an expression written for PostgreSQL or MySQL preserves its value on the target, and
 where escape characters, letter case and NULLs make it fail.
 */
module ExprMeaning {
  import opened Wrappers
  import opened Dialects
  import opened SqlAst
  import opened Semantics
  import opened ExprRewriting

  // ------------------------------------------------------------------ LIKE on lowered text

  /**
   Wherever the pattern is read, the escape character of the source is, once lowered, that of the
   target.
   */
  predicate SameEscape(p: string, source: Option<char>, target: Option<char>) {
    if p == [] then true
    else if source == Some(p[0]) then
      target == Some(FoldChar(p[0])) && (|p| < 2 || SameEscape(p[2..], source, target))
    else target != Some(FoldChar(p[0])) && SameEscape(p[1..], source, target)
  }

  lemma FoldFacts(c: char)
    ensures FoldChar(FoldChar(c)) == FoldChar(c)
    ensures (FoldChar(c) == '%' <==> c == '%') && (FoldChar(c) == '_' <==> c == '_')
    ensures FoldChar(c) == '\\' <==> c == '\\'
  {
  }

  lemma {:induction false} LowerStep(s: string)
    requires s != []
    ensures Lower(s)[0] == FoldChar(s[0]) && Lower(s)[1..] == Lower(s[1..])
    ensures |s| >= 2 ==> Lower(s)[1] == FoldChar(s[1]) && Lower(s)[2..] == Lower(s[2..])
  {
    if |s| >= 2 {
      assert s[1..][1..] == s[2..];
      assert Lower(s)[2..] == Lower(s)[1..][1..];
    }
  }

  /** Matching without case is matching the lowered texts, whether or not that ignores case again. */
  lemma {:induction false} MatchesLowered(t: string, p: string, source: Option<char>, target: Option<char>,
                                          foldCase: bool)
    requires SameEscape(p, source, target)
    ensures Matches(t, p, source, true) == Matches(Lower(t), Lower(p), target, foldCase)
    decreases |p|, |t|
  {
    if p != [] {
      LowerStep(p);
      FoldFacts(p[0]);
      if t != [] {
        LowerStep(t);
        FoldFacts(t[0]);
      }
      if source == Some(p[0]) {
        if |p| >= 2 && t != [] {
          FoldFacts(p[1]);
          assert p[1..][1..] == p[2..];
          MatchesLowered(t[1..], p[2..], source, target, foldCase);
        }
      } else {
        if p[0] == '%' {
          MatchesLowered(t, p[1..], source, target, foldCase);
          if t != [] {
            MatchesLowered(t[1..], p, source, target, foldCase);
          }
        } else if t != [] {
          MatchesLowered(t[1..], p[1..], source, target, foldCase);
        }
      }
    }
  }

  // ------------------------------------------------------------------ what a pattern needs

  /** No escape character is the last character of the pattern. */
  predicate WellEscaped(p: string, escape: Option<char>) {
    if p == [] then true
    else if escape == Some(p[0]) then |p| >= 2 && WellEscaped(p[2..], escape)
    else WellEscaped(p[1..], escape)
  }

  predicate IsLetter(c: char) { 'a' <= c <= 'z' || 'A' <= c <= 'Z' }

  /** The same letter in the other case. */
  function Other(c: char): char {
    if 'a' <= c <= 'z' then (c as int - 32) as char else FoldChar(c)
  }

  /** The first letter that the pattern asks for literally. */
  function FirstLetter(p: string, escape: Option<char>): Option<char> {
    if p == [] then None
    else if escape == Some(p[0]) then
      if |p| < 2 then None
      else if IsLetter(p[1]) then Some(p[1])
      else FirstLetter(p[2..], escape)
    else if p[0] != '%' && p[0] != '_' && IsLetter(p[0]) then Some(p[0])
    else FirstLetter(p[1..], escape)
  }

  /** A text for the pattern: nothing for `%`, and the other case in place of `c`. */
  function Sample(p: string, escape: Option<char>, c: char): string {
    if p == [] then []
    else if escape == Some(p[0]) then
      if |p| < 2 then [] else [if p[1] == c then Other(c) else p[1]] + Sample(p[2..], escape, c)
    else if p[0] == '%' then Sample(p[1..], escape, c)
    else [if p[0] == c then Other(c) else p[0]] + Sample(p[1..], escape, c)
  }

  lemma OtherFacts(c: char)
    ensures IsLetter(c) <==> Other(c) != c
    ensures FoldChar(Other(c)) == FoldChar(c)
  {
  }

  lemma {:induction false} SampleMatches(p: string, escape: Option<char>, c: char, foldCase: bool)
    requires WellEscaped(p, escape) && (foldCase || !IsLetter(c))
    ensures Matches(Sample(p, escape, c), p, escape, foldCase)
  {
    if p != [] {
      OtherFacts(c);
      var escaped := escape == Some(p[0]);
      var rest := if escaped then p[2..] else p[1..];
      SampleMatches(rest, escape, c, foldCase);
      if escaped || p[0] != '%' {
        var x := if escaped then p[1] else p[0];
        var y := if x == c then Other(c) else x;
        assert ([y] + Sample(rest, escape, c))[1..] == Sample(rest, escape, c);
        assert SameChar(y, x, foldCase);
      }
    }
  }

  lemma {:induction false} SampleAvoids(p: string, escape: Option<char>, c: char)
    requires IsLetter(c)
    ensures c !in Sample(p, escape, c)
  {
    if p != [] {
      OtherFacts(c);
      if escape == Some(p[0]) {
        if |p| >= 2 {
          SampleAvoids(p[2..], escape, c);
        }
      } else {
        SampleAvoids(p[1..], escape, c);
      }
    }
  }

  /** A text that matches exactly holds the pattern's first literal letter. */
  lemma {:induction false} LetterNeeded(t: string, p: string, escape: Option<char>)
    requires Matches(t, p, escape, false) && FirstLetter(p, escape).Some?
    ensures FirstLetter(p, escape).value in t && IsLetter(FirstLetter(p, escape).value)
    decreases |p|, |t|
  {
    if escape == Some(p[0]) {
      if !IsLetter(p[1]) {
        LetterNeeded(t[1..], p[2..], escape);
      }
    } else if p[0] == '%' {
      if Matches(t, p[1..], escape, false) {
        LetterNeeded(t, p[1..], escape);
      } else {
        LetterNeeded(t[1..], p, escape);
      }
    } else if p[0] == '_' || !IsLetter(p[0]) {
      LetterNeeded(t[1..], p[1..], escape);
    }
  }

  lemma SameUnlessLetter(a: char, b: char)
    requires !IsLetter(b)
    ensures SameChar(a, b, true) <==> SameChar(a, b, false)
  {
  }

  lemma {:induction false} NoLetterNoCase(t: string, p: string, escape: Option<char>)
    requires FirstLetter(p, escape).None?
    ensures Matches(t, p, escape, true) == Matches(t, p, escape, false)
    decreases |p|, |t|
  {
    if p != [] {
      if escape == Some(p[0]) {
        if |p| >= 2 && t != [] {
          SameUnlessLetter(t[0], p[1]);
          NoLetterNoCase(t[1..], p[2..], escape);
        }
      } else if p[0] == '%' {
        NoLetterNoCase(t, p[1..], escape);
        if t != [] {
          NoLetterNoCase(t[1..], p, escape);
        }
      } else if t != [] {
        if p[0] != '_' {
          SameUnlessLetter(t[0], p[0]);
        }
        NoLetterNoCase(t[1..], p[1..], escape);
      }
    }
  }

  lemma {:induction false} IllEscapedNeverMatches(t: string, p: string, escape: Option<char>, foldCase: bool)
    requires !WellEscaped(p, escape)
    ensures !Matches(t, p, escape, foldCase)
    decreases |p|, |t|
  {
    if escape == Some(p[0]) {
      if |p| >= 2 && t != [] {
        IllEscapedNeverMatches(t[1..], p[2..], escape, foldCase);
      }
    } else {
      if p[0] == '%' {
        IllEscapedNeverMatches(t, p[1..], escape, foldCase);
        if t != [] {
          IllEscapedNeverMatches(t[1..], p, escape, foldCase);
        }
      } else if t != [] {
        IllEscapedNeverMatches(t[1..], p[1..], escape, foldCase);
      }
    }
  }

  /** Two readings of a pattern match the same texts. */
  ghost predicate SameTexts(p: string, a: Option<char>, foldA: bool, b: Option<char>, foldB: bool) {
    forall t :: Matches(t, p, a, foldA) == Matches(t, p, b, foldB)
  }

  /**
   A LIKE that ignores case and one that does not agree on every text exactly when the pattern
   asks for no letter literally, or can match nothing at all.
   */
  lemma {:induction false} FoldingLike(p: string, escape: Option<char>)
    ensures SameTexts(p, escape, false, escape, true) <==> !WellEscaped(p, escape) || FirstLetter(p, escape).None?
  {
    if !WellEscaped(p, escape) {
      forall t ensures Matches(t, p, escape, false) == Matches(t, p, escape, true) {
        IllEscapedNeverMatches(t, p, escape, false);
        IllEscapedNeverMatches(t, p, escape, true);
      }
    } else if FirstLetter(p, escape).None? {
      forall t ensures Matches(t, p, escape, false) == Matches(t, p, escape, true) {
        NoLetterNoCase(t, p, escape);
      }
    } else {
      FirstLetterIsLetter(p, escape);
      var c := FirstLetter(p, escape).value;
      var t := Sample(p, escape, c);
      SampleMatches(p, escape, c, true);
      SampleAvoids(p, escape, c);
      if Matches(t, p, escape, false) {
        LetterNeeded(t, p, escape);
      }
    }
  }

  lemma {:induction false} FirstLetterIsLetter(p: string, escape: Option<char>)
    ensures FirstLetter(p, escape).Some? ==> IsLetter(FirstLetter(p, escape).value)
  {
    if p != [] {
      if escape == Some(p[0]) {
        if |p| >= 2 {
          FirstLetterIsLetter(p[2..], escape);
        }
      } else {
        FirstLetterIsLetter(p[1..], escape);
      }
    }
  }

  // ------------------------------------------------------------------ the default escape

  function Backslashes(s: string): nat {
    if s == [] then 0 else (if s[0] == '\\' then 1 else 0) + Backslashes(s[1..])
  }

  lemma {:induction false} LowerKeepsBackslashes(s: string)
    ensures Backslashes(Lower(s)) == Backslashes(s)
    ensures '\\' in Lower(s) <==> '\\' in s
  {
    if s != [] {
      LowerStep(s);
      FoldFacts(s[0]);
      LowerKeepsBackslashes(s[1..]);
      assert s == [s[0]] + s[1..] && Lower(s) == [FoldChar(s[0])] + Lower(s[1..]);
    }
  }

  /** An escaping backslash is not part of the text. */
  lemma {:induction false} SampleBackslashes(p: string)
    requires WellEscaped(p, Some('\\'))
    ensures Backslashes(Sample(p, Some('\\'), '%')) <= Backslashes(p)
    ensures '\\' in p ==> Backslashes(Sample(p, Some('\\'), '%')) < Backslashes(p)
  {
    if p != [] {
      if p[0] == '\\' {
        SampleBackslashes(p[2..]);
        var u := Sample(p[2..], Some('\\'), '%');
        assert ([p[1]] + u)[1..] == u;
        assert p[1..][1..] == p[2..];
        assert Backslashes(p) == 1 + (if p[1] == '\\' then 1 else 0) + Backslashes(p[2..]);
      } else {
        SampleBackslashes(p[1..]);
        var u := Sample(p[1..], Some('\\'), '%');
        assert ([p[0]] + u)[1..] == u;
        assert '\\' in p ==> '\\' in p[1..];
      }
    }
  }

  /** Without an escape, every backslash of the pattern needs one of its own in the text. */
  lemma {:induction false} LiteralBackslashes(t: string, p: string, foldCase: bool)
    requires Matches(t, p, None, foldCase)
    ensures Backslashes(p) <= Backslashes(t)
    decreases |p|, |t|
  {
    if p != [] {
      FoldFacts(p[0]);
      if t != [] {
        FoldFacts(t[0]);
      }
      if p[0] == '%' && Matches(t, p[1..], None, foldCase) {
        LiteralBackslashes(t, p[1..], foldCase);
      } else if p[0] == '%' {
        LiteralBackslashes(t[1..], p, foldCase);
      } else {
        LiteralBackslashes(t[1..], p[1..], foldCase);
      }
    }
  }

  lemma {:induction false} NoBackslashSameEscape(p: string)
    requires '\\' !in p
    ensures SameEscape(p, Some('\\'), None)
  {
    if p != [] {
      assert p[0] in p && forall c :: c in p[1..] ==> c in p;
      NoBackslashSameEscape(p[1..]);
    }
  }

  /** A text on which the two readings of a pattern with a backslash differ. */
  lemma {:induction false} BackslashWitness(p: string, foldCase: bool) returns (t: string)
    requires '\\' in p
    ensures forall fold :: Matches(t, p, Some('\\'), fold) != Matches(t, p, None, foldCase)
  {
    if WellEscaped(p, Some('\\')) {
      t := Sample(p, Some('\\'), '%');
      SampleMatches(p, Some('\\'), '%', false);
      SampleMatches(p, Some('\\'), '%', true);
      SampleBackslashes(p);
      if Matches(t, p, None, foldCase) {
        LiteralBackslashes(t, p, foldCase);
      }
    } else {
      t := Sample(p, None, '%');
      NeverEscaped(p);
      SampleMatches(p, None, '%', foldCase);
      IllEscapedNeverMatches(t, p, Some('\\'), false);
      IllEscapedNeverMatches(t, p, Some('\\'), true);
    }
  }

  lemma {:induction false} NeverEscaped(p: string)
    ensures WellEscaped(p, None)
  {
    if p != [] {
      NeverEscaped(p[1..]);
    }
  }

  /** The condition under which a LIKE passed on as it is finds the same texts. */
  predicate LikePortable(p: string, escape: Option<char>, source: World, w: World) {
    var folds := source.likeFolds != w.likeFolds;
    if EscapeIn(escape, w.dialect) == EscapeIn(escape, source.dialect) then
      folds ==> !WellEscaped(p, EscapeIn(escape, w.dialect)) || FirstLetter(p, EscapeIn(escape, w.dialect)).None?
    else
      '\\' !in p && (folds ==> FirstLetter(p, None).None?)
  }

  /** Without a backslash, backslash may or may not escape. */
  lemma {:induction false} LikeWithoutEscape(p: string, foldA: bool, foldB: bool)
    requires '\\' !in p
    ensures SameTexts(p, Some('\\'), foldA, None, foldB) <==> (foldA != foldB ==> FirstLetter(p, None).None?)
  {
    NeverEscaped(p);
    FoldingLike(p, None);
    forall t ensures Matches(t, p, Some('\\'), foldA) == Matches(t, p, None, foldA) {
      NoBackslashNoEscape(t, p, foldA);
    }
    if foldA != foldB && FirstLetter(p, None).Some? {
      var t :| Matches(t, p, None, false) != Matches(t, p, None, true);
      assert Matches(t, p, Some('\\'), foldA) != Matches(t, p, None, foldB);
    }
  }

  /**
   A LIKE passed on as it is finds the same texts on the target exactly when: client and target
   agree on letter case, or the pattern asks for no letter literally (or matches nothing); and, on
   SQLite without an ESCAPE clause, the pattern has no backslash.
   */
  lemma {:induction false} LikeAcrossDialects(p: string, escape: Option<char>, source: World, w: World)
    requires source.dialect != Sqlite
    ensures SameTexts(p, EscapeIn(escape, source.dialect), source.likeFolds, EscapeIn(escape, w.dialect), w.likeFolds)
            <==> LikePortable(p, escape, source, w)
  {
    if EscapeIn(escape, w.dialect) == EscapeIn(escape, source.dialect) {
      FoldingLike(p, EscapeIn(escape, w.dialect));
    } else if '\\' !in p {
      LikeWithoutEscape(p, source.likeFolds, w.likeFolds);
    } else {
      var t := BackslashWitness(p, w.likeFolds);
      assert Matches(t, p, EscapeIn(escape, source.dialect), source.likeFolds)
          != Matches(t, p, EscapeIn(escape, w.dialect), w.likeFolds);
    }
  }

  lemma {:induction false} LowerSample(p: string)
    ensures Lower(Sample(p, None, '%')) == Sample(Lower(p), None, '%')
  {
    if p != [] {
      LowerSample(p[1..]);
      LowerStep(p);
      FoldFacts(p[0]);
      if p[0] != '%' {
        LowerStep(Sample(p, None, '%'));
        assert Sample(p, None, '%')[1..] == Sample(p[1..], None, '%');
      }
    }
  }

  /** The same, against the lowered text and pattern. */
  lemma {:induction false} LoweredWitness(p: string, foldCase: bool) returns (t: string)
    requires '\\' in p
    ensures Matches(t, p, Some('\\'), true) != Matches(Lower(t), Lower(p), None, foldCase)
  {
    if WellEscaped(p, Some('\\')) {
      t := Sample(p, Some('\\'), '%');
      SampleMatches(p, Some('\\'), '%', true);
      SampleBackslashes(p);
      LowerKeepsBackslashes(t);
      LowerKeepsBackslashes(p);
      if Matches(Lower(t), Lower(p), None, foldCase) {
        LiteralBackslashes(Lower(t), Lower(p), foldCase);
      }
    } else {
      t := Sample(p, None, '%');
      LowerSample(p);
      NeverEscaped(Lower(p));
      SampleMatches(Lower(p), None, '%', foldCase);
      IllEscapedNeverMatches(t, p, Some('\\'), true);
    }
  }

  /**
   ILIKE without an ESCAPE clause lets backslash escape; the LIKE it becomes on SQLite has no
   escape at all. The two agree on every text exactly when the pattern has no backslash.
   */
  lemma {:induction false} BackslashOnSqlite(p: string, foldCase: bool)
    ensures (forall t ::
               Matches(t, p, Some('\\'), true) == Matches(Lower(t), Lower(p), DefaultEscape(Sqlite), foldCase))
            <==> '\\' !in p
  {
    if '\\' !in p {
      NoBackslashSameEscape(p);
      forall t ensures Matches(t, p, Some('\\'), true) == Matches(Lower(t), Lower(p), None, foldCase) {
        MatchesLowered(t, p, Some('\\'), None, foldCase);
      }
    } else {
      var t := LoweredWitness(p, foldCase);
      assert Matches(t, p, Some('\\'), true) != Matches(Lower(t), Lower(p), DefaultEscape(Sqlite), foldCase);
    }
  }

  lemma {:induction false} NoLetterSameEscape(p: string, c: char)
    requires !IsLetter(c)
    ensures SameEscape(p, Some(c), Some(c))
  {
    if p != [] {
      if p[0] == c {
        if |p| >= 2 {
          NoLetterSameEscape(p[2..], c);
        }
      } else {
        NoLetterSameEscape(p[1..], c);
      }
    }
  }

  /**
   The pattern is lowered, the escape character is not: with an ESCAPE clause ILIKE and its lowered
   form agree on all patterns and texts exactly when the escape character is no letter.
   */
  lemma {:induction false} LetterEscape(c: char, foldCase: bool)
    ensures (forall p, t :: Matches(t, p, Some(c), true) == Matches(Lower(t), Lower(p), Some(c), foldCase))
            <==> !IsLetter(c)
  {
    if !IsLetter(c) {
      forall p, t ensures Matches(t, p, Some(c), true) == Matches(Lower(t), Lower(p), Some(c), foldCase) {
        NoLetterSameEscape(p, c);
        MatchesLowered(t, p, Some(c), Some(c), foldCase);
      }
    } else {
      var p, t := LetterWitness(c, foldCase);
      assert Matches(t, p, Some(c), true) != Matches(Lower(t), Lower(p), Some(c), foldCase);
    }
  }

  /** The letter in the case that the lowered pattern reads otherwise. */
  lemma {:induction false} LetterWitness(c: char, foldCase: bool) returns (p: string, t: string)
    requires IsLetter(c)
    ensures Matches(t, p, Some(c), true) != Matches(Lower(t), Lower(p), Some(c), foldCase)
  {
    OtherFacts(c);
    FoldFacts(c);
    t := [FoldChar(c)];
    assert t[1..] == [] && Lower(t) == t;
    if FoldChar(c) == c {
      p := [Other(c)];
      assert p[1..] == [] && Lower(p) == [c];
    } else {
      p := [c];
      assert p[1..] == [] && Lower(p) == [FoldChar(c)];
    }
  }

  // ------------------------------------------------------------------ meaning

  /** A client's dialect, and a target it is translated for. */
  ghost predicate Translates(source: World, w: World) {
    && source.shared == w.shared
    && source.dialect != Sqlite
    && (source.dialect == Mysql ==> w.dialect != Mysql)
  }

  /** A NULL or rejected pattern makes every LIKE give the same. */
  predicate NoPattern(v: Val) { v == Null || v == Unsupported }

  function ValuesOf(args: Args, ctx: Context, w: World): List<Val> {
    if args.ArgList? then EvalArgs(args.list, ctx, w) else Nil
  }

  /** What each node must satisfy for the target to be able to say the same. */
  ghost predicate NodePortable(e: Expr, ctx: Context, source: World, w: World) {
    match e
    case Compound(qualifier, _) => qualifier == "excluded" ==> (source.dialect == Mysql <==> w.dialect == Mysql)
    case Binary(_, op, _) => op == StringConcat ==> source.dialect != Mysql
    case Cast(kind, _, _) => kind == DoubleColon ==> source.dialect == Postgres
    case Function(fn, args) =>
      && fn != VALUES && !Replaced(fn, w.dialect)
      && (fn == CONCAT ==> source.dialect == w.dialect || (source.dialect != Mysql && w.dialect != Mysql)
                           || ConcatPortable(ValuesOf(args, ctx, source)))
    case Like(_, anyOf, _, pattern, escape) =>
      if anyOf then source.dialect == Postgres && w.dialect == Postgres
      else
        || NoPattern(Eval(pattern, ctx, source))
        || LikePortable(TextOf(Eval(pattern, ctx, source), w.shared), escape, source, w)
    case ILike(_, anyOf, _, pattern, escape) =>
      && source.dialect == Postgres
      && (w.dialect == Postgres ||
          (!anyOf &&
           (NoPattern(Eval(pattern, ctx, source)) ||
            SameEscape(TextOf(Eval(pattern, ctx, source), w.shared),
                       EscapeIn(escape, Postgres), EscapeIn(escape, w.dialect)))))
    case _ => true
  }

  ghost predicate Portable(e: Expr, ctx: Context, source: World, w: World) {
    && NodePortable(e, ctx, source, w)
    && match e
       case Function(_, ArgList(list)) => PortableArgs(list, ctx, source, w)
       case Binary(l, _, r) => Portable(l, ctx, source, w) && Portable(r, ctx, source, w)
       case Unary(_, e1) => Portable(e1, ctx, source, w)
       case Nested(e1) => Portable(e1, ctx, source, w)
       case Cast(_, e1, _) => Portable(e1, ctx, source, w)
       case Like(_, _, e1, p, _) => Portable(e1, ctx, source, w) && Portable(p, ctx, source, w)
       case ILike(_, _, e1, p, _) => Portable(e1, ctx, source, w) && Portable(p, ctx, source, w)
       case InList(e1, list, _) => Portable(e1, ctx, source, w) && PortableAll(list, ctx, source, w)
       case Between(e1, low, high, _) => Portable(e1, ctx, source, w) && Portable(low, ctx, source, w)
           && Portable(high, ctx, source, w)
       case _ => true
  }

  ghost predicate PortableArgs(args: List<Arg>, ctx: Context, source: World, w: World) {
    match args
    case Nil => true
    case Cons(arg, rest) => (!arg.Star? ==> Portable(arg.e, ctx, source, w)) && PortableArgs(rest, ctx, source, w)
  }

  ghost predicate PortableAll(es: List<Expr>, ctx: Context, source: World, w: World) {
    match es
    case Nil => true
    case Cons(e, rest) => Portable(e, ctx, source, w) && PortableAll(rest, ctx, source, w)
  }

  lemma {:induction false} EvalCall1(fn: FunctionName, a: Expr, ctx: Context, w: World)
    requires fn != VALUES
    ensures Eval(Call(fn, Cons(a, Nil)), ctx, w) == Apply(fn, Cons(Eval(a, ctx, w), Nil), w)
  {
    assert AllUnnamed(Cons(a, Nil)) == Cons(Unnamed(a), AllUnnamed(Nil));
    assert EvalArgs(AllUnnamed(Nil), ctx, w) == Nil;
  }

  lemma {:induction false} EvalCall2(fn: FunctionName, a: Expr, b: Expr, ctx: Context, w: World)
    requires fn != VALUES
    ensures Eval(Call(fn, Cons(a, Cons(b, Nil))), ctx, w)
            == Apply(fn, Cons(Eval(a, ctx, w), Cons(Eval(b, ctx, w), Nil)), w)
  {
    assert AllUnnamed(Cons(a, Cons(b, Nil))) == Cons(Unnamed(a), AllUnnamed(Cons(b, Nil)));
    assert AllUnnamed(Cons(b, Nil)) == Cons(Unnamed(b), AllUnnamed(Nil));
    assert EvalArgs(Cons(Unnamed(b), Nil), ctx, w) == Cons(Eval(b, ctx, w), EvalArgs(Nil, ctx, w));
  }

  lemma {:induction false} ConcatPair(a: Val, b: Val, w: Interpretation)
    ensures ConcatAll(Cons(a, Cons(b, Nil)), w) == ConcatStrict(a, b, w)
  {
    assert ConcatAll(Cons(b, Nil), w) == if b == Null || b == Unsupported then b else Str(TextOf(b, w));
  }

  /** `l ILIKE p` against `LOWER(l) LIKE LOWER(p)`. */
  lemma {:induction false} ILikeMeaning(negated: bool, v: Val, p: Val, a: Option<char>, b: Option<char>, foldCase: bool,
                                        w: Interpretation)
    requires NoPattern(p) || SameEscape(TextOf(p, w), a, b)
    ensures LikeValue(negated, LowerValue(v, w), LowerValue(p, w), b, foldCase, w)
            == LikeValue(negated, v, p, a, true, w)
  {
    if !Rejected(v, p) && v != Null && p != Null {
      MatchesLowered(TextOf(v, w), TextOf(p, w), a, b, foldCase);
    }
  }

  lemma {:induction false} LikeMeaning(negated: bool, v: Val, p: Val, escape: Option<char>, source: World, w: World)
    requires Translates(source, w) && (NoPattern(p) || LikePortable(TextOf(p, w.shared), escape, source, w))
    ensures LikeValue(negated, v, p, EscapeIn(escape, w.dialect), w.likeFolds, w.shared)
            == LikeValue(negated, v, p, EscapeIn(escape, source.dialect), source.likeFolds, w.shared)
  {
    if !NoPattern(p) {
      var text, pattern := TextOf(v, w.shared), TextOf(p, w.shared);
      LikeAcrossDialects(pattern, escape, source, w);
      assert Matches(text, pattern, EscapeIn(escape, source.dialect), source.likeFolds)
          == Matches(text, pattern, EscapeIn(escape, w.dialect), w.likeFolds);
    }
  }

  /** The same function of the same values. */
  lemma {:induction false} ApplySame(fn: FunctionName, vs: List<Val>, source: World, w: World)
    requires Translates(source, w) && fn != VALUES
    requires fn == CONCAT && w.dialect != source.dialect && (w.dialect == Mysql || source.dialect == Mysql) ==>
               ConcatPortable(vs)
    ensures Apply(fn, vs, w) == Apply(fn, vs, source)
  {
    if fn == CONCAT && w.dialect == Mysql && source.dialect != Mysql {
      ConcatAcrossDialects(vs, w, source);
    } else if fn == CONCAT && w.dialect != Mysql && source.dialect == Mysql {
      ConcatAcrossDialects(vs, source, w);
    }
  }

  lemma {:induction false} FunctionMeaning(fn: FunctionName, args: List<Arg>, args': List<Arg>, ctx: Context,
                                           source: World, w: World)
    requires Translates(source, w) && NodePortable(Function(fn, ArgList(args)), ctx, source, w)
    requires EvalArgs(args', ctx, w) == EvalArgs(args, ctx, source)
    ensures Eval(RewriteNode(Function(fn, ArgList(args')), w.dialect), ctx, w)
            == Eval(Function(fn, ArgList(args)), ctx, source)
  {
    ApplySame(fn, EvalArgs(args, ctx, source), source, w);
  }

  lemma CastMeaning(kind: CastKind, e: Expr, dataType: string, e': Expr, ctx: Context, source: World, w: World)
    requires Translates(source, w) && NodePortable(Cast(kind, e, dataType), ctx, source, w)
    requires Eval(e', ctx, w) == Eval(e, ctx, source)
    ensures Eval(RewriteNode(Cast(kind, e', dataType), w.dialect), ctx, w) == Eval(Cast(kind, e, dataType), ctx, source)
  {
  }

  lemma {:induction false} BinaryMeaning(e: Expr, l': Expr, r': Expr, ctx: Context, source: World, w: World)
    requires Translates(source, w) && e.Binary? && NodePortable(e, ctx, source, w)
    requires Eval(l', ctx, w) == Eval(e.left, ctx, source)
    requires Eval(r', ctx, w) == Eval(e.right, ctx, source)
    ensures Eval(RewriteNode(Binary(l', e.op, r'), w.dialect), ctx, w) == Eval(e, ctx, source)
  {
    EvalCall2(CONCAT, l', r', ctx, w);
    ConcatPair(Eval(l', ctx, w), Eval(r', ctx, w), w.shared);
  }

  lemma {:induction false} ILikeNodeMeaning(e: Expr, l': Expr, p': Expr, ctx: Context, source: World, w: World)
    requires Translates(source, w) && e.ILike? && NodePortable(e, ctx, source, w)
    requires Eval(l', ctx, w) == Eval(e.e, ctx, source)
    requires Eval(p', ctx, w) == Eval(e.pattern, ctx, source)
    ensures Eval(RewriteNode(ILike(e.negated, e.anyOf, l', p', e.escape), w.dialect), ctx, w) == Eval(e, ctx, source)
  {
    if w.dialect != Postgres {
      EvalCall1(LOWER, l', ctx, w);
      EvalCall1(LOWER, p', ctx, w);
      ILikeMeaning(e.negated, Eval(l', ctx, w), Eval(p', ctx, w), EscapeIn(e.escape, Postgres),
                   EscapeIn(e.escape, w.dialect), w.likeFolds, w.shared);
    }
  }

  lemma {:induction false} LikeNodeMeaning(e: Expr, l': Expr, p': Expr, ctx: Context, source: World, w: World)
    requires Translates(source, w) && e.Like? && NodePortable(e, ctx, source, w)
    requires Eval(l', ctx, w) == Eval(e.e, ctx, source)
    requires Eval(p', ctx, w) == Eval(e.pattern, ctx, source)
    ensures Eval(Like(e.negated, e.anyOf, l', p', e.escape), ctx, w) == Eval(e, ctx, source)
  {
    if !e.anyOf {
      LikeMeaning(e.negated, Eval(l', ctx, w), Eval(p', ctx, w), e.escape, source, w);
    }
  }

  /** The target gives a portable expression the value the client's dialect gave it. */
  lemma {:induction false} RewritingKeepsMeaning(e: Expr, ctx: Context, source: World, w: World)
    requires Translates(source, w) && Portable(e, ctx, source, w)
    ensures Eval(RewriteExpr(e, w.dialect), ctx, w) == Eval(e, ctx, source)
    decreases e, 2
  {
    if e.Binary? || e.Like? || e.ILike? {
      OperandsKeepMeaning(e, ctx, source, w);
    } else if e.Unary? || e.Nested? || e.Cast? {
      OperandKeepsMeaning(e, ctx, source, w);
    } else if e.InList? || e.Between? {
      RangesKeepMeaning(e, ctx, source, w);
    } else if e.Function? && e.args.ArgList? {
      ArgsKeepMeaning(e.args.list, ctx, source, w);
      FunctionMeaning(e.fn, e.args.list, RewriteArgs(e.args.list, w.dialect), ctx, source, w);
    } else if e.Function? {
      ApplySame(e.fn, Nil, source, w);
    }
  }

  lemma {:induction false} OperandsKeepMeaning(e: Expr, ctx: Context, source: World, w: World)
    requires Translates(source, w) && Portable(e, ctx, source, w)
    requires e.Binary? || e.Like? || e.ILike?
    ensures Eval(RewriteExpr(e, w.dialect), ctx, w) == Eval(e, ctx, source)
    decreases e, 1
  {
    var l, r := if e.Binary? then e.left else e.e, if e.Binary? then e.right else e.pattern;
    RewritingKeepsMeaning(l, ctx, source, w);
    RewritingKeepsMeaning(r, ctx, source, w);
    var l', r' := RewriteExpr(l, w.dialect), RewriteExpr(r, w.dialect);
    match e
    case Binary(_, _, _) => BinaryMeaning(e, l', r', ctx, source, w);
    case Like(_, _, _, _, _) => LikeNodeMeaning(e, l', r', ctx, source, w);
    case ILike(_, _, _, _, _) => ILikeNodeMeaning(e, l', r', ctx, source, w);
  }

  lemma {:induction false} OperandKeepsMeaning(e: Expr, ctx: Context, source: World, w: World)
    requires Translates(source, w) && Portable(e, ctx, source, w)
    requires e.Unary? || e.Nested? || e.Cast?
    ensures Eval(RewriteExpr(e, w.dialect), ctx, w) == Eval(e, ctx, source)
    decreases e, 1
  {
    RewritingKeepsMeaning(e.e, ctx, source, w);
    if e.Cast? {
      CastMeaning(e.kind, e.e, e.dataType, RewriteExpr(e.e, w.dialect), ctx, source, w);
    }
  }

  lemma {:induction false} RangesKeepMeaning(e: Expr, ctx: Context, source: World, w: World)
    requires Translates(source, w) && Portable(e, ctx, source, w)
    requires e.InList? || e.Between?
    ensures Eval(RewriteExpr(e, w.dialect), ctx, w) == Eval(e, ctx, source)
    decreases e, 1
  {
    RewritingKeepsMeaning(e.e, ctx, source, w);
    if e.InList? {
      AllKeepMeaning(e.list, ctx, source, w);
    } else {
      RewritingKeepsMeaning(e.low, ctx, source, w);
      RewritingKeepsMeaning(e.high, ctx, source, w);
    }
  }

  lemma {:induction false} ArgsKeepMeaning(args: List<Arg>, ctx: Context, source: World, w: World)
    requires Translates(source, w) && PortableArgs(args, ctx, source, w)
    ensures EvalArgs(RewriteArgs(args, w.dialect), ctx, w) == EvalArgs(args, ctx, source)
    decreases args, 0
  {
    if args.Cons? {
      ArgsKeepMeaning(args.tail, ctx, source, w);
      if !args.head.Star? {
        RewritingKeepsMeaning(args.head.e, ctx, source, w);
      }
    }
  }

  lemma {:induction false} AllKeepMeaning(es: List<Expr>, ctx: Context, source: World, w: World)
    requires Translates(source, w) && PortableAll(es, ctx, source, w)
    ensures EvalAll(RewriteAll(es, w.dialect), ctx, w) == EvalAll(es, ctx, source)
    decreases es, 0
  {
    if es.Cons? {
      RewritingKeepsMeaning(es.head, ctx, source, w);
      AllKeepMeaning(es.tail, ctx, source, w);
    }
  }

  predicate AnyIs(vs: List<Val>, v: Val) {
    vs.Cons? && (vs.head == v || AnyIs(vs.tail, v))
  }

  lemma {:induction false} ConcatKinds(vs: List<Val>, w: Interpretation)
    ensures ConcatAll(vs, w) == Unsupported <==> AnyIs(vs, Unsupported)
    ensures ConcatAll(vs, w) == Null <==> AnyIs(vs, Null) && !AnyIs(vs, Unsupported)
    ensures ConcatSkipping(vs, w) == Unsupported <==> AnyIs(vs, Unsupported)
    ensures ConcatSkipping(vs, w) != Null
  {
    if vs.Cons? {
      ConcatKinds(vs.tail, w);
    }
  }

  /** No argument is NULL, or the call is rejected anyway. */
  predicate ConcatPortable(vs: List<Val>) { AnyIs(vs, Unsupported) || !AnyIs(vs, Null) }

  /**
   A CONCAT is passed on as it is, and means the same on MySQL as elsewhere exactly when no argument
   is NULL (or one is rejected): MySQL returns NULL, the others skip NULLs.
   */
  lemma {:induction false} ConcatAcrossDialects(vs: List<Val>, mysql: World, other: World)
    requires mysql.dialect == Mysql && other.dialect != Mysql && mysql.shared == other.shared
    ensures Apply(CONCAT, vs, mysql) == Apply(CONCAT, vs, other) <==> ConcatPortable(vs)
  {
    var w := mysql.shared;
    ConcatKinds(vs, w);
    if !AnyIs(vs, Unsupported) && !AnyIs(vs, Null) && vs.Cons? {
      ConcatAcrossDialects(vs.tail, mysql, other);
      ConcatKinds(vs.tail, w);
      if vs.tail == Nil {
        assert ConcatSkipping(Nil, w) == Str("");
        assert TextOf(vs.head, w) + "" == TextOf(vs.head, w);
      }
    }
  }
}
