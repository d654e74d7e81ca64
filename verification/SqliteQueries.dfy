/**
 The tables listed for a printed SELECT with joins, and the identifiers that make the list wrong:
 the search looks inside words.
 */
module SqliteQueries {
  import opened Wrappers
  import opened Text
  import opened SqliteTables
  import opened SqliteColumns

  // ------------------------------------------------------------------ walking a text

  /** `s` starts with `p`, up to case. */
  predicate Stands(s: string, p: string) {
    p == [] || (s != [] && UpperChar(s[0]) == p[0] && Stands(s[1..], p[1..]))
  }

  lemma {:induction false} StandsIsPrefix(s: string, p: string)
    ensures Stands(s, p) <==> p <= Upper(s)
  {
    if p != [] && s != [] {
      StandsIsPrefix(s[1..], p[1..]);
      var u := Upper(s);
      assert u == [UpperChar(s[0])] + Upper(s[1..]);
      assert p == [p[0]] + p[1..];
    }
  }

  lemma {:induction false} StandsFits(s: string, p: string)
    requires Stands(s, p)
    ensures |p| <= |s|
  {
    if p != [] {
      StandsFits(s[1..], p[1..]);
    }
  }

  /** The table named here, if the needle stands here. */
  function Here(s: string, p: Needle): List<string> {
    if Stands(s, p) then
      StandsFits(s, p);
      (match FirstName(s[|p|..]) case None => Nil case Some(t) => Cons(t, Nil))
    else Nil
  }

  function TablesFrom(s: string, p: Needle): List<string> {
    if s == [] then Nil else Append(Here(s, p), TablesFrom(s[1..], p))
  }

  lemma UpperSuffix(s: string, k: nat)
    requires k <= |s|
    ensures Upper(s[k..]) == Upper(s)[k..]
  {
  }

  lemma {:induction false} OccursHere(sql: string, p: Needle, k: nat)
    requires k < |sql|
    ensures OccursAt(p, Upper(sql), k) <==> Stands(sql[k..], p)
  {
    UpperSuffix(sql, k);
    StandsIsPrefix(sql[k..], p);
    var u := Upper(sql)[k..];
    if OccursAt(p, Upper(sql), k) {
      assert u[..|p|] == p;
    }
    if p <= u {
      assert forall i :: 0 <= i < |p| ==> Upper(sql)[k + i] == u[i] == p[i];
    }
  }

  lemma {:induction false} BehindOne(sql: string, k: nat, len: nat, rest: List<nat>, here: List<string>)
    requires k + len <= |sql|
    requires here == match FirstName(sql[k + len..]) case None => Nil case Some(t) => Cons(t, Nil)
    ensures TablesBehind(sql, Cons(k, rest), len) == Append(here, TablesBehind(sql, rest, len))
  {
    HereFirst(here, TablesBehind(sql, rest, len));
  }

  lemma {:induction false} BehindHere(sql: string, p: Needle, k: nat, rest: List<nat>)
    requires k < |sql|
    ensures TablesBehind(sql, if Stands(sql[k..], p) then Cons(k, rest) else rest, |p|)
            == Append(Here(sql[k..], p), TablesBehind(sql, rest, |p|))
  {
    if Stands(sql[k..], p) {
      NameHere(sql, p, k);
      BehindOne(sql, k, |p|, rest, Here(sql[k..], p));
    }
  }

  lemma {:induction false} NameHere(sql: string, p: Needle, k: nat)
    requires k <= |sql| && Stands(sql[k..], p)
    ensures k + |p| <= |sql|
    ensures Here(sql[k..], p) == match FirstName(sql[k + |p|..]) case None => Nil case Some(t) => Cons(t, Nil)
  {
    StandsFits(sql[k..], p);
    assert sql[k..][|p|..] == sql[k + |p|..];
  }

  lemma {:induction false} HereFirst(here: List<string>, more: List<string>)
    ensures here == Nil ==> Append(here, more) == more
    ensures here.Cons? && here.tail == Nil ==> Append(here, more) == Cons(here.head, more)
  {
    if here.Cons? && here.tail == Nil {
      assert Append(here.tail, more) == more;
    }
  }

  lemma {:induction false} TablesFromAre(sql: string, p: Needle, k: nat)
    requires k <= |sql|
    ensures TablesBehind(sql, Positions(p, Upper(sql), k), |p|) == TablesFrom(sql[k..], p)
    decreases |sql| - k
  {
    if k < |sql| {
      TablesFromAre(sql, p, k + 1);
      OccursHere(sql, p, k);
      BehindHere(sql, p, k, Positions(p, Upper(sql), k + 1));
      TablesStep(sql[k..], p);
      assert sql[k..][1..] == sql[k + 1..];
    }
  }

  lemma TablesStep(s: string, p: Needle)
    requires s != []
    ensures TablesFrom(s, p) == Append(Here(s, p), TablesFrom(s[1..], p))
  {
  }

  /** The tables named behind occurrences that start in `w`. */
  function InWord(w: string, x: string, p: Needle): List<string> {
    if w == [] then Nil else Append(Here(w + x, p), InWord(w[1..], x, p))
  }

  lemma {:induction false} WalkWord(w: string, x: string, p: Needle)
    ensures TablesFrom(w + x, p) == Append(InWord(w, x, p), TablesFrom(x, p))
  {
    if w == [] {
      assert w + x == x;
    } else {
      WalkWord(w[1..], x, p);
      TablesStep(w + x, p);
      assert (w + x)[1..] == w[1..] + x;
      WordStep(w, x, p, Here(w + x, p));
      AppendAssoc(Here(w + x, p), InWord(w[1..], x, p), TablesFrom(x, p));
    }
  }

  lemma WordStep(w: string, x: string, p: Needle, here: List<string>)
    requires w != [] && here == Here(w + x, p)
    ensures InWord(w, x, p) == Append(here, InWord(w[1..], x, p))
  {
  }

  lemma {:induction false} WalkOver(c: char, x: string, p: Needle)
    requires UpperChar(c) != p[0]
    ensures TablesFrom([c] + x, p) == TablesFrom(x, p)
  {
    assert ([c] + x)[1..] == x;
  }

  // ------------------------------------------------------------------ phrases

  /** A word, what separates it from the next, and whether it is a keyword. */
  datatype Part = Part(word: string, sep: string, keyword: bool)

  function PhraseText(ps: List<Part>): string {
    match ps
    case Nil => ""
    case Cons(part, rest) => part.word + (part.sep + PhraseText(rest))
  }

  const KEYWORDS: set<string> := {"SELECT", "AS", "FROM", "JOIN", "ON", "INNER", "LEFT", "RIGHT", "CROSS"}
  const SEPARATORS: set<string> := {" ", ", ", " = "}

  /** A dotted name that ends in a word. */
  predicate IsName(w: string) { Dotted(w) && w != [] && IsWord(w[|w| - 1]) }

  predicate WellSpaced(ps: List<Part>) {
    match ps
    case Nil => true
    case Cons(part, rest) =>
      && IsName(part.word)
      && (if rest.Nil? then part.sep == "" else part.sep in SEPARATORS)
      && (part.keyword ==> part.word in KEYWORDS && part.sep == " ")
      && WellSpaced(rest)
  }

  /** The needles this is about. */
  predicate IsKey(p: Needle) { p == "FROM" || p == "JOIN" }

  /** `p` occurs in `w`, up to case, with more of `w` or a space behind it. */
  predicate Hides(w: string, spaced: bool, p: Needle) {
    w != [] && ((Stands(w, p) && (|w| > |p| || spaced)) || Hides(w[1..], spaced, p))
  }

  /** Some identifier hides the needle. */
  predicate Stray(ps: List<Part>, p: Needle) {
    ps.Cons? && ((!ps.head.keyword && Hides(ps.head.word, ps.head.sep == " ", p)) || Stray(ps.tail, p))
  }

  /** The names behind the keyword `p`. */
  function Listed(ps: List<Part>, p: Needle): List<string> {
    match ps
    case Nil => Nil
    case Cons(part, rest) =>
      if part.keyword && part.word == p && rest.Cons? then Cons(LastComponent(rest.head.word), Listed(rest, p))
      else Listed(rest, p)
  }

  // ------------------------------------------------------------------ what a word contributes

  lemma {:induction false} LastOfDotted(w: string)
    requires IsName(w)
    ensures AllWord(LastComponent(w)) && LastComponent(w) != []
  {
    if '.' in w[1..] {
      assert w[1..][|w| - 2] == w[|w| - 1];
      LastOfDotted(w[1..]);
    } else if w[0] == '.' {
      assert w[1..] != [] by { assert IsWord(w[|w| - 1]); }
      DotlessWord(w[1..]);
    } else {
      DotlessWord(w);
    }
  }

  lemma {:induction false} DotlessWord(w: string)
    requires Dotted(w) && (w == [] || w[0] != '.') && (w == [] || '.' !in w[1..])
    ensures AllWord(w)
  {
    if |w| > 1 {
      assert w[1..][0] in w[1..] && forall c :: c in w[1..][1..] ==> c in w[1..];
      DotlessWord(w[1..]);
    }
  }

  /** A name is read up to what ends it. */
  lemma {:induction false} NameIsNamed(w: string, x: string)
    requires IsName(w) && EndsName(x)
    ensures FirstName(w + x) == Some(LastComponent(w))
  {
    assert (w + x)[0] == w[0];
    SpacesFirst(w[0]);
    NameTextOf(w, x);
    LastOfDotted(w);
    WordsNotTrimmed(LastComponent(w));
  }

  lemma {:induction false} NextIsNamed(ps: List<Part>)
    requires WellSpaced(ps) && ps.Cons?
    ensures FirstName(" " + PhraseText(ps)) == Some(LastComponent(ps.head.word))
  {
    var x := ps.head.sep + PhraseText(ps.tail);
    SepEnds(ps.head.sep, PhraseText(ps.tail), ps.tail.Nil?);
    NameIsNamed(ps.head.word, x);
    SpaceClass(' ');
    assert (" " + PhraseText(ps))[1..] == PhraseText(ps);
    assert PhraseText(ps)[0] == ps.head.word[0];
    SpacesFirst(ps.head.word[0]);
  }

  lemma SepEnds(sep: string, text: string, last: bool)
    requires if last then sep == "" && text == "" else sep in SEPARATORS
    ensures EndsName(sep + text)
    ensures sep + text == [] || (sep + text)[0] == ' ' || (sep + text)[0] == ','
  {
  }

  /** Behind a comma or an equals sign there is no table. */
  lemma {:induction false} NothingNamed(sep: string, text: string)
    requires sep == ", " || sep == " = " || (sep == "" && text == "")
    ensures FirstName(sep + text) == None
  {
    SpaceClass(' ');
    SpaceClass(',');
    SpaceClass('=');
    if sep == " = " {
      assert (sep + text)[1..] == "= " + text;
      assert TrimStart(sep + text, SPACES) == "= " + text;
    }
  }

  lemma {:induction false} SeparatorNames(sep: string, rest: List<Part>)
    requires WellSpaced(rest) && (if rest.Nil? then sep == "" else sep in SEPARATORS)
    ensures FirstName(sep + PhraseText(rest))
            == if sep == " " then Some(LastComponent(rest.head.word)) else None
  {
    if sep == " " {
      NextIsNamed(rest);
    } else {
      NothingNamed(sep, PhraseText(rest));
    }
  }

  predicate IsCapital(c: char) { 'A' <= c <= 'Z' }

  predicate Capitals(s: string) { s == [] || (IsCapital(s[0]) && Capitals(s[1..])) }

  /** A needle does not reach beyond a word. */
  lemma {:induction false} InsideWord(w: string, x: string, p: string)
    requires Capitals(p) && (x == [] || x[0] == ' ' || x[0] == ',')
    ensures Stands(w + x, p) <==> Stands(w, p)
  {
    if w == [] {
      assert w + x == x;
    } else if p != [] {
      assert (w + x)[1..] == w[1..] + x;
      InsideWord(w[1..], x, p[1..]);
    }
  }

  lemma {:induction false} KeyIsCapital(p: Needle)
    requires IsKey(p)
    ensures Capitals(p) && |p| == 4
  {
    assert p[1..][1..][1..][1..] == [];
    assert Capitals(p[1..][1..][1..]) && Capitals(p[1..][1..]) && Capitals(p[1..]);
  }

  lemma {:induction false} HereInWord(w: string, sep: string, rest: List<Part>, p: Needle)
    requires IsKey(p) && IsName(w) && WellSpaced(rest) && (if rest.Nil? then sep == "" else sep in SEPARATORS)
    ensures Here(w + (sep + PhraseText(rest)), p)
            == if !Stands(w, p) then Nil
               else if |w| > |p| then Cons(LastComponent(w[|p|..]), Nil)
               else if sep == " " then Cons(LastComponent(rest.head.word), Nil)
               else Nil
  {
    var x := sep + PhraseText(rest);
    SepEnds(sep, PhraseText(rest), rest.Nil?);
    KeyIsCapital(p);
    InsideWord(w, x, p);
    if Stands(w, p) {
      StandsFits(w, p);
      assert (w + x)[|p|..] == w[|p|..] + x;
      if |w| > |p| {
        DottedSuffix(w, |p|);
        NameIsNamed(w[|p|..], x);
      } else {
        assert w[|p|..] + x == x;
        SeparatorNames(sep, rest);
      }
    }
  }

  lemma {:induction false} DottedSuffix(w: string, k: nat)
    requires Dotted(w) && k <= |w|
    ensures Dotted(w[k..])
  {
    if k > 0 {
      DottedSuffix(w[1..], k - 1);
      assert w[1..][k - 1..] == w[k..];
    }
  }

  lemma {:induction false} WordHides(w: string, sep: string, rest: List<Part>, p: Needle)
    requires IsKey(p) && (w == [] || IsName(w)) && WellSpaced(rest)
    requires if rest.Nil? then sep == "" else sep in SEPARATORS
    ensures InWord(w, sep + PhraseText(rest), p) == Nil <==> !Hides(w, sep == " ", p)
  {
    if w != [] {
      HereInWord(w, sep, rest, p);
      assert |w| > 1 ==> w[1..][|w| - 2] == w[|w| - 1];
      WordHides(w[1..], sep, rest, p);
    }
  }

  lemma {:induction false} ShortHidesNothing(w: string, p: Needle)
    requires |w| < |p|
    ensures !Hides(w, true, p)
  {
    if w != [] {
      if Stands(w, p) {
        StandsFits(w, p);
      }
      ShortHidesNothing(w[1..], p);
    }
  }

  lemma {:induction false} CapitalsFacts(w: string)
    requires Capitals(w)
    ensures Dotted(w) && Stands(w, w) && (w != [] ==> IsCapital(w[|w| - 1]))
  {
    if w != [] {
      CapitalsFacts(w[1..]);
    }
  }

  lemma {:induction false} NoInitialHidesNothing(w: string, p: Needle)
    requires Capitals(w) && p[0] !in w
    ensures !Hides(w, true, p)
  {
    if w != [] {
      assert w[0] in w && forall c :: c in w[1..] ==> c in w;
      NoInitialHidesNothing(w[1..], p);
    }
  }

  lemma {:induction false} LeftIsShort(w: string, p: Needle)
    requires w == "LEFT" && IsKey(p)
    ensures !Hides(w, true, p)
  {
    KeyIsCapital(p);
    ShortHidesNothing(w[1..], p);
  }

  lemma {:induction false} KeywordCapitals(w: string)
    requires w in KEYWORDS
    ensures Capitals(w) && w != []
  {
    AllCapitals(w);
  }

  lemma {:induction false} AllCapitals(w: string)
    requires forall i :: 0 <= i < |w| ==> IsCapital(w[i])
    ensures Capitals(w)
  {
    if w != [] {
      AllCapitals(w[1..]);
    }
  }

  lemma {:induction false} KeywordHidesNothing(w: string, p: Needle)
    requires IsKey(p) && w in KEYWORDS && w != p
    ensures !Hides(w, true, p)
  {
    KeywordCapitals(w);
    KeyIsCapital(p);
    if w == "LEFT" {
      LeftIsShort(w, p);
    } else if |w| < 4 {
      ShortHidesNothing(w, p);
    } else {
      assert p[0] !in w;
      NoInitialHidesNothing(w, p);
    }
  }

  lemma {:induction false} KeyNames(w: string, rest: List<Part>, p: Needle)
    requires IsKey(p) && w == p && WellSpaced(rest) && rest.Cons?
    ensures InWord(w, " " + PhraseText(rest), p) == Cons(LastComponent(rest.head.word), Nil)
  {
    KeyIsCapital(p);
    CapitalsFacts(w);
    HereInWord(w, " ", rest, p);
    ShortHidesNothing(w[1..], p);
    DottedSuffix(w, 1);
    HidesSpaced(w[1..], p);
    WordHides(w[1..], " ", rest, p);
    AppendNil(Here(w + (" " + PhraseText(rest)), p));
  }

  lemma {:induction false} HidesSpaced(w: string, p: Needle)
    ensures Hides(w, false, p) ==> Hides(w, true, p)
  {
    if w != [] {
      HidesSpaced(w[1..], p);
    }
  }

  // ------------------------------------------------------------------ what a phrase lists

  lemma {:induction false} LengthAppend<T>(a: List<T>, b: List<T>)
    ensures Length(Append(a, b)) == Length(a) + Length(b)
  {
    if a.Cons? {
      LengthAppend(a.tail, b);
    }
  }

  lemma {:induction false} WalkSeparator(sep: string, x: string, p: Needle)
    requires IsKey(p) && (sep == "" || sep in SEPARATORS)
    ensures TablesFrom(sep + x, p) == TablesFrom(x, p)
  {
    if sep == "" {
      assert sep + x == x;
    } else if sep == " " {
      WalkOver(' ', x, p);
    } else if sep == ", " {
      assert sep + x == [','] + ([' '] + x);
      WalkOver(',', [' '] + x, p);
      WalkOver(' ', x, p);
    } else {
      assert sep + x == [' '] + (['='] + ([' '] + x));
      WalkOver(' ', ['='] + ([' '] + x), p);
      WalkOver('=', [' '] + x, p);
      WalkOver(' ', x, p);
    }
  }

  /** What the first word of a phrase contributes. */
  lemma {:induction false} PartNames(ps: List<Part>, p: Needle)
    requires IsKey(p) && WellSpaced(ps) && ps.Cons?
    ensures var here := InWord(ps.head.word, ps.head.sep + PhraseText(ps.tail), p);
            if ps.head.keyword then
              here == if ps.head.word == p then Cons(LastComponent(ps.tail.head.word), Nil) else Nil
            else
              here == Nil <==> !Hides(ps.head.word, ps.head.sep == " ", p)
    ensures ps.head.keyword ==> ps.tail.Cons?
  {
    var part := ps.head;
    if part.keyword && part.word == p {
      KeyNames(part.word, ps.tail, p);
    } else {
      WordHides(part.word, part.sep, ps.tail, p);
      if part.keyword {
        KeywordHidesNothing(part.word, p);
      }
    }
  }

  /** A phrase lists the names behind its keywords, and more exactly when an identifier hides one. */
  lemma {:induction false} PhraseLists(ps: List<Part>, p: Needle)
    requires IsKey(p) && WellSpaced(ps)
    ensures !Stray(ps, p) ==> TablesFrom(PhraseText(ps), p) == Listed(ps, p)
    ensures Length(TablesFrom(PhraseText(ps), p)) >= Length(Listed(ps, p)) + (if Stray(ps, p) then 1 else 0)
  {
    if ps.Cons? {
      var part, text := ps.head, PhraseText(ps.tail);
      PhraseLists(ps.tail, p);
      PartNames(ps, p);
      WalkWord(part.word, part.sep + text, p);
      WalkSeparator(part.sep, text, p);
      var here := InWord(part.word, part.sep + text, p);
      LengthAppend(here, TablesFrom(text, p));
      OneMore(here, TablesFrom(text, p));
    }
  }

  lemma {:induction false} OneMore<T>(a: List<T>, b: List<T>)
    ensures a == Nil ==> Append(a, b) == b
    ensures a.Cons? && a.tail == Nil ==> Append(a, b) == Cons(a.head, b)
    ensures a.Cons? ==> Length(a) >= 1
    ensures a.Cons? && a.tail == Nil ==> Length(a) == 1
  {
    if a.Cons? && a.tail == Nil {
      assert Append(a.tail, b) == b;
      assert Length(a.tail) == 0;
    }
  }

  // ------------------------------------------------------------------ queries

  /** `INNER JOIN path.name ON left = right`, the kind and the condition optional. */
  datatype Join = Join(kind: Option<string>, path: string, name: string, on: Option<(string, string)>)

  predicate IsTable(path: string, name: string) {
    Dotted(path) && (path == [] || path[|path| - 1] == '.') && AllWord(name) && name != []
  }

  predicate WellFormedJoins(joins: List<Join>) {
    match joins
    case Nil => true
    case Cons(j, rest) =>
      && (j.kind.Some? ==> j.kind.value in {"INNER", "LEFT", "RIGHT", "CROSS"})
      && IsTable(j.path, j.name)
      && (j.on.Some? ==> IsName(j.on.value.0) && IsName(j.on.value.1))
      && WellFormedJoins(rest)
  }

  function Keyword(word: string, rest: List<Part>): List<Part> { Cons(Part(word, " ", true), rest) }

  /** An identifier, separated by `sep` from what follows. */
  function Identifier(word: string, sep: string, rest: List<Part>): List<Part> {
    Cons(Part(word, if rest.Nil? then "" else sep, false), rest)
  }

  function JoinParts(joins: List<Join>): List<Part> {
    match joins
    case Nil => Nil
    case Cons(j, rest) =>
      var more := JoinParts(rest);
      var join := Keyword("JOIN", Identifier(j.path + j.name, " ", ConditionParts(j.on, more)));
      if j.kind.None? then join else Keyword(j.kind.value, join)
  }

  function SourceParts(path: string, name: string, joins: List<Join>): List<Part> {
    Identifier(path + name, " ", JoinParts(joins))
  }

  function ItemParts(items: List<Item>, source: List<Part>): List<Part> {
    match items
    case Nil => Keyword("FROM", source)
    case Cons(it, rest) =>
      var more := ItemParts(rest, source);
      OneItem(it, if rest.Nil? then " " else ", ", more)
  }

  function QueryParts(items: List<Item>, path: string, name: string, joins: List<Join>): List<Part> {
    Keyword("SELECT", ItemParts(items, SourceParts(path, name, joins)))
  }

  function JoinNames(joins: List<Join>): List<string> {
    match joins case Nil => Nil case Cons(j, rest) => Cons(j.name, JoinNames(rest))
  }

  lemma {:induction false} KeywordSpaced(w: string, rest: List<Part>)
    requires w in KEYWORDS && WellSpaced(rest) && rest.Cons?
    ensures WellSpaced(Keyword(w, rest))
    ensures forall p: Needle ::
              Listed(Keyword(w, rest), p)
              == if w == p then Cons(LastComponent(rest.head.word), Listed(rest, p)) else Listed(rest, p)
  {
    KeywordCapitals(w);
    CapitalsFacts(w);
  }

  lemma IdentifierSpaced(w: string, sep: string, rest: List<Part>)
    requires IsName(w) && sep in SEPARATORS && WellSpaced(rest)
    ensures WellSpaced(Identifier(w, sep, rest))
    ensures forall p: Needle :: Listed(Identifier(w, sep, rest), p) == Listed(rest, p)
  {
  }

  lemma {:induction false} TableName(path: string, name: string)
    requires IsTable(path, name)
    ensures IsName(path + name) && LastComponent(path + name) == name
  {
    DottedName(path, name);
    assert (path + name)[|path + name| - 1] == name[|name| - 1];
    WordsDotted(name);
    LastWord(name);
    WordsOnly(name, '.');
    LastComponentOf(path, name);
  }

  lemma {:induction false} LastWord(name: string)
    requires AllWord(name) && name != []
    ensures IsWord(name[|name| - 1])
  {
    if |name| > 1 {
      LastWord(name[1..]);
    }
  }

  function ConditionParts(on: Option<(string, string)>, more: List<Part>): List<Part> {
    if on.None? then more else Keyword("ON", Identifier(on.value.0, " = ", Identifier(on.value.1, " ", more)))
  }

  lemma {:induction false} ConditionSpaced(on: Option<(string, string)>, more: List<Part>)
    requires WellSpaced(more) && (on.Some? ==> IsName(on.value.0) && IsName(on.value.1))
    ensures WellSpaced(ConditionParts(on, more))
    ensures forall p: Needle :: IsKey(p) ==> Listed(ConditionParts(on, more), p) == Listed(more, p)
  {
    if on.Some? {
      var (l, r) := on.value;
      IdentifierSpaced(r, " ", more);
      IdentifierSpaced(l, " = ", Identifier(r, " ", more));
      KeywordSpaced("ON", Identifier(l, " = ", Identifier(r, " ", more)));
    }
  }

  lemma {:induction false} JoinsSpaced(joins: List<Join>)
    requires WellFormedJoins(joins)
    ensures WellSpaced(JoinParts(joins))
    ensures Listed(JoinParts(joins), "FROM") == Nil && Listed(JoinParts(joins), "JOIN") == JoinNames(joins)
  {
    if joins.Cons? {
      var j := joins.head;
      JoinsSpaced(joins.tail);
      ConditionSpaced(j.on, JoinParts(joins.tail));
      TableName(j.path, j.name);
      var condition := ConditionParts(j.on, JoinParts(joins.tail));
      IdentifierSpaced(j.path + j.name, " ", condition);
      var join := Keyword("JOIN", Identifier(j.path + j.name, " ", condition));
      KeywordSpaced("JOIN", Identifier(j.path + j.name, " ", condition));
      if j.kind.Some? {
        KeywordSpaced(j.kind.value, join);
      }
    }
  }

  lemma {:induction false} ItemsSpaced(items: List<Item>, source: List<Part>)
    requires AllWellFormed(items) && WellSpaced(source) && source.Cons?
    ensures WellSpaced(ItemParts(items, source)) && ItemParts(items, source).Cons?
    ensures Listed(ItemParts(items, source), "FROM") == Cons(LastComponent(source.head.word), Listed(source, "FROM"))
    ensures Listed(ItemParts(items, source), "JOIN") == Listed(source, "JOIN")
  {
    match items
    case Nil => KeywordSpaced("FROM", source);
    case Cons(it, rest) =>
      ItemsSpaced(rest, source);
      ItemSpaced(it, if rest.Nil? then " " else ", ", ItemParts(rest, source));
  }

  function OneItem(it: Item, sep: string, more: List<Part>): List<Part> {
    if it.Aliased? then Identifier(Ref(it), " ", Keyword("AS", Identifier(it.alias, sep, more)))
    else Identifier(Ref(it), sep, more)
  }

  lemma {:induction false} ItemSpaced(it: Item, sep: string, more: List<Part>)
    requires WellFormed(it) && sep in SEPARATORS && WellSpaced(more)
    ensures WellSpaced(OneItem(it, sep, more))
    ensures forall p: Needle :: IsKey(p) ==> Listed(OneItem(it, sep, more), p) == Listed(more, p)
  {
    TableName(it.path, it.name);
    if it.Aliased? {
      WordsDotted(it.alias);
      LastWord(it.alias);
      IdentifierSpaced(it.alias, sep, more);
      KeywordSpaced("AS", Identifier(it.alias, sep, more));
      IdentifierSpaced(Ref(it), " ", Keyword("AS", Identifier(it.alias, sep, more)));
    } else {
      IdentifierSpaced(Ref(it), sep, more);
    }
  }

  lemma {:induction false} QuerySpaced(items: List<Item>, path: string, name: string, joins: List<Join>)
    requires AllWellFormed(items) && IsTable(path, name) && WellFormedJoins(joins)
    ensures WellSpaced(QueryParts(items, path, name, joins))
    ensures Listed(QueryParts(items, path, name, joins), "FROM") == Cons(name, Nil)
    ensures Listed(QueryParts(items, path, name, joins), "JOIN") == JoinNames(joins)
  {
    JoinsSpaced(joins);
    TableName(path, name);
    IdentifierSpaced(path + name, " ", JoinParts(joins));
    ItemsSpaced(items, SourceParts(path, name, joins));
    KeywordSpaced("SELECT", ItemParts(items, SourceParts(path, name, joins)));
  }

  lemma AliasPrinted(alias: string, sep: string, more: List<Part>)
    requires more.Cons?
    ensures PhraseText(Keyword("AS", Identifier(alias, sep, more))) == "AS" + (" " + (alias + (sep + PhraseText(more))))
  {
  }

  lemma {:induction false} ItemPrinted(it: Item, sep: string, more: List<Part>)
    requires more.Cons?
    ensures PhraseText(OneItem(it, sep, more)) == Ref(it) + (AliasText(it) + (sep + PhraseText(more)))
  {
    var behind := sep + PhraseText(more);
    if it.Aliased? {
      AliasPrinted(it.alias, sep, more);
      AsText(it.alias + behind);
      Assoc(AS, it.alias, behind);
    } else {
      assert "" + behind == behind;
    }
  }

  lemma {:induction false} ItemsPrinted(items: List<Item>, source: List<Part>)
    requires items.Cons?
    ensures " " + PhraseText(ItemParts(items, source)) == Listing(items, PhraseText(source))
  {
    var rest, more := items.tail, ItemParts(items.tail, source);
    assert more.Cons?;
    if rest.Cons? {
      ItemsPrinted(rest, source);
      ItemPrinted(items.head, ", ", more);
      assert ", " + PhraseText(more) == [','] + (" " + PhraseText(more));
    } else {
      ItemPrinted(items.head, " ", more);
      FromPrinted(source);
    }
  }

  lemma {:induction false} FromPrinted(source: List<Part>)
    ensures " " + PhraseText(Keyword("FROM", source)) == FROM + PhraseText(source)
  {
    assert " " + ("FROM" + (" " + PhraseText(source))) == FROM + PhraseText(source);
  }

  /** The phrase is the printed query. */
  lemma {:induction false} QueryPrinted(items: List<Item>, path: string, name: string, joins: List<Join>)
    requires items.Cons?
    ensures PhraseText(QueryParts(items, path, name, joins))
            == Printed(items, PhraseText(SourceParts(path, name, joins)))
  {
    ItemsPrinted(items, SourceParts(path, name, joins));
  }

  /** The search for `p` lists exactly what stands behind that keyword, or some identifier hides `p`. */
  lemma {:induction false} QueryLists(items: List<Item>, path: string, name: string, joins: List<Join>, p: Needle)
    requires items.Cons? && AllWellFormed(items) && IsTable(path, name) && WellFormedJoins(joins) && IsKey(p)
    ensures var parts := QueryParts(items, path, name, joins);
            TablesBehindAll(Printed(items, PhraseText(SourceParts(path, name, joins))), p) == Listed(parts, p)
            <==> !Stray(parts, p)
  {
    var parts := QueryParts(items, path, name, joins);
    var sql := PhraseText(parts);
    QuerySpaced(items, path, name, joins);
    QueryPrinted(items, path, name, joins);
    TablesFromAre(sql, p, 0);
    assert sql[0..] == sql;
    PhraseLists(parts, p);
  }

  /**
   For every printed SELECT with joins, the lists behind FROM and behind JOIN are its table and its
   joined tables, in order, exactly when no identifier hides either keyword.
   */
  lemma {:induction false} QueryTablesAreListed(items: List<Item>, path: string, name: string, joins: List<Join>)
    requires items.Cons? && AllWellFormed(items) && IsTable(path, name) && WellFormedJoins(joins)
    ensures var parts := QueryParts(items, path, name, joins);
            var sql := Printed(items, PhraseText(SourceParts(path, name, joins)));
            && (TablesBehindAll(sql, "FROM") == Cons(name, Nil) <==> !Stray(parts, "FROM"))
            && (TablesBehindAll(sql, "JOIN") == JoinNames(joins) <==> !Stray(parts, "JOIN"))
  {
    QueryLists(items, path, name, joins, "FROM");
    QueryLists(items, path, name, joins, "JOIN");
    QuerySpaced(items, path, name, joins);
  }

  /** When no identifier hides a keyword, all tables listed for the query are its own. */
  lemma {:induction false} QueryTablesAreIts(items: List<Item>, path: string, name: string, joins: List<Join>,
                                             t: string)
    requires items.Cons? && AllWellFormed(items) && IsTable(path, name) && WellFormedJoins(joins)
    requires !Stray(QueryParts(items, path, name, joins), "FROM")
             && !Stray(QueryParts(items, path, name, joins), "JOIN")
    ensures var sql := Printed(items, PhraseText(SourceParts(path, name, joins)));
            Contains(TablesOfEach(sql, Needles()), t) <==> t == name || Contains(JoinNames(joins), t)
  {
    var sql := Printed(items, PhraseText(SourceParts(path, name, joins)));
    QueryTablesAreListed(items, path, name, joins);
    TablesAreListed(sql, t);
    OnlyOne(name, t);
  }

  lemma {:induction false} OnlyOne(x: string, t: string)
    ensures Contains(Cons(x, Nil), t) <==> t == x
  {
    assert !Contains(Nil, t);
  }
}
