/**
 The tables a SQLite query reads, found by searching its text for FROM and JOIN.
 */
module SqliteTables {
  import opened Wrappers
  import opened Text

  // ------------------------------------------------------------------ the name after a keyword

  function UpTo(s: string, q: char): (r: string)
    ensures |r| <= |s|
  {
    if s == [] || s[0] == q then [] else [s[0]] + UpTo(s[1..], q)
  }

  function NameRun(s: string): string
  {
    if s != [] && (IsWord(s[0]) || IsQuote(s[0])) then [s[0]] + NameRun(s[1..]) else []
  }

  /** What a name collects after an opening `q`: the body, then one more component after a dot. */
  function QuotedName(s: string, q: char): string {
    var body := UpTo(s, q);
    body + (if |body| + 1 < |s| && s[|body| + 1] == '.' then ['.'] + NameRun(s[|body| + 2..]) else [])
  }

  function NameText(s: string): string {
    if s == [] then []
    else if s[0] == '.' || IsWord(s[0]) then [s[0]] + NameText(s[1..])
    else if IsQuote(s[0]) then QuotedName(s[1..], s[0])
    else []
  }

  const QUOTES: set<char> := {'"', '`'}

  /** The table named at the start of `s`. */
  function FirstName(s: string): Option<string> {
    var last := LastComponent(NameText(TrimStart(s, SPACES)));
    if last == [] then None else Some(Trim(last, QUOTES))
  }

  lemma SkipOne(s: string, i: nat)
    requires i < |s|
    ensures s[i..] != [] && s[i..][0] == s[i] && s[i..][1..] == s[i + 1..]
  {
  }

  lemma {:induction false} UpToStep(buf: string, s: string, i: nat, q: char)
    requires i < |s| && s[i] != q
    ensures (buf + [s[i]]) + UpTo(s[i + 1..], q) == buf + UpTo(s[i..], q)
  {
    SkipOne(s, i);
    Assoc(buf, [s[i]], UpTo(s[i + 1..], q));
  }

  lemma {:induction false} NameRunStep(buf: string, s: string, i: nat)
    requires i < |s| && (IsWord(s[i]) || IsQuote(s[i]))
    ensures (buf + [s[i]]) + NameRun(s[i + 1..]) == buf + NameRun(s[i..])
  {
    SkipOne(s, i);
    Assoc(buf, [s[i]], NameRun(s[i + 1..]));
  }

  lemma {:induction false} NameTextStep(buf: string, s: string, i: nat)
    requires i < |s| && (s[i] == '.' || IsWord(s[i]))
    ensures (buf + [s[i]]) + NameText(s[i + 1..]) == buf + NameText(s[i..])
  {
    SkipOne(s, i);
    Assoc(buf, [s[i]], NameText(s[i + 1..]));
  }

  lemma {:induction false} NameTextEnds(s: string, i: nat)
    requires i < |s| && s[i] != '.' && !IsWord(s[i])
    ensures NameText(s[i..]) == if IsQuote(s[i]) then QuotedName(s[i + 1..], s[i]) else []
  {
    SkipOne(s, i);
  }

  lemma {:induction false} NameTextAtEnd(buf: string, s: string)
    ensures buf + NameText(s[|s|..]) == buf
  {
    assert s[|s|..] == [];
  }

  method TakeQuoted(chars: string, from: nat, q: char) returns (buf: string, i: nat)
    requires from <= |chars|
    ensures buf == UpTo(chars[from..], q) && i == from + |buf|
  {
    buf, i := [], from;
    while i < |chars| && chars[i] != q
      invariant from <= i <= |chars| && i == from + |buf|
      invariant buf + UpTo(chars[i..], q) == UpTo(chars[from..], q)
    {
      UpToStep(buf, chars, i, q);
      buf := buf + [chars[i]];
      i := i + 1;
    }
  }

  method TakeNameRun(chars: string, from: nat) returns (buf: string)
    requires from <= |chars|
    ensures buf == NameRun(chars[from..])
  {
    buf := [];
    var i := from;
    while i < |chars| && (IsWord(chars[i]) || IsQuote(chars[i]))
      invariant from <= i <= |chars|
      invariant buf + NameRun(chars[i..]) == NameRun(chars[from..])
    {
      NameRunStep(buf, chars, i);
      buf := buf + [chars[i]];
      i := i + 1;
    }
  }

  method TakeQuotedName(chars: string, from: nat, q: char) returns (buf: string)
    requires from <= |chars|
    ensures buf == QuotedName(chars[from..], q)
  {
    var i;
    buf, i := TakeQuoted(chars, from, q);
    i := i + 1;
    if i < |chars| && chars[i] == '.' {
      var more := TakeNameRun(chars, i + 1);
      buf := buf + (['.'] + more);
    }
  }

  method SkipSpaces(chars: string) returns (i: nat)
    ensures i <= |chars| && chars[i..] == TrimStart(chars, SPACES)
  {
    i := 0;
    while i < |chars| && chars[i] in SPACES
      invariant i <= |chars| && TrimStart(chars[i..], SPACES) == TrimStart(chars, SPACES)
    {
      SkipOne(chars, i);
      i := i + 1;
    }
  }

  /** What a character that is neither a dot nor part of a name ends or opens. */
  method TakeNameEnd(chars: string, i: nat) returns (buf: string)
    requires i < |chars| && chars[i] != '.' && !IsWord(chars[i])
    ensures buf == NameText(chars[i..])
  {
    NameTextEnds(chars, i);
    buf := [];
    if IsQuote(chars[i]) {
      buf := TakeQuotedName(chars, i + 1, chars[i]);
    }
  }

  method TakeName(chars: string, from: nat) returns (buf: string)
    requires from <= |chars|
    ensures buf == NameText(chars[from..])
  {
    buf := [];
    var i := from;
    while i < |chars|
      invariant from <= i <= |chars|
      invariant buf + NameText(chars[i..]) == NameText(chars[from..])
    {
      var c := chars[i];
      if c == '.' || IsWord(c) {
        NameTextStep(buf, chars, i);
        buf := buf + [c];
        i := i + 1;
      } else {
        var rest := TakeNameEnd(chars, i);
        return buf + rest;
      }
    }
    NameTextAtEnd(buf, chars);
  }

  method FirstTableToken(chars: string) returns (name: Option<string>)
    ensures name == FirstName(chars)
  {
    var i := SkipSpaces(chars);
    var buf := TakeName(chars, i);
    var last := LastComponent(buf);
    if last == [] {
      return None;
    }
    return Some(Trim(last, QUOTES));
  }

  // ------------------------------------------------------------------ names are read back

  predicate AllIn(s: string, cs: set<char>) { s == [] || (s[0] in cs && AllIn(s[1..], cs)) }

  lemma {:induction false} TrimStartDrops(spaces: string, s: string, cs: set<char>)
    requires AllIn(spaces, cs)
    requires s == [] || s[0] !in cs
    ensures TrimStart(spaces + s, cs) == s
  {
    if spaces == [] {
      assert spaces + s == s;
    } else {
      TrimStartDrops(spaces[1..], s, cs);
      assert (spaces + s)[1..] == spaces[1..] + s;
    }
  }

  lemma {:induction false} LastComponentOf(path: string, name: string)
    requires '.' !in name
    requires path == [] || path[|path| - 1] == '.'
    ensures LastComponent(path + name) == name
  {
    if path == [] {
      assert path + name == name;
    } else {
      assert (path + name)[1..] == path[1..] + name;
      LastComponentOf(path[1..], name);
      if |path| > 1 {
        assert (path + name)[1..][|path| - 2] == '.';
      }
    }
  }

  predicate Dotted(s: string) { s == [] || ((s[0] == '.' || IsWord(s[0])) && Dotted(s[1..])) }

  lemma {:induction false} WordsOnly(name: string, c: char)
    requires AllWord(name) && !IsWord(c)
    ensures c !in name
  {
    if name != [] {
      WordsOnly(name[1..], c);
      assert name == [name[0]] + name[1..];
    }
  }

  lemma {:induction false} DottedName(path: string, name: string)
    requires Dotted(path) && AllWord(name)
    ensures Dotted(path + name)
  {
    if path != [] {
      DottedName(path[1..], name);
      assert (path + name)[1..] == path[1..] + name;
    } else if name != [] {
      DottedName([], name[1..]);
      assert path + name == name && [] + name[1..] == name[1..];
    }
  }

  predicate EndsName(rest: string) {
    rest == [] || !(rest[0] == '.' || IsWord(rest[0]) || IsQuote(rest[0]))
  }

  lemma {:induction false} NameTextOf(name: string, rest: string)
    requires Dotted(name) && EndsName(rest)
    ensures NameText(name + rest) == name
  {
    if name == [] {
      assert name + rest == rest;
    } else {
      NameTextOf(name[1..], rest);
      assert (name + rest)[1..] == name[1..] + rest;
      assert [name[0]] + name[1..] == name;
    }
  }

  lemma {:induction false} WordsNotTrimmed(name: string)
    requires AllWord(name) && name != []
    ensures Trim(name, QUOTES) == name
  {
    WordsOnly(name, '"');
    WordsOnly(name, '`');
    assert name[0] in name && name[|name| - 1] in name;
  }

  lemma {:induction false} SpacesFirst(c: char)
    requires c == '.' || IsWord(c) || IsQuote(c)
    ensures c !in SPACES
  {
    SpaceClass(c);
  }

  /** A plain name, with or without a schema in front, is read back. */
  lemma {:induction false} PlainNameIsRead(spaces: string, path: string, name: string, rest: string)
    requires AllIn(spaces, SPACES) && Dotted(path) && AllWord(name) && name != []
    requires path == [] || path[|path| - 1] == '.'
    requires EndsName(rest)
    ensures FirstName(spaces + (path + name + rest)) == Some(name)
  {
    var s := path + name + rest;
    assert s[0] == if path == [] then name[0] else path[0];
    SpacesFirst(s[0]);
    TrimStartDrops(spaces, s, SPACES);
    DottedName(path, name);
    NameTextOf(path + name, rest);
    WordsOnly(name, '.');
    LastComponentOf(path, name);
    WordsNotTrimmed(name);
  }

  lemma {:induction false} UpToOf(body: string, q: char, rest: string)
    requires q !in body && (rest == [] || rest[0] == q)
    ensures UpTo(body + rest, q) == body
  {
    if body == [] {
      assert body + rest == rest;
    } else {
      UpToOf(body[1..], q, rest);
      assert (body + rest)[1..] == body[1..] + rest;
    }
  }

  lemma {:induction false} LastComponentShorter(s: string)
    requires '.' in s
    ensures |LastComponent(s)| < |s|
  {
    if '.' in s[1..] {
      LastComponentShorter(s[1..]);
    }
  }

  lemma {:induction false} TrimStartLength(s: string, cs: set<char>)
    ensures |TrimStart(s, cs)| <= |s|
  {
    if s != [] {
      TrimStartLength(s[1..], cs);
    }
  }

  predicate QuoteAtAnEnd(s: string) { s != [] && (IsQuote(s[0]) || IsQuote(s[|s| - 1])) }

  lemma {:induction false} QuotedTrim(s: string)
    ensures Trim(s, QUOTES) == s <==> !QuoteAtAnEnd(s)
  {
    if QuoteAtAnEnd(s) && IsQuote(s[|s| - 1]) {
      TrimStartLength(TrimEnd(s, QUOTES), QUOTES);
      assert |TrimEnd(s, QUOTES)| < |s|;
    }
  }

  lemma {:induction false} QuotedNameText(q: char, name: string, rest: string)
    requires IsQuote(q) && q !in name
    requires rest == [] || rest[0] != '.'
    ensures NameText([q] + (name + ([q] + rest))) == name
  {
    var body := name + ([q] + rest);
    UpToOf(name, q, [q] + rest);
    assert ([q] + body)[1..] == body;
    if |name| + 1 < |body| {
      assert body[|name| + 1] == rest[0];
    }
  }

  lemma {:induction false} TrimmedComponent(name: string)
    ensures var last := LastComponent(name);
            (last != [] && Trim(last, QUOTES) == name) <==> name != [] && '.' !in name && !QuoteAtAnEnd(name)
  {
    var last := LastComponent(name);
    if '.' in name {
      LastComponentShorter(name);
      TrimStartLength(TrimEnd(last, QUOTES), QUOTES);
    } else {
      QuotedTrim(name);
    }
  }

  /**
   A quoted name is read back exactly when it has no dot, which would cut it, and neither begins
   nor ends with the other kind of quote, which would be trimmed.
   */
  lemma {:induction false} QuotedNameIsRead(spaces: string, q: char, name: string, rest: string)
    requires AllIn(spaces, SPACES) && IsQuote(q) && q !in name
    requires rest == [] || rest[0] != '.'
    ensures FirstName(spaces + ([q] + (name + ([q] + rest)))) == Some(name)
            <==> name != [] && '.' !in name && !QuoteAtAnEnd(name)
  {
    SpacesFirst(q);
    TrimStartDrops(spaces, [q] + (name + ([q] + rest)), SPACES);
    QuotedNameText(q, name, rest);
    TrimmedComponent(name);
  }

  lemma {:induction false} NameRunOf(name: string, q: char, rest: string)
    requires AllWord(name) && IsQuote(q) && (rest == [] || !(IsWord(rest[0]) || IsQuote(rest[0])))
    ensures NameRun(name + ([q] + rest)) == name + [q]
  {
    var s := name + ([q] + rest);
    if name == [] {
      assert s == [q] + rest && s[1..] == rest;
    } else {
      NameRunOf(name[1..], q, rest);
      assert s[1..] == name[1..] + ([q] + rest);
      assert [name[0]] + (name[1..] + [q]) == name + [q];
    }
  }

  lemma {:induction false} QuotedPathText(q: char, schema: string, name: string, rest: string)
    requires IsQuote(q) && q !in schema && AllWord(name)
    requires rest == [] || !(IsWord(rest[0]) || IsQuote(rest[0]))
    ensures QuotedName(schema + ([q, '.', q] + (name + ([q] + rest))), q) == schema + ['.'] + ([q] + (name + [q]))
  {
    var behind := name + ([q] + rest);
    var s := schema + ([q, '.', q] + behind);
    UpToOf(schema, q, [q, '.', q] + behind);
    assert s[|schema| + 1] == '.' && s[|schema| + 2..] == [q] + behind;
    assert ([q] + behind)[1..] == behind;
    NameRunOf(name, q, rest);
    Assoc(schema, ['.'], [q] + (name + [q]));
  }

  lemma {:induction false} QuotesTrimmed(q: char, name: string)
    requires IsQuote(q) && AllWord(name) && name != []
    ensures Trim([q] + (name + [q]), QUOTES) == name
  {
    var s := [q] + (name + [q]);
    WordsOnly(name, '"');
    WordsOnly(name, '`');
    assert s[..|s| - 1] == [q] + name && ([q] + name)[1..] == name;
    assert name[0] in name && name[|name| - 1] in name;
    assert TrimEnd(s, QUOTES) == TrimEnd([q] + name, QUOTES);
    assert ([q] + name)[|name|] == name[|name| - 1];
    assert TrimStart([q] + name, QUOTES) == TrimStart(name, QUOTES);
  }

  /** Of `"schema"."name"` the name is read. */
  lemma {:induction false} QuotedPathIsRead(spaces: string, q: char, schema: string, name: string, rest: string)
    requires AllIn(spaces, SPACES) && IsQuote(q) && q !in schema && AllWord(name) && name != []
    requires rest == [] || !(IsWord(rest[0]) || IsQuote(rest[0]))
    ensures FirstName(spaces + ([q] + (schema + ([q, '.', q] + (name + ([q] + rest)))))) == Some(name)
  {
    var body := schema + ([q, '.', q] + (name + ([q] + rest)));
    SpacesFirst(q);
    TrimStartDrops(spaces, [q] + body, SPACES);
    assert ([q] + body)[1..] == body;
    QuotedPathText(q, schema, name, rest);
    var last := [q] + (name + [q]);
    WordsOnly(name, '.');
    assert '.' !in last;
    LastComponentOf(schema + ['.'], last);
    QuotesTrimmed(q, name);
  }

  // ------------------------------------------------------------------ the search

  type Needle = s: string | s != [] witness "F"

  /** The first position from `start` on at which `p` occurs. */
  function FindFrom(p: Needle, s: string, start: nat): (r: Option<nat>)
    requires start <= |s|
    ensures r.Some? ==> start <= r.value && r.value + |p| <= |s| && OccursAt(p, s, r.value)
    decreases |s| - start
  {
    if start == |s| then None
    else if OccursAt(p, s, start) then Some(start)
    else FindFrom(p, s, start + 1)
  }

  /** The positions from `start` on at which a search that skips each hit finds `p`. */
  function Hits(p: Needle, s: string, start: nat): List<nat>
    requires start <= |s|
    decreases |s| - start
  {
    match FindFrom(p, s, start)
    case None => Nil
    case Some(k) => Cons(k, Hits(p, s, k + |p|))
  }

  /** All positions from `start` on at which `p` occurs. */
  function Positions(p: Needle, s: string, start: nat): List<nat>
    requires start <= |s|
    decreases |s| - start
  {
    if start == |s| then Nil
    else if OccursAt(p, s, start) then Cons(start, Positions(p, s, start + 1))
    else Positions(p, s, start + 1)
  }

  /** The tables named `len` characters behind the positions. */
  function TablesBehind(sql: string, at: List<nat>, len: nat): List<string> {
    match at
    case Nil => Nil
    case Cons(k, rest) =>
      var more := TablesBehind(sql, rest, len);
      if k + len > |sql| then more
      else match FirstName(sql[k + len..])
        case None => more
        case Some(t) => Cons(t, more)
  }

  function TablesOf(sql: string, p: Needle): List<string> {
    TablesBehind(sql, Hits(p, Upper(sql), 0), |p|)
  }

  /** The tables named behind all occurrences of `p`, in order. */
  function TablesBehindAll(sql: string, p: Needle): List<string> {
    TablesBehind(sql, Positions(p, Upper(sql), 0), |p|)
  }

  function TablesOfEach(sql: string, needles: List<Needle>): List<string> {
    match needles
    case Nil => Nil
    case Cons(p, rest) => Append(TablesOf(sql, p), TablesOfEach(sql, rest))
  }

  function Needles(): List<Needle> {
    Cons("FROM", Cons("JOIN", Joins()))
  }

  function Joins(): List<Needle> {
    Cons("INNER JOIN", Cons("LEFT JOIN", Cons("RIGHT JOIN", Cons("CROSS JOIN", Nil))))
  }

  lemma {:induction false} TablesStep(sql: string, k: nat, rest: List<nat>, len: nat, before: List<string>)
    requires k + len <= |sql|
    ensures var t := FirstName(sql[k + len..]);
            Append(if t.Some? then Append(before, Cons(t.value, Nil)) else before, TablesBehind(sql, rest, len))
            == Append(before, TablesBehind(sql, Cons(k, rest), len))
  {
    var t := FirstName(sql[k + len..]);
    var tail := TablesBehind(sql, rest, len);
    if t.Some? {
      AppendAssoc(before, Cons(t.value, Nil), tail);
      assert Append(Cons(t.value, Nil), tail) == Cons(t.value, Append(Nil, tail));
    }
  }

  /** Search for one needle, skipping each hit. */
  method AddTablesOf(sql: string, upper: string, p: Needle, before: List<string>) returns (tables: List<string>)
    requires upper == Upper(sql)
    ensures tables == Append(before, TablesOf(sql, p))
  {
    tables := before;
    var start := 0;
    var pos := FindFrom(p, upper, start);
    while pos.Some?
      invariant start <= |sql| && pos == FindFrom(p, upper, start)
      invariant Append(tables, TablesBehind(sql, Hits(p, upper, start), |p|)) == Append(before, TablesOf(sql, p))
      decreases |sql| - start
    {
      var after := pos.value + |p|;
      TablesStep(sql, pos.value, Hits(p, upper, after), |p|, tables);
      var t := FirstTableToken(sql[after..]);
      if t.Some? {
        tables := Append(tables, Cons(t.value, Nil));
      }
      start := after;
      pos := FindFrom(p, upper, start);
    }
    AppendNil(tables);
  }

  method SqliteTablesInQuery(sql: string) returns (tables: List<string>)
    ensures tables == TablesOfEach(sql, Needles())
  {
    var upper := Upper(sql);
    tables := Nil;
    var needles := Needles();
    while needles.Cons?
      invariant Append(tables, TablesOfEach(sql, needles)) == TablesOfEach(sql, Needles())
      decreases needles
    {
      AppendAssoc(tables, TablesOf(sql, needles.head), TablesOfEach(sql, needles.tail));
      tables := AddTablesOf(sql, upper, needles.head, tables);
      needles := needles.tail;
    }
    AppendNil(tables);
  }

  // ------------------------------------------------------------------ the search is complete

  /** The first character of `p` does not come again, so `p` cannot overlap itself. */
  ghost predicate Distinctive(p: Needle) { forall j :: 0 < j < |p| ==> p[j] != p[0] }

  lemma {:induction false} NoneBetween(p: Needle, s: string, a: nat, b: nat)
    requires a <= b <= |s| && forall j :: a <= j < b ==> !OccursAt(p, s, j)
    ensures Positions(p, s, a) == Positions(p, s, b)
    decreases b - a
  {
    if a < b {
      NoneBetween(p, s, a + 1, b);
    }
  }

  lemma {:induction false} NextPosition(p: Needle, s: string, start: nat)
    requires start <= |s|
    ensures Positions(p, s, start)
            == match FindFrom(p, s, start) case None => Nil case Some(k) => Cons(k, Positions(p, s, k + 1))
    decreases |s| - start
  {
    if start < |s| && !OccursAt(p, s, start) {
      NextPosition(p, s, start + 1);
    }
  }

  lemma {:induction false} NoOverlap(p: Needle, s: string, k: nat, j: nat)
    requires Distinctive(p) && OccursAt(p, s, k) && k < j < k + |p|
    ensures !OccursAt(p, s, j)
  {
    assert s[k + (j - k)] == p[j - k];
  }

  lemma {:induction false} SkipHit(p: Needle, s: string, k: nat)
    requires Distinctive(p) && OccursAt(p, s, k)
    ensures Positions(p, s, k + 1) == Positions(p, s, k + |p|)
  {
    forall j | k + 1 <= j < k + |p| ensures !OccursAt(p, s, j) {
      NoOverlap(p, s, k, j);
    }
    NoneBetween(p, s, k + 1, k + |p|);
  }

  /** The search finds every occurrence of a needle that cannot overlap itself. */
  lemma {:induction false} EveryOccurrenceIsFound(p: Needle, s: string, start: nat)
    requires Distinctive(p) && start <= |s|
    ensures Hits(p, s, start) == Positions(p, s, start)
    decreases |s| - start
  {
    NextPosition(p, s, start);
    match FindFrom(p, s, start)
    case None =>
    case Some(k) =>
      SkipHit(p, s, k);
      EveryOccurrenceIsFound(p, s, k + |p|);
  }

  /** `p` occurs at `k`, and `t` is the table named behind it. */
  ghost predicate Names(sql: string, p: Needle, k: nat, t: string) {
    k + |p| <= |sql| && OccursAt(p, Upper(sql), k) && FirstName(sql[k + |p|..]) == Some(t)
  }

  lemma ContainsBehind(sql: string, p: Needle, k: nat, rest: List<nat>, t: string)
    requires OccursAt(p, Upper(sql), k)
    ensures Contains(TablesBehind(sql, Cons(k, rest), |p|), t)
            <==> Names(sql, p, k, t) || Contains(TablesBehind(sql, rest, |p|), t)
  {
  }

  ghost predicate NamesFrom(sql: string, p: Needle, start: nat, t: string) {
    exists k :: start <= k && Names(sql, p, k, t)
  }

  lemma {:induction false} NamesFromHere(sql: string, p: Needle, start: nat, t: string)
    ensures NamesFrom(sql, p, start, t) <==> Names(sql, p, start, t) || NamesFrom(sql, p, start + 1, t)
  {
    if NamesFrom(sql, p, start, t) {
      var k :| start <= k && Names(sql, p, k, t);
      assert k == start || start + 1 <= k;
    }
    if NamesFrom(sql, p, start + 1, t) {
      var k :| start + 1 <= k && Names(sql, p, k, t);
      assert start <= k;
    }
  }

  lemma {:induction false} TablesOfPositions(sql: string, p: Needle, start: nat, t: string)
    requires start <= |sql|
    ensures Contains(TablesBehind(sql, Positions(p, Upper(sql), start), |p|), t) <==> NamesFrom(sql, p, start, t)
    decreases |sql| - start
  {
    if start < |sql| {
      TablesOfPositions(sql, p, start + 1, t);
      NamesFromHere(sql, p, start, t);
      if OccursAt(p, Upper(sql), start) {
        ContainsBehind(sql, p, start, Positions(p, Upper(sql), start + 1), t);
      }
    }
  }

  predicate AllOccur(p: Needle, s: string, at: List<nat>) {
    match at
    case Nil => true
    case Cons(k, rest) => OccursAt(p, s, k) && AllOccur(p, s, rest)
  }

  lemma {:induction false} HitsOccur(p: Needle, s: string, start: nat)
    requires start <= |s|
    ensures AllOccur(p, s, Hits(p, s, start))
    decreases |s| - start
  {
    match FindFrom(p, s, start)
    case None =>
    case Some(k) => HitsOccur(p, s, k + |p|);
  }

  lemma {:induction false} OccurringNames(sql: string, p: Needle, at: List<nat>, t: string)
    requires AllOccur(p, Upper(sql), at) && Contains(TablesBehind(sql, at, |p|), t)
    ensures NamesFrom(sql, p, 0, t)
  {
    match at
    case Nil =>
    case Cons(k, rest) =>
      ContainsBehind(sql, p, k, rest, t);
      if !Names(sql, p, k, t) {
        OccurringNames(sql, p, rest, t);
      }
  }

  /** A needle ending in `q` names nothing that `q` does not. */
  lemma {:induction false} LongerNames(sql: string, p: Needle, q: Needle, k: nat, t: string)
    requires |q| <= |p| && p[|p| - |q|..] == q && Names(sql, p, k, t)
    ensures Names(sql, q, k + |p| - |q|, t)
  {
    forall i | 0 <= i < |q| ensures Upper(sql)[k + |p| - |q| + i] == q[i] {
      assert q[i] == p[|p| - |q| + i];
    }
  }

  predicate AllEndIn(needles: List<Needle>, q: Needle) {
    match needles
    case Nil => true
    case Cons(p, rest) => |q| <= |p| && p[|p| - |q|..] == q && AllEndIn(rest, q)
  }

  lemma {:induction false} LongerAddNothing(sql: string, needles: List<Needle>, q: Needle, t: string)
    requires AllEndIn(needles, q) && Contains(TablesOfEach(sql, needles), t)
    ensures NamesFrom(sql, q, 0, t)
  {
    if needles.Cons? {
      var p := needles.head;
      ContainsAppend(TablesOf(sql, p), TablesOfEach(sql, needles.tail), t);
      if Contains(TablesOf(sql, p), t) {
        HitsOccur(p, Upper(sql), 0);
        OccurringNames(sql, p, Hits(p, Upper(sql), 0), t);
        var k :| 0 <= k && Names(sql, p, k, t);
        LongerNames(sql, p, q, k, t);
      } else {
        LongerAddNothing(sql, needles.tail, q, t);
      }
    }
  }

  lemma {:induction false} TablesOfDistinctive(sql: string, p: Needle, t: string)
    requires Distinctive(p)
    ensures TablesOf(sql, p) == TablesBehindAll(sql, p)
    ensures Contains(TablesOf(sql, p), t) <==> NamesFrom(sql, p, 0, t)
  {
    EveryOccurrenceIsFound(p, Upper(sql), 0);
    TablesOfPositions(sql, p, 0, t);
  }

  lemma {:induction false} TwoNeedlesSuffice(sql: string, from: Needle, join: Needle, joins: List<Needle>, t: string)
    requires Distinctive(from) && Distinctive(join) && AllEndIn(joins, join)
    ensures Contains(TablesOfEach(sql, Cons(from, Cons(join, joins))), t)
            <==> NamesFrom(sql, from, 0, t) || NamesFrom(sql, join, 0, t)
  {
    TablesOfDistinctive(sql, from, t);
    TablesOfDistinctive(sql, join, t);
    var more := TablesOfEach(sql, joins);
    ContainsAppend(TablesOf(sql, join), more, t);
    ContainsAppend(TablesOf(sql, from), Append(TablesOf(sql, join), more), t);
    if Contains(more, t) {
      LongerAddNothing(sql, joins, join, t);
    }
  }

  /** A query's tables are exactly those named behind some FROM or some JOIN. */
  lemma {:induction false} TablesAreExact(sql: string, t: string)
    ensures Contains(TablesOfEach(sql, Needles()), t)
            <==> NamesFrom(sql, "FROM", 0, t) || NamesFrom(sql, "JOIN", 0, t)
  {
    TwoNeedlesSuffice(sql, "FROM", "JOIN", Joins(), t);
  }

  lemma {:induction false} DistinctiveFirst(sql: string, p: Needle, rest: List<Needle>)
    requires Distinctive(p)
    ensures TablesOfEach(sql, Cons(p, rest)) == Append(TablesBehindAll(sql, p), TablesOfEach(sql, rest))
  {
    TablesOfDistinctive(sql, p, []);
  }

  lemma {:induction false} LastJoins(sql: string, left: Needle, right: Needle, cross: Needle)
    requires Distinctive(left) && Distinctive(right) && Distinctive(cross)
    ensures TablesOfEach(sql, Cons(left, Cons(right, Cons(cross, Nil))))
            == Append(TablesBehindAll(sql, left), Append(TablesBehindAll(sql, right), TablesBehindAll(sql, cross)))
  {
    DistinctiveFirst(sql, left, Cons(right, Cons(cross, Nil)));
    DistinctiveFirst(sql, right, Cons(cross, Nil));
    DistinctiveFirst(sql, cross, Nil);
    AppendNil(TablesBehindAll(sql, cross));
    assert TablesOfEach(sql, Nil) == Nil;
  }

  /** The joins that are looked for again, so that their tables are reported twice. */
  lemma {:induction false} JoinsAgain(sql: string)
    ensures TablesOfEach(sql, Joins())
            == Append(TablesOf(sql, "INNER JOIN"),
                      Append(TablesBehindAll(sql, "LEFT JOIN"),
                             Append(TablesBehindAll(sql, "RIGHT JOIN"), TablesBehindAll(sql, "CROSS JOIN"))))
  {
    LastJoins(sql, "LEFT JOIN", "RIGHT JOIN", "CROSS JOIN");
  }

  /** They begin with the ones behind each FROM, in order, then the ones behind each JOIN. */
  lemma {:induction false} TablesInOrder(sql: string)
    ensures TablesOfEach(sql, Needles())
            == Append(TablesBehindAll(sql, "FROM"), Append(TablesBehindAll(sql, "JOIN"), TablesOfEach(sql, Joins())))
  {
    DistinctiveFirst(sql, "FROM", Cons("JOIN", Joins()));
    DistinctiveFirst(sql, "JOIN", Joins());
  }

  /** Only FROM and JOIN count. */
  lemma {:induction false} TablesAreListed(sql: string, t: string)
    ensures Contains(TablesOfEach(sql, Needles()), t)
            <==> Contains(TablesBehindAll(sql, "FROM"), t) || Contains(TablesBehindAll(sql, "JOIN"), t)
  {
    ListedSuffice(sql, "FROM", "JOIN", Joins(), t);
  }

  lemma {:induction false} ListedSuffice(sql: string, from: Needle, join: Needle, joins: List<Needle>, t: string)
    requires Distinctive(from) && Distinctive(join) && AllEndIn(joins, join)
    ensures Contains(TablesOfEach(sql, Cons(from, Cons(join, joins))), t)
            <==> Contains(TablesBehindAll(sql, from), t) || Contains(TablesBehindAll(sql, join), t)
  {
    TwoNeedlesSuffice(sql, from, join, joins, t);
    TablesOfDistinctive(sql, from, t);
    TablesOfDistinctive(sql, join, t);
  }

  lemma {:induction false} KeywordOccurs(before: string, kw: string, p: Needle, rest: string)
    requires Upper(kw) == p
    ensures OccursAt(p, Upper(before + (kw + rest)), |before|)
    ensures (before + (kw + rest))[|before| + |p|..] == rest
  {
    var s := before + (kw + rest);
    forall i | 0 <= i < |p| ensures Upper(s)[|before| + i] == p[i] {
      assert s[|before| + i] == kw[i];
      assert Upper(kw)[i] == UpperChar(kw[i]);
    }
  }

  /** FROM in any mixture of cases. */
  predicate IsFrom(kw: string) {
    && |kw| == 4
    && (kw[0] == 'F' || kw[0] == 'f') && (kw[1] == 'R' || kw[1] == 'r')
    && (kw[2] == 'O' || kw[2] == 'o') && (kw[3] == 'M' || kw[3] == 'm')
  }

  lemma {:induction false} FromInUpper(kw: string)
    ensures Upper(kw) == "FROM" <==> IsFrom(kw)
  {
    if |kw| == 4 {
      assert Upper(kw) == [UpperChar(kw[0]), UpperChar(kw[1]), UpperChar(kw[2]), UpperChar(kw[3])];
    }
  }

  /**
   The name behind FROM is found whatever stands in front of it, also in the same word: of
   `date_from FROM t` both FROM and t are reported.
   */
  lemma {:induction false} NameBehindFrom(before: string, kw: string, path: string, name: string, rest: string)
    requires IsFrom(kw)
    requires Dotted(path) && (path == [] || path[|path| - 1] == '.')
    requires AllWord(name) && name != [] && EndsName(rest)
    ensures Contains(TablesOfEach(before + (kw + (" " + (path + name + rest))), Needles()), name)
  {
    var behind := " " + (path + name + rest);
    var sql := before + (kw + behind);
    SpaceClass(' ');
    assert AllIn(" ", SPACES) by { assert " "[1..] == []; }
    PlainNameIsRead(" ", path, name, rest);
    FromInUpper(kw);
    KeywordOccurs(before, kw, "FROM", behind);
    assert Names(sql, "FROM", |before|, name);
    assert NamesFrom(sql, "FROM", 0, name);
    TablesAreExact(sql, name);
  }
}
