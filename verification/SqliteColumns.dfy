/**
 The result columns of a SELECT, found by cutting its text at FROM and at commas.
 */
module SqliteColumns {
  import opened Wrappers
  import opened Text
  import opened SqliteTables

  function FindLast(p: string, s: string): (r: Option<nat>)
    ensures r.Some? ==> r.value + |p| <= |s|
  {
    if s == [] then (if p == [] then Some(0) else None)
    else
      match FindLast(p, s[1..])
      case Some(k) => Some(k + 1)
      case None => if p <= s then Some(0) else None
  }

  function SplitAtCommas(s: string): (parts: List<string>)
    ensures parts.Cons?
  {
    if s == [] then Cons([], Nil)
    else if s[0] == ',' then Cons([], SplitAtCommas(s[1..]))
    else
      var parts := SplitAtCommas(s[1..]);
      Cons([s[0]] + parts.head, parts.tail)
  }

  const SELECT: string := "SELECT"
  const FROM: string := " FROM "
  const AS: string := " AS "
  const ENDS: set<char> := {' ', ';'}
  const MARKS: set<char> := {'"', '`', '\'', ' '}

  /** The last component of a column, or its alias. */
  function Label(part: string): string {
    match FindLast(AS, Upper(part))
    case Some(k) => Trim(part[k + 4..], SPACES)
    case None => Trim(LastComponent(TrimEnd(part, ENDS)), SPACES)
  }

  function ColumnName(part: string): Option<string> {
    var name := Trim(Label(Trim(part, SPACES)), MARKS);
    if name == [] || '(' in name || '*' in name then None else Some(name)
  }

  function ColumnNames(parts: List<string>): List<Option<string>> {
    match parts
    case Nil => Nil
    case Cons(part, rest) => Cons(ColumnName(part), ColumnNames(rest))
  }

  lemma {:induction false} FromBehindSelect(u: string, k: nat)
    requires SELECT <= u && OccursAt(FROM, u, k)
    ensures |SELECT| <= k
  {
    assert FROM[0] == ' ' && u[k + 0] == FROM[0];
  }

  /** What stands between SELECT and the first FROM. */
  function SelectList(trimmed: string): string
    requires SELECT <= Upper(trimmed)
  {
    var from := Find(FROM, Upper(trimmed));
    FindIsFirst(FROM, Upper(trimmed));
    if from.Some? then
      FromBehindSelect(Upper(trimmed), from.value);
      trimmed[6..from.value]
    else
      trimmed[6..]
  }

  function ResultColumnNames(sql: string): List<Option<string>> {
    var trimmed := Trim(sql, SPACES);
    if SELECT <= Upper(trimmed) then ColumnNames(SplitAtCommas(SelectList(trimmed))) else Nil
  }

  // ------------------------------------------------------------------ a printed SELECT

  /** `path` is a schema and table in front of the column, up to its last dot, or empty. */
  datatype Item =
    | Column(path: string, name: string)
    | Aliased(path: string, name: string, alias: string)

  predicate WellFormed(it: Item) {
    && Dotted(it.path) && (it.path == [] || it.path[|it.path| - 1] == '.')
    && AllWord(it.name) && it.name != []
    && (it.Aliased? ==> AllWord(it.alias) && it.alias != [])
  }

  predicate AllWellFormed(items: List<Item>) {
    match items
    case Nil => true
    case Cons(it, rest) => WellFormed(it) && AllWellFormed(rest)
  }

  function Ref(it: Item): string { it.path + it.name }

  function Shown(it: Item): string { if it.Aliased? then it.alias else it.name }

  function ShownNames(items: List<Item>): List<Option<string>> {
    match items
    case Nil => Nil
    case Cons(it, rest) => Cons(Some(Shown(it)), ShownNames(rest))
  }

  function AliasText(it: Item): string { if it.Aliased? then AS + it.alias else [] }

  function Listing(items: List<Item>, table: string): string
    requires items.Cons?
    decreases items, 0
  {
    [' '] + (Ref(items.head) + (AliasText(items.head) + After(items.tail, table)))
  }

  function After(items: List<Item>, table: string): string
    decreases items, 1
  {
    if items.Nil? then FROM + table else [','] + Listing(items, table)
  }

  /** `SELECT a, t.b, c AS d FROM table` */
  function Printed(items: List<Item>, table: string): string
    requires items.Cons?
  {
    SELECT + Listing(items, table)
  }

  /** An unqualified identifier FROM stands where a space follows it. */
  predicate LooseFrom(items: List<Item>) {
    match items
    case Nil => false
    case Cons(it, rest) =>
      || (IsFrom(Ref(it)) && (it.Aliased? || rest.Nil?))
      || (it.Aliased? && IsFrom(it.alias) && rest.Nil?)
      || LooseFrom(rest)
  }

  // ------------------------------------------------------------------ cutting at FROM

  /** The text before the first FROM between spaces. */
  function Cut(s: string): string {
    match Find(FROM, Upper(s))
    case Some(k) => s[..k]
    case None => s
  }

  predicate FromFollows(s: string) { "FROM " <= Upper(s) }

  lemma {:induction false} UpperTail(c: char, s: string)
    ensures Upper([c] + s) == [UpperChar(c)] + Upper(s)
  {
    assert ([c] + s)[1..] == s;
  }

  lemma {:induction false} FromStarts(c: char, s: string)
    ensures FROM <= Upper([c] + s) <==> c == ' ' && FromFollows(s)
  {
    UpperTail(c, s);
    assert FROM == [' '] + "FROM ";
    if FROM <= Upper([c] + s) {
      assert UpperChar(c) == ' ';
      assert Upper(s) == Upper([c] + s)[1..];
    }
  }

  lemma {:induction false} CutOne(c: char, s: string)
    ensures Cut([c] + s) == if c == ' ' && FromFollows(s) then [] else [c] + Cut(s)
  {
    FromStarts(c, s);
    UpperTail(c, s);
    assert Upper([c] + s)[1..] == Upper(s);
  }

  lemma {:induction false} CutWord(w: string, s: string)
    requires ' ' !in w
    ensures Cut(w + s) == w + Cut(s)
  {
    if w == [] {
      assert w + s == s;
    } else {
      HeadTail(w, s);
      CutOne(w[0], w[1..] + s);
      CutWord(w[1..], s);
      HeadTail(w, Cut(s));
    }
  }

  /** FROM follows exactly when the next word is FROM and ends with a space. */
  lemma {:induction false} FromIsNextWord(w: string, rest: string)
    requires ' ' !in w && rest != [] && (rest[0] == ' ' || rest[0] == ',')
    ensures FromFollows(w + rest) <==> IsFrom(w) && rest[0] == ' '
  {
    var s := w + rest;
    var u := Upper(s);
    FromInUpper(w);
    assert s[|w|] == rest[0] && u[|w|] == rest[0];
    if FromFollows(s) {
      assert u[0] == 'F' && u[1] == 'R' && u[2] == 'O' && u[3] == 'M' && u[4] == ' ';
      assert |w| <= 4;
      assert |w| == 4;
      assert Upper(w) == u[..4];
    }
    if IsFrom(w) && rest[0] == ' ' {
      assert |w| == 4;
      assert u[..4] == Upper(w);
      assert u[..5] == u[..4] + [' '];
    }
  }

  lemma {:induction false} DottedClean(s: string, c: char)
    requires Dotted(s) && c != '.' && !IsWord(c)
    ensures c !in s
  {
    if s != [] {
      DottedClean(s[1..], c);
      assert s == [s[0]] + s[1..];
    }
  }

  // ------------------------------------------------------------------ one part

  lemma {:induction false} LastOfNone(p: string, s: string)
    requires p != [] && p[0] !in s
    ensures FindLast(p, s).None?
  {
    if s != [] {
      LastOfNone(p, s[1..]);
    }
  }

  lemma {:induction false} UpperFree(s: string)
    requires ' ' !in s
    ensures ' ' !in Upper(s)
  {
    forall i | 0 <= i < |s| ensures Upper(s)[i] != ' ' {
    }
  }

  /** An occurrence that is last stays last behind any text. */
  lemma {:induction false} LastBehind(p: string, u: string, s: string)
    requires FindLast(p, s) == Some(0)
    ensures FindLast(p, u + s) == Some(|u|)
  {
    if u == [] {
      assert u + s == s;
    } else {
      LastBehind(p, u[1..], s);
      assert (u + s)[1..] == u[1..] + s;
    }
  }

  lemma {:induction false} NoLastBehind(a: string)
    requires ' ' !in a
    ensures FindLast(AS, AS + a) == Some(0)
  {
    LastOfNone(AS, a);
    var s := [' '] + a;
    assert s[1..] == a;
    if |a| >= 3 {
      assert s[3] == a[2] && a[2] in a;
      assert s[3] != AS[3];
    }
    assert !(AS <= s);
    assert FindLast(AS, s).None?;
    assert ("S" + s)[1..] == s && ("AS" + s)[1..] == "S" + s;
    assert FindLast(AS, "S" + s).None?;
    assert FindLast(AS, "AS" + s).None?;
    assert (AS + a)[1..] == "AS" + s;
  }

  lemma TrimKeeps(s: string, cs: set<char>)
    requires s == [] || (s[0] !in cs && s[|s| - 1] !in cs)
    ensures Trim(s, cs) == s
  {
  }

  lemma {:induction false} TrimDropsFirst(s: string, cs: set<char>)
    requires s != [] && ' ' in cs && s[0] !in cs && s[|s| - 1] !in cs
    ensures Trim([' '] + s, cs) == s
  {
    var all := [' '] + s;
    assert all[|all| - 1] == s[|s| - 1];
    assert all[1..] == s;
    assert TrimStart(all, cs) == TrimStart(s, cs);
  }

  /** A character that no trimming removes from an end. */
  predicate Solid(c: char) { c == '.' || IsWord(c) }

  lemma {:induction false} SolidKept(c: char)
    requires Solid(c)
    ensures c !in SPACES && c !in ENDS && c !in MARKS && c != ',' && c != '(' && c != '*' && c != ' '
    ensures ' ' in SPACES
  {
    SpaceClass(c);
    SpaceClass(' ');
  }

  lemma {:induction false} DottedSolid(s: string, i: nat)
    requires Dotted(s) && i < |s|
    ensures Solid(s[i])
  {
    if i > 0 {
      DottedSolid(s[1..], i - 1);
    }
  }

  lemma {:induction false} WordsDotted(s: string)
    requires AllWord(s)
    ensures Dotted(s)
  {
    if s != [] {
      WordsDotted(s[1..]);
    }
  }

  lemma {:induction false} RefDotted(it: Item)
    requires WellFormed(it)
    ensures Dotted(Ref(it)) && Ref(it) != []
  {
    DottedName(it.path, it.name);
  }

  /** A name is left alone by everything that happens to it. */
  lemma {:induction false} NameKept(name: string)
    requires AllWord(name) && name != []
    ensures Trim(name, SPACES) == name && Trim(name, MARKS) == name
    ensures '(' !in name && '*' !in name && ' ' !in name && ',' !in name && '.' !in name
  {
    WordsDotted(name);
    DottedSolid(name, 0);
    DottedSolid(name, |name| - 1);
    SolidKept(name[0]);
    SolidKept(name[|name| - 1]);
    TrimKeeps(name, SPACES);
    TrimKeeps(name, MARKS);
    WordsOnly(name, '(');
    WordsOnly(name, '*');
    WordsOnly(name, ' ');
    WordsOnly(name, ',');
    WordsOnly(name, '.');
  }

  lemma {:induction false} TrimPart(s: string)
    requires s != [] && Solid(s[0]) && Solid(s[|s| - 1])
    ensures Trim([' '] + s, SPACES) == s && TrimEnd(s, ENDS) == s
  {
    SolidKept(s[0]);
    SolidKept(s[|s| - 1]);
    TrimDropsFirst(s, SPACES);
  }

  lemma {:induction false} TrimRef(it: Item)
    requires WellFormed(it)
    ensures Trim([' '] + Ref(it), SPACES) == Ref(it) && TrimEnd(Ref(it), ENDS) == Ref(it)
  {
    RefDotted(it);
    DottedSolid(Ref(it), 0);
    DottedSolid(Ref(it), |Ref(it)| - 1);
    TrimPart(Ref(it));
  }

  lemma {:induction false} NoAlias(part: string)
    requires ' ' !in part
    ensures FindLast(AS, Upper(part)).None?
  {
    UpperFree(part);
    LastOfNone(AS, Upper(part));
  }

  lemma {:induction false} NameOfLabel(part: string, name: string)
    requires Label(Trim(part, SPACES)) == name && AllWord(name) && name != []
    ensures ColumnName(part) == Some(name)
  {
    NameKept(name);
  }

  lemma {:induction false} ColumnHasNoAlias(it: Item)
    requires WellFormed(it)
    ensures FindLast(AS, Upper(Ref(it))).None?
  {
    RefDotted(it);
    DottedClean(Ref(it), ' ');
    NoAlias(Ref(it));
  }

  lemma {:induction false} ColumnComponent(it: Item)
    requires WellFormed(it)
    ensures Trim(LastComponent(Ref(it)), SPACES) == it.name
  {
    NameKept(it.name);
    LastComponentOf(it.path, it.name);
  }

  lemma {:induction false} LabelOfColumn(it: Item)
    requires WellFormed(it) && TrimEnd(Ref(it), ENDS) == Ref(it)
    ensures Label(Ref(it)) == it.name
  {
    ColumnHasNoAlias(it);
    ColumnComponent(it);
  }

  lemma {:induction false} ColumnIsRead(it: Item)
    requires WellFormed(it)
    ensures ColumnName([' '] + Ref(it)) == Some(it.name)
  {
    TrimRef(it);
    LabelOfColumn(it);
    NameOfLabel([' '] + Ref(it), it.name);
  }

  lemma UpperAppend(a: string, b: string)
    ensures Upper(a + b) == Upper(a) + Upper(b)
  {
  }

  lemma {:induction false} UpperAlias(ref: string, alias: string)
    ensures Upper(ref + (AS + alias)) == Upper(ref) + (AS + Upper(alias))
  {
    UpperAppend(ref, AS + alias);
    UpperAppend(AS, alias);
    assert Upper(AS) == AS;
  }

  lemma {:induction false} AliasPart(it: Item)
    requires WellFormed(it) && it.Aliased?
    ensures Trim([' '] + (Ref(it) + (AS + it.alias)), SPACES) == Ref(it) + (AS + it.alias)
  {
    var part := Ref(it) + (AS + it.alias);
    RefDotted(it);
    DottedSolid(Ref(it), 0);
    WordsDotted(it.alias);
    DottedSolid(it.alias, |it.alias| - 1);
    assert part[0] == Ref(it)[0] && part[|part| - 1] == it.alias[|it.alias| - 1];
    TrimPart(part);
  }

  lemma {:induction false} LastOfAlias(ref: string, alias: string)
    requires ' ' !in alias
    ensures FindLast(AS, Upper(ref + (AS + alias))) == Some(|ref|)
  {
    UpperAlias(ref, alias);
    UpperFree(alias);
    NoLastBehind(Upper(alias));
    LastBehind(AS, Upper(ref), AS + Upper(alias));
  }

  lemma {:induction false} LabelOfAlias(ref: string, alias: string)
    requires AllWord(alias) && alias != []
    ensures Label(ref + (AS + alias)) == alias
  {
    NameKept(alias);
    LastOfAlias(ref, alias);
    assert (ref + (AS + alias))[|ref| + 4..] == alias;
  }

  lemma {:induction false} AliasIsRead(it: Item)
    requires WellFormed(it) && it.Aliased?
    ensures ColumnName([' '] + (Ref(it) + (AS + it.alias))) == Some(it.alias)
  {
    AliasPart(it);
    LabelOfAlias(Ref(it), it.alias);
    NameOfLabel([' '] + (Ref(it) + (AS + it.alias)), it.alias);
  }

  lemma {:induction false} NoAliasAtCut(ref: string)
    requires ' ' !in ref
    ensures FindLast(AS, Upper(ref + " AS")).None?
  {
    UpperFree(ref);
    NoLastAtEnd(Upper(ref));
    UpperAppend(ref, " AS");
    assert Upper(" AS") == " AS";
  }

  lemma {:induction false} ComponentOfCut(it: Item)
    requires WellFormed(it)
    ensures LastComponent(Ref(it) + " AS") == it.name + " AS"
  {
    NameKept(it.name);
    Assoc(it.path, it.name, " AS");
    LastComponentOf(it.path, it.name + " AS");
  }

  lemma {:induction false} LabelOfCutAlias(it: Item)
    requires WellFormed(it) && TrimEnd(Ref(it) + " AS", ENDS) == Ref(it) + " AS"
    ensures Label(Ref(it) + " AS") == Trim(it.name + " AS", SPACES)
  {
    RefDotted(it);
    DottedClean(Ref(it), ' ');
    NoAliasAtCut(Ref(it));
    ComponentOfCut(it);
  }

  lemma {:induction false} CutLabelKept(name: string)
    requires AllWord(name) && name != []
    ensures Trim(name + " AS", SPACES) == name + " AS" && Trim(name + " AS", MARKS) == name + " AS"
  {
    var last := name + " AS";
    WordsDotted(name);
    DottedSolid(name, 0);
    assert last[0] == name[0] && last[|last| - 1] == 'S';
    SolidKept(last[0]);
    SolidKept('S');
    TrimKeeps(last, SPACES);
    TrimKeeps(last, MARKS);
  }

  lemma {:induction false} CutAliasPart(it: Item)
    requires WellFormed(it)
    ensures var part := Ref(it) + " AS";
            Trim([' '] + part, SPACES) == part && TrimEnd(part, ENDS) == part
  {
    var part := Ref(it) + " AS";
    RefDotted(it);
    DottedSolid(Ref(it), 0);
    assert part[0] == Ref(it)[0] && part[|part| - 1] == 'S';
    TrimPart(part);
  }

  /** Cut right behind AS, the part has no alias to read. */
  lemma {:induction false} CutAliasIsLost(it: Item)
    requires WellFormed(it) && it.Aliased?
    ensures ColumnName([' '] + (Ref(it) + " AS")) != Some(it.alias)
  {
    CutAliasPart(it);
    LabelOfCutAlias(it);
    CutLabelKept(it.name);
    assert (it.name + " AS")[|it.name|] == ' ';
    NameKept(it.alias);
  }

  lemma {:induction false} NoLastAtEnd(u: string)
    requires ' ' !in u
    ensures FindLast(AS, u + " AS").None?
  {
    if u == [] {
      assert u + " AS" == " AS" && " AS"[1..] == "AS";
      LastOfNone(AS, "AS");
    } else {
      NoLastAtEnd(u[1..]);
      assert (u + " AS")[1..] == u[1..] + " AS";
      assert (u + " AS")[0] == u[0];
    }
  }

  // ------------------------------------------------------------------ the whole list

  lemma {:induction false} CutSpaced(w: string, rest: string)
    requires ' ' !in w && rest != [] && (rest[0] == ' ' || rest[0] == ',')
    ensures Cut([' '] + (w + rest))
            == if IsFrom(w) && rest[0] == ' ' then [] else [' '] + (w + Cut(rest))
  {
    CutOne(' ', w + rest);
    FromIsNextWord(w, rest);
    CutWord(w, rest);
  }

  lemma AsText(s: string)
    ensures AS + s == [' '] + ("AS" + ([' '] + s))
  {
  }

  lemma {:induction false} CutBehindAs(s: string)
    ensures Cut(AS + s) == [' '] + ("AS" + Cut([' '] + s))
  {
    AsText(s);
    CutSpaced("AS", [' '] + s);
  }

  lemma {:induction false} CutAlias(alias: string, more: string)
    requires ' ' !in alias && more != [] && (more[0] == ' ' || more[0] == ',')
    ensures Cut((AS + alias) + more)
            == if IsFrom(alias) && more[0] == ' ' then " AS" else (AS + alias) + Cut(more)
  {
    Assoc(AS, alias, more);
    CutBehindAs(alias + more);
    CutSpaced(alias, more);
    if IsFrom(alias) && more[0] == ' ' {
      assert [' '] + ("AS" + []) == " AS";
    } else {
      AsText(alias + Cut(more));
      Assoc(AS, alias, Cut(more));
    }
  }

  /** How much of an item is left by the cut. */
  lemma {:induction false} CutItem(it: Item, more: string)
    requires WellFormed(it) && more != [] && (more[0] == ' ' || more[0] == ',')
    ensures Cut([' '] + (Ref(it) + (AliasText(it) + more)))
            == if IsFrom(Ref(it)) && (it.Aliased? || more[0] == ' ') then []
               else if it.Aliased? && IsFrom(it.alias) && more[0] == ' ' then [' '] + (Ref(it) + " AS")
               else [' '] + (Ref(it) + (AliasText(it) + Cut(more)))
  {
    RefDotted(it);
    DottedClean(Ref(it), ' ');
    CutSpaced(Ref(it), AliasText(it) + more);
    if it.Aliased? {
      NameKept(it.alias);
      CutAlias(it.alias, more);
    } else {
      assert [] + more == more && [] + Cut(more) == Cut(more);
    }
  }

  lemma {:induction false} SplitWord(w: string, s: string)
    requires ',' !in w
    ensures SplitAtCommas(w + s) == Cons(w + SplitAtCommas(s).head, SplitAtCommas(s).tail)
  {
    if w == [] {
      assert w + s == s && w + SplitAtCommas(s).head == SplitAtCommas(s).head;
    } else {
      SplitWord(w[1..], s);
      assert (w + s)[1..] == w[1..] + s;
      assert [w[0]] + (w[1..] + SplitAtCommas(s).head) == w + SplitAtCommas(s).head;
    }
  }

  lemma {:induction false} OnePart(w: string)
    requires ',' !in w
    ensures SplitAtCommas(w) == Cons(w, Nil)
  {
    SplitWord(w, []);
    assert w + [] == w;
  }

  lemma {:induction false} NextPart(w: string, s: string)
    requires ',' !in w
    ensures SplitAtCommas(w + ([','] + s)) == Cons(w, SplitAtCommas(s))
  {
    SplitWord(w, [','] + s);
    assert ([','] + s)[1..] == s;
    assert w + [] == w;
  }

  function Part(it: Item): string { [' '] + (Ref(it) + AliasText(it)) }

  lemma {:induction false} PartIsRead(it: Item)
    requires WellFormed(it)
    ensures ColumnName(Part(it)) == Some(Shown(it)) && ',' !in Part(it)
  {
    RefDotted(it);
    DottedClean(Ref(it), ',');
    if it.Aliased? {
      NameKept(it.alias);
      AliasIsRead(it);
    } else {
      assert Ref(it) + [] == Ref(it);
      ColumnIsRead(it);
    }
  }

  lemma {:induction false} CutTable(table: string)
    ensures Cut(FROM + table) == []
  {
    assert FROM + table == [' '] + ("FROM " + table);
    UpperAppend("FROM ", table);
    assert Upper("FROM ") == "FROM ";
    CutOne(' ', "FROM " + table);
  }

  /** What the cut leaves of the last item. */
  function LeftOfLast(it: Item): string {
    if IsFrom(Ref(it)) then []
    else if it.Aliased? && IsFrom(it.alias) then [' '] + (Ref(it) + " AS")
    else Part(it)
  }

  lemma {:induction false} CutLast(it: Item, table: string)
    requires WellFormed(it)
    ensures Cut(Listing(Cons(it, Nil), table)) == LeftOfLast(it)
  {
    CutItem(it, FROM + table);
    CutTable(table);
    assert AliasText(it) + [] == AliasText(it);
  }

  lemma {:induction false} NoCommaLeft(it: Item)
    requires WellFormed(it)
    ensures ',' !in LeftOfLast(it)
  {
    if !IsFrom(Ref(it)) && it.Aliased? && IsFrom(it.alias) {
      RefDotted(it);
      DottedClean(Ref(it), ',');
    } else {
      PartIsRead(it);
    }
  }

  lemma {:induction false} ReadLast(it: Item)
    requires WellFormed(it)
    ensures ColumnName(LeftOfLast(it)) == Some(Shown(it)) <==> !LooseFrom(Cons(it, Nil))
  {
    if IsFrom(Ref(it)) {
      assert ColumnName([]) == None;
    } else if it.Aliased? && IsFrom(it.alias) {
      CutAliasIsLost(it);
    } else {
      PartIsRead(it);
    }
  }

  lemma {:induction false} LastItem(it: Item, table: string)
    requires WellFormed(it)
    ensures ColumnNames(SplitAtCommas(Cut(Listing(Cons(it, Nil), table)))) == ShownNames(Cons(it, Nil))
            <==> !LooseFrom(Cons(it, Nil))
  {
    CutLast(it, table);
    NoCommaLeft(it);
    ReadLast(it);
    OnePart(LeftOfLast(it));
  }

  lemma {:induction false} CutNext(it: Item, rest: List<Item>, table: string)
    requires WellFormed(it) && rest.Cons?
    ensures Cut(Listing(Cons(it, rest), table))
            == if it.Aliased? && IsFrom(Ref(it)) then [] else Part(it) + ([','] + Cut(Listing(rest, table)))
  {
    var more := [','] + Listing(rest, table);
    var behind := [','] + Cut(Listing(rest, table));
    CutOne(',', Listing(rest, table));
    CutItem(it, more);
    Assoc(Ref(it), AliasText(it), behind);
    Assoc([' '], Ref(it) + AliasText(it), behind);
  }

  lemma {:induction false} NextItem(it: Item, rest: List<Item>, table: string)
    requires WellFormed(it) && rest.Cons?
    ensures var names := ColumnNames(SplitAtCommas(Cut(Listing(Cons(it, rest), table))));
            var others := ColumnNames(SplitAtCommas(Cut(Listing(rest, table))));
            names == if it.Aliased? && IsFrom(Ref(it)) then Cons(None, Nil) else Cons(Some(Shown(it)), others)
  {
    CutNext(it, rest, table);
    PartIsRead(it);
    if it.Aliased? && IsFrom(Ref(it)) {
      OnePart([]);
    } else {
      NextPart(Part(it), Cut(Listing(rest, table)));
    }
  }

  lemma {:induction false} ListingIsRead(items: List<Item>, table: string)
    requires items.Cons? && AllWellFormed(items)
    ensures ColumnNames(SplitAtCommas(Cut(Listing(items, table)))) == ShownNames(items) <==> !LooseFrom(items)
  {
    var it, rest := items.head, items.tail;
    if rest.Nil? {
      LastItem(it, table);
    } else {
      NextItem(it, rest, table);
      ListingIsRead(rest, table);
    }
  }

  lemma {:induction false} ListingEndsInTable(items: List<Item>, table: string)
    requires items.Cons? && table != []
    ensures var s := Listing(items, table); s != [] && s[|s| - 1] == table[|table| - 1]
  {
    var it, rest := items.head, items.tail;
    var more := After(rest, table);
    if rest.Nil? {
      assert more == FROM + table;
    } else {
      ListingEndsInTable(rest, table);
      assert more == [','] + Listing(rest, table);
    }
    assert more != [] && more[|more| - 1] == table[|table| - 1];
  }

  lemma {:induction false} FoundBehindSelect(s: string)
    ensures Find(FROM, SELECT + s) == match Find(FROM, s) case Some(k) => Some(k + 6) case None => None
  {
    Shifted(SELECT, s);
  }

  lemma {:induction false} Shifted(w: string, s: string)
    requires ' ' !in w
    ensures Find(FROM, w + s) == match Find(FROM, s) case Some(k) => Some(k + |w|) case None => None
  {
    if w == [] {
      assert w + s == s;
    } else {
      Shifted(w[1..], s);
      assert (w + s)[1..] == w[1..] + s;
      assert (w + s)[0] != FROM[0];
    }
  }

  lemma {:induction false} UpperSelect(s: string)
    ensures Upper(SELECT + s) == SELECT + Upper(s)
  {
    UpperAppend(SELECT, s);
    assert Upper(SELECT) == SELECT;
  }

  lemma {:induction false} SelectListIsCut(s: string)
    ensures SELECT <= Upper(SELECT + s) && SelectList(SELECT + s) == Cut(s)
  {
    UpperSelect(s);
    FoundBehindSelect(Upper(s));
    match Find(FROM, Upper(s))
    case None => assert (SELECT + s)[6..] == s;
    case Some(k) => assert (SELECT + s)[6..k + 6] == s[..k];
  }

  lemma {:induction false} PrintedIsTrimmed(items: List<Item>, table: string)
    requires items.Cons?
    requires table != [] && table[|table| - 1] !in SPACES
    ensures Trim(Printed(items, table), SPACES) == Printed(items, table)
  {
    var s := Listing(items, table);
    ListingEndsInTable(items, table);
    SpaceClass('S');
    assert (SELECT + s)[0] == 'S' && (SELECT + s)[|SELECT + s| - 1] == s[|s| - 1];
    TrimKeeps(SELECT + s, SPACES);
  }

  /**
   The columns of a printed SELECT are read back in order exactly when no identifier FROM stands
   loose between spaces, where it would be taken for the keyword. A name AS does no harm.
   */
  lemma {:induction false} NamesAreReadBack(items: List<Item>, table: string)
    requires items.Cons? && AllWellFormed(items)
    requires table != [] && table[|table| - 1] !in SPACES
    ensures ResultColumnNames(Printed(items, table)) == ShownNames(items) <==> !LooseFrom(items)
  {
    PrintedIsTrimmed(items, table);
    SelectListIsCut(Listing(items, table));
    ListingIsRead(items, table);
  }

  // ------------------------------------------------------------------ other texts

  lemma {:induction false} PlainTrim(part: string)
    requires part != [] && Solid(part[0]) && part[|part| - 1] in {'*', ')'}
    ensures Trim([' '] + part, SPACES) == part && TrimEnd(part, ENDS) == part
  {
    SolidKept(part[0]);
    SpaceClass(part[|part| - 1]);
    TrimDropsFirst(part, SPACES);
  }

  lemma {:induction false} NameOfPlain(part: string, last: string)
    requires Trim([' '] + part, SPACES) == part && TrimEnd(part, ENDS) == part && ' ' !in part
    requires LastComponent(part) == last && Trim(last, SPACES) == last && Trim(last, MARKS) == last
    ensures ColumnName([' '] + part) == if last == [] || '(' in last || '*' in last then None else Some(last)
  {
    NoAlias(part);
  }

  lemma {:induction false} ClosedName(name: string)
    requires AllWord(name) && name != []
    ensures var last := name + ")";
            && Trim(last, SPACES) == last && Trim(last, MARKS) == last
            && ' ' !in last && '.' !in last && '(' !in last && '*' !in last
  {
    var last := name + ")";
    NameKept(name);
    WordsDotted(name);
    DottedSolid(name, 0);
    SolidKept(name[0]);
    SpaceClass(')');
    assert last[0] == name[0] && last[|last| - 1] == ')';
    TrimKeeps(last, SPACES);
    TrimKeeps(last, MARKS);
  }

  /** A call without an alias has no name, unless its argument is qualified: `count(t.id)` is read as `id)`. */
  lemma {:induction false} CallIsRead(fn: string, path: string, name: string)
    requires AllWord(fn) && fn != [] && AllWord(name) && name != []
    requires Dotted(path) && (path == [] || path[|path| - 1] == '.')
    ensures ColumnName([' '] + ((fn + "(" + path) + (name + ")"))) == if path == [] then None else Some(name + ")")
  {
    var last := name + ")";
    var front := fn + "(" + path;
    var part := front + last;
    WordsDotted(fn);
    DottedSolid(fn, 0);
    DottedClean(fn, ' ');
    DottedClean(path, ' ');
    ClosedName(name);
    assert part[0] == fn[0] && part[|part| - 1] == ')';
    PlainTrim(part);
    if path == [] {
      WordsOnly(fn, '.');
      assert part[|fn|] == '(';
      LastComponentOf([], part);
      assert [] + part == part;
      CallTrims(part);
      NameOfPlain(part, part);
    } else {
      assert front[|front| - 1] == '.';
      LastComponentOf(front, last);
      NameOfPlain(part, last);
    }
  }

  lemma {:induction false} CallTrims(part: string)
    requires part != [] && Solid(part[0]) && part[|part| - 1] in {'*', ')'}
    ensures Trim(part, SPACES) == part && Trim(part, MARKS) == part
  {
    SolidKept(part[0]);
    SpaceClass(part[|part| - 1]);
    TrimKeeps(part, SPACES);
    TrimKeeps(part, MARKS);
  }

  /** `*` and `t.*` have no name. */
  lemma {:induction false} StarIsSkipped(path: string)
    requires Dotted(path) && (path == [] || path[|path| - 1] == '.')
    ensures ColumnName([' '] + (path + "*")) == None
  {
    var part := path + "*";
    SpaceClass('*');
    SpaceClass(' ');
    DottedClean(path, ' ');
    if path != [] {
      DottedSolid(path, 0);
      SolidKept(path[0]);
    }
    assert part[0] == (if path == [] then '*' else path[0]) && part[|part| - 1] == '*';
    TrimDropsFirst(part, SPACES);
    LastComponentOf(path, "*");
    TrimKeeps("*", SPACES);
    TrimKeeps("*", MARKS);
    NameOfPlain(part, "*");
  }

  /** SELECT in any mixture of cases. */
  predicate IsSelect(kw: string) {
    && |kw| == 6
    && (kw[0] == 'S' || kw[0] == 's') && (kw[1] == 'E' || kw[1] == 'e') && (kw[2] == 'L' || kw[2] == 'l')
    && (kw[3] == 'E' || kw[3] == 'e') && (kw[4] == 'C' || kw[4] == 'c') && (kw[5] == 'T' || kw[5] == 't')
  }

  lemma {:induction false} SelectInUpper(s: string)
    ensures SELECT <= Upper(s) <==> |s| >= 6 && IsSelect(s[..6])
  {
    var u := Upper(s);
    if |s| >= 6 {
      assert u[..6] == [u[0], u[1], u[2], u[3], u[4], u[5]];
      assert SELECT == ['S', 'E', 'L', 'E', 'C', 'T'];
    }
  }

  /** A text that does not start with SELECT has no columns. */
  lemma {:induction false} OnlySelects(sql: string)
    requires sql == [] || sql[0] !in SPACES
    requires |sql| < 6 || !IsSelect(sql[..6])
    ensures ResultColumnNames(sql) == Nil
  {
    var trimmed := TrimEnd(sql, SPACES);
    assert Trim(sql, SPACES) == trimmed;
    SelectInUpper(trimmed);
    assert |trimmed| >= 6 ==> trimmed[..6] == sql[..6];
  }

  /** SELECT is recognised in any case. */
  lemma {:induction false} SelectInAnyCase(kw: string, s: string)
    requires IsSelect(kw) && s != [] && s[|s| - 1] !in SPACES
    ensures ResultColumnNames(kw + s) == ResultColumnNames(SELECT + s)
  {
    SelectTrimmed(kw, s);
    SelectTrimmed(SELECT, s);
    SelectInUpper(kw);
    assert kw[..6] == kw && Upper(kw) == SELECT;
    UpperAppend(kw, s);
    UpperSelect(s);
    SameList(kw, s);
  }

  lemma {:induction false} SelectTrimmed(kw: string, s: string)
    requires IsSelect(kw) && s != [] && s[|s| - 1] !in SPACES
    ensures Trim(kw + s, SPACES) == kw + s
  {
    SpaceClass(kw[0]);
    assert (kw + s)[0] == kw[0] && (kw + s)[|kw + s| - 1] == s[|s| - 1];
    TrimKeeps(kw + s, SPACES);
  }

  lemma {:induction false} SameList(kw: string, s: string)
    requires |kw| == 6 && SELECT <= Upper(kw + s) && Upper(kw + s) == Upper(SELECT + s)
    ensures SelectList(kw + s) == SelectList(SELECT + s)
  {
    var from := Find(FROM, Upper(kw + s));
    FindIsFirst(FROM, Upper(kw + s));
    if from.Some? {
      FromBehindSelect(Upper(kw + s), from.value);
      assert (kw + s)[6..from.value] == (SELECT + s)[6..from.value];
    } else {
      assert (kw + s)[6..] == s && (SELECT + s)[6..] == s;
    }
  }

  /** AS in any case. */
  lemma {:induction false} AliasInAnyCase(it: Item, a: char, s: char)
    requires WellFormed(it) && it.Aliased? && (a == 'A' || a == 'a') && (s == 'S' || s == 's')
    ensures ColumnName([' '] + (Ref(it) + ([' ', a, s, ' '] + it.alias))) == Some(it.alias)
  {
    var kw := [' ', a, s, ' '];
    var part := Ref(it) + (kw + it.alias);
    RefDotted(it);
    DottedSolid(Ref(it), 0);
    WordsDotted(it.alias);
    DottedSolid(it.alias, |it.alias| - 1);
    assert part[0] == Ref(it)[0] && part[|part| - 1] == it.alias[|it.alias| - 1];
    TrimPart(part);
    LabelInAnyCase(Ref(it), kw, it.alias);
    NameOfLabel([' '] + part, it.alias);
  }

  lemma {:induction false} LabelInAnyCase(ref: string, kw: string, alias: string)
    requires AllWord(alias) && alias != []
    requires |kw| == 4 && kw[0] == ' ' && kw[3] == ' '
    requires (kw[1] == 'A' || kw[1] == 'a') && (kw[2] == 'S' || kw[2] == 's')
    ensures Label(ref + (kw + alias)) == alias
  {
    NameKept(alias);
    LastOfAlias(ref, alias);
    SameUpper(ref, kw, alias);
    assert (ref + (kw + alias))[|ref| + 4..] == alias;
  }

  lemma {:induction false} SameUpper(ref: string, kw: string, alias: string)
    requires |kw| == 4 && kw[0] == ' ' && kw[3] == ' '
    requires (kw[1] == 'A' || kw[1] == 'a') && (kw[2] == 'S' || kw[2] == 's')
    ensures Upper(ref + (kw + alias)) == Upper(ref + (AS + alias))
  {
    assert Upper(kw) == [' ', 'A', 'S', ' '] && Upper(AS) == [' ', 'A', 'S', ' '];
    UpperAppend(kw, alias);
    UpperAppend(AS, alias);
    UpperAppend(ref, kw + alias);
    UpperAppend(ref, AS + alias);
  }

  lemma {:induction false} UncutPart(it: Item)
    requires WellFormed(it) && !it.Aliased?
    ensures Part(it) == [' '] + Ref(it) && Cut(Part(it)) == Part(it)
  {
    RefDotted(it);
    DottedClean(Ref(it), ' ');
    assert Ref(it) + [] == Ref(it);
    NoFromInside(Ref(it));
  }

  /** Without a FROM the list reaches to the end of the text. */
  lemma {:induction false} ColumnWithoutFrom(it: Item)
    requires WellFormed(it) && !it.Aliased?
    ensures ResultColumnNames(SELECT + Part(it)) == Cons(Some(it.name), Nil)
  {
    var s := Part(it);
    RefDotted(it);
    UncutPart(it);
    DottedSolid(Ref(it), |Ref(it)| - 1);
    SolidKept(s[|s| - 1]);
    PartAlone(it, s);
  }

  lemma {:induction false} NamesOfSelect(s: string)
    requires s != [] && s[|s| - 1] !in SPACES
    ensures ResultColumnNames(SELECT + s) == ColumnNames(SplitAtCommas(Cut(s)))
  {
    SelectTrimmed(SELECT, s);
    SelectListIsCut(s);
  }

  lemma {:induction false} PartAlone(it: Item, s: string)
    requires WellFormed(it) && !it.Aliased? && s == Part(it) && Cut(s) == s && s[|s| - 1] !in SPACES
    ensures ResultColumnNames(SELECT + s) == Cons(Some(it.name), Nil)
  {
    NamesOfSelect(s);
    PartIsRead(it);
    OnePart(s);
    assert ColumnNames(Nil) == Nil;
  }

  lemma {:induction false} NoFromInside(w: string)
    requires ' ' !in w
    ensures Cut([' '] + w) == [' '] + w
  {
    CutOne(' ', w);
    UpperFree(w);
    assert |w| > 4 ==> Upper(w)[4] in Upper(w);
    assert "FROM "[4] == ' ';
    CutWord(w, []);
    assert w + [] == w && w + Cut([]) == w;
  }
}
