/**
 Parameter type inference: the walk that notes which column each `$n` is compared with, and the
 vector of types built from the notes.
 */
module ParamHints {
  import opened Wrappers
  import opened Text
  import opened SqlAst
  import opened ExprPrinting

  // ------------------------------------------------------------------ names and numbers

  function TrimDollars(s: string): string {
    if s != [] && s[0] == '$' then TrimDollars(s[1..]) else s
  }

  /** The number of a placeholder, when it is one that fits the machine word. */
  function PlaceholderIndex(e: Expr): Option<nat> {
    if !e.Placeholder? then None
    else
      var digits := TrimDollars(e.text);
      if digits != [] && AllDigits(digits) && DigitsValue(digits) <= USIZE_MAX
      then Some(DigitsValue(digits))
      else None
  }

  /** `$n` has the number n, if that fits the machine word; a `?` has none. */
  lemma {:induction false} NumberOfPlaceholder(n: nat)
    ensures PlaceholderIndex(Placeholder("$" + Decimal(n))) == if n <= USIZE_MAX then Some(n) else None
    ensures PlaceholderIndex(Placeholder("?")) == None
  {
    DecimalIsRead(n);
    var text := "$" + Decimal(n);
    assert text[1..] == Decimal(n);
    assert TrimDollars(Decimal(n)) == Decimal(n);
    assert TrimDollars(text) == Decimal(n);
  }

  // ------------------------------------------------------------------ hints

  /** `column` is (table, column), the table None when any will do. */
  datatype ColumnHint = ColumnHint(index: nat, column: Option<(Option<string>, string)>)

  type HintList = List<ColumnHint>

  predicate IsComparison(op: BinaryOperator) {
    op == Eq || op == NotEq || op == Lt || op == LtEq || op == Gt || op == GtEq
  }

  /** The hint for a `$n` set against a text, if the text is a plain column. */
  function Note(e: Expr, table: Option<string>, text: string): HintList {
    match (PlaceholderIndex(e), PlainIdentifier(text))
    case (Some(n), Some(column)) => Cons(ColumnHint(n, Some((table, column))), Nil)
    case _ => Nil
  }

  function NoteEach(es: List<Expr>, table: Option<string>, text: string): HintList {
    match es
    case Nil => Nil
    case Cons(e, rest) => Append(Note(e, table, text), NoteEach(rest, table, text))
  }

  /** The hints a node gives by itself. */
  function Direct(e: Expr, table: Option<string>): HintList {
    match e
    case Binary(l, op, r) =>
      if !IsComparison(op) then Nil
      else if PlaceholderIndex(r).Some? then Note(r, table, Show(l))
      else Note(l, table, Show(r))
    case Like(_, _, e1, pattern, _) => Note(pattern, table, Show(e1))
    case ILike(_, _, e1, pattern, _) => Note(pattern, table, Show(e1))
    case InList(e1, list, _) => NoteEach(list, table, Show(e1))
    case Between(e1, low, high, _) => Append(Note(low, table, Show(e1)), Note(high, table, Show(e1)))
    case _ => Nil
  }

  /** The hints of the walk over a tree: a node's own, then those of the children it goes into. */
  function Noted(e: Expr, table: Option<string>): HintList
    decreases e, 1
  {
    Append(Direct(e, table), NotedBelow(e, table))
  }

  function NotedBelow(e: Expr, table: Option<string>): HintList
    decreases e, 0
  {
    match e
    case Binary(l, _, r) => Append(Noted(l, table), Noted(r, table))
    case Like(_, _, e1, pattern, _) => Append(Noted(e1, table), Noted(pattern, table))
    case ILike(_, _, e1, pattern, _) => Append(Noted(e1, table), Noted(pattern, table))
    case Nested(e1) => Noted(e1, table)
    case Unary(_, e1) => Noted(e1, table)
    case Function(_, ArgList(list)) => NotedArgs(list, table)
    case _ => Nil
  }

  function NotedArgs(args: List<Arg>, table: Option<string>): HintList
    decreases args, 0
  {
    match args
    case Nil => Nil
    case Cons(Unnamed(e), rest) => Append(Noted(e, table), NotedArgs(rest, table))
    case Cons(_, rest) => NotedArgs(rest, table)
  }

  function Count<T(==)>(xs: List<T>, x: T): nat {
    match xs
    case Nil => 0
    case Cons(y, rest) => (if y == x then 1 else 0) + Count(rest, x)
  }

  lemma {:induction false} CountAppend<T>(a: List<T>, b: List<T>, x: T)
    ensures Count(Append(a, b), x) == Count(a, x) + Count(b, x)
  {
    if a.Cons? {
      CountAppend(a.tail, b, x);
    }
  }

  predicate IsNumber(e: Expr, n: nat) { PlaceholderIndex(e) == Some(n) }

  predicate IsColumn(e: Expr, column: string) { ColumnRead(e) == Some(column) }

  function Once(holds: bool): nat { if holds then 1 else 0 }

  function NumbersIn(es: List<Expr>, n: nat): nat {
    match es
    case Nil => 0
    case Cons(e, rest) => Once(IsNumber(e, n)) + NumbersIn(rest, n)
  }

  /**
   How often `node` by itself sets `$n` against the column `column`. Between two placeholders
   only the right one can have a column.
   */
  function Comparisons(node: Expr, n: nat, column: string): nat {
    match node
    case Binary(l, op, r) =>
      if op == StringConcat || op.OtherOp? then 0
      else
        Once(IsNumber(r, n) && IsColumn(l, column))
        + Once(IsNumber(l, n) && IsColumn(r, column) && PlaceholderIndex(r).None?)
    case Like(_, _, e1, pattern, _) => Once(IsNumber(pattern, n) && IsColumn(e1, column))
    case ILike(_, _, e1, pattern, _) => Once(IsNumber(pattern, n) && IsColumn(e1, column))
    case InList(e1, list, _) => if IsColumn(e1, column) then NumbersIn(list, n) else 0
    case Between(e1, low, high, _) =>
      if IsColumn(e1, column) then Once(IsNumber(low, n)) + Once(IsNumber(high, n)) else 0
    case _ => 0
  }

  /** All comparisons of `$n` with the column anywhere in the tree. */
  function AllUses(e: Expr, n: nat, column: string): nat
    decreases e, 1
  {
    Comparisons(e, n, column) + UsesBelow(e, n, column)
  }

  function UsesBelow(e: Expr, n: nat, column: string): nat
    decreases e, 0
  {
    match e
    case Function(_, ArgList(list)) => UsesInArgs(list, n, column)
    case Binary(l, _, r) => AllUses(l, n, column) + AllUses(r, n, column)
    case Unary(_, e1) => AllUses(e1, n, column)
    case Nested(e1) => AllUses(e1, n, column)
    case Cast(_, e1, _) => AllUses(e1, n, column)
    case Like(_, _, e1, pattern, _) => AllUses(e1, n, column) + AllUses(pattern, n, column)
    case ILike(_, _, e1, pattern, _) => AllUses(e1, n, column) + AllUses(pattern, n, column)
    case InList(e1, list, _) => AllUses(e1, n, column) + UsesInAll(list, n, column)
    case Between(e1, low, high, _) => AllUses(e1, n, column) + AllUses(low, n, column) + AllUses(high, n, column)
    case _ => 0
  }

  function UsesInArgs(args: List<Arg>, n: nat, column: string): nat
    decreases args, 0
  {
    match args
    case Nil => 0
    case Cons(arg, rest) => (if arg.Star? then 0 else AllUses(arg.e, n, column)) + UsesInArgs(rest, n, column)
  }

  function UsesInAll(es: List<Expr>, n: nat, column: string): nat
    decreases es, 0
  {
    match es
    case Nil => 0
    case Cons(e, rest) => AllUses(e, n, column) + UsesInAll(rest, n, column)
  }

  /** Those below a cast, inside an IN list or a BETWEEN, or in a named argument. */
  function HiddenUses(e: Expr, n: nat, column: string): nat {
    match e
    case Function(_, ArgList(list)) => HiddenInArgs(list, n, column)
    case Binary(l, _, r) => HiddenUses(l, n, column) + HiddenUses(r, n, column)
    case Unary(_, e1) => HiddenUses(e1, n, column)
    case Nested(e1) => HiddenUses(e1, n, column)
    case Like(_, _, e1, pattern, _) => HiddenUses(e1, n, column) + HiddenUses(pattern, n, column)
    case ILike(_, _, e1, pattern, _) => HiddenUses(e1, n, column) + HiddenUses(pattern, n, column)
    case Cast(_, e1, _) => AllUses(e1, n, column)
    case InList(e1, list, _) => AllUses(e1, n, column) + UsesInAll(list, n, column)
    case Between(e1, low, high, _) => AllUses(e1, n, column) + AllUses(low, n, column) + AllUses(high, n, column)
    case _ => 0
  }

  function HiddenInArgs(args: List<Arg>, n: nat, column: string): nat {
    match args
    case Nil => 0
    case Cons(Unnamed(e), rest) => HiddenUses(e, n, column) + HiddenInArgs(rest, n, column)
    case Cons(Named(_, e), rest) => AllUses(e, n, column) + HiddenInArgs(rest, n, column)
    case Cons(Star, rest) => HiddenInArgs(rest, n, column)
  }

  /** The number of `$n` and the name of the column that a hint of this walk can carry. */
  predicate IsHintFor(h: ColumnHint, table: Option<string>) {
    h.column.Some? && h.column.value.0 == table
  }

  lemma {:induction false} CountNote(e: Expr, table: Option<string>, text: string, h: ColumnHint)
    ensures Count(Note(e, table, text), h)
            == Once(IsHintFor(h, table) && IsNumber(e, h.index) && PlainIdentifier(text) == Some(h.column.value.1))
  {
    match (PlaceholderIndex(e), PlainIdentifier(text))
    case (Some(n), Some(column)) =>
      var hint := ColumnHint(n, Some((table, column)));
      assert Count(Cons(hint, Nil), h) == Once(hint == h) + Count(Nil, h);
    case _ =>
  }

  lemma {:induction false} CountNoteEach(es: List<Expr>, table: Option<string>, text: string, h: ColumnHint)
    ensures Count(NoteEach(es, table, text), h)
            == When(IsHintFor(h, table) && PlainIdentifier(text) == Some(NameIn(h)), NumbersIn(es, h.index))
  {
    if es.Cons? {
      CountNoteEach(es.tail, table, text, h);
      CountNote(es.head, table, text, h);
      CountAppend(Note(es.head, table, text), NoteEach(es.tail, table, text), h);
    }
  }

  lemma {:induction false} CountDirect(e: Expr, table: Option<string>, h: ColumnHint)
    requires Printable(e)
    ensures Count(Direct(e, table), h)
            == if IsHintFor(h, table) then Comparisons(e, h.index, h.column.value.1) else 0
  {
    match e
    case Binary(l, op, r) =>
      PrintedIsRead(l);
      PrintedIsRead(r);
      CountNote(r, table, Show(l), h);
      CountNote(l, table, Show(r), h);
    case Like(_, _, e1, pattern, _) => PrintedIsRead(e1); CountNote(pattern, table, Show(e1), h);
    case ILike(_, _, e1, pattern, _) => PrintedIsRead(e1); CountNote(pattern, table, Show(e1), h);
    case InList(e1, list, _) => PrintedIsRead(e1); CountNoteEach(list, table, Show(e1), h);
    case Between(e1, low, high, _) =>
      PrintedIsRead(e1);
      var text := Show(e1);
      CountNote(low, table, text, h);
      CountNote(high, table, text, h);
      CountAppend(Note(low, table, text), Note(high, table, text), h);
    case _ =>
  }

  function When(holds: bool, n: nat): nat { if holds then n else 0 }

  function NameIn(h: ColumnHint): string { if h.column.Some? then h.column.value.1 else "" }

  /** Every comparison is either noted `count` times or among the `hidden` ones. */
  ghost predicate Accounted(count: nat, hidden: nat, uses: nat, applies: bool) {
    count + When(applies, hidden) == When(applies, uses)
  }

  /**
   The walk records each `$n` once per comparison with the column, anywhere in the tree, except
   for those a cast, an IN list, a BETWEEN or a named argument hides; and it records nothing else.
   */
  lemma {:induction false} HintsAreExact(e: Expr, table: Option<string>, h: ColumnHint)
    requires Printable(e)
    ensures Accounted(Count(Noted(e, table), h), HiddenUses(e, h.index, NameIn(h)), AllUses(e, h.index, NameIn(h)),
            IsHintFor(h, table))
    decreases e, 1
  {
    CountDirect(e, table, h);
    HintsBelow(e, table, h);
    CountAppend(Direct(e, table), NotedBelow(e, table), h);
  }

  lemma {:induction false} HintsBelow(e: Expr, table: Option<string>, h: ColumnHint)
    requires Printable(e)
    ensures Accounted(Count(NotedBelow(e, table), h), HiddenUses(e, h.index, NameIn(h)),
            UsesBelow(e, h.index, NameIn(h)), IsHintFor(h, table))
    decreases e, 0
  {
    match e
    case Binary(l, _, r) => HintsAreExact(l, table, h); HintsAreExact(r, table, h); HintsOfTwo(l, r, table, h);
    case Like(_, _, l, r, _) => HintsAreExact(l, table, h); HintsAreExact(r, table, h); HintsOfTwo(l, r, table, h);
    case ILike(_, _, l, r, _) => HintsAreExact(l, table, h); HintsAreExact(r, table, h); HintsOfTwo(l, r, table, h);
    case Nested(e1) => HintsAreExact(e1, table, h);
    case Unary(_, e1) => HintsAreExact(e1, table, h);
    case Function(_, ArgList(list)) => HintsInArgs(list, table, h);
    case _ =>
  }

  lemma {:induction false} HintsOfTwo(l: Expr, r: Expr, table: Option<string>, h: ColumnHint)
    requires Accounted(Count(Noted(l, table), h), HiddenUses(l, h.index, NameIn(h)), AllUses(l, h.index, NameIn(h)),
             IsHintFor(h, table))
    requires Accounted(Count(Noted(r, table), h), HiddenUses(r, h.index, NameIn(h)), AllUses(r, h.index, NameIn(h)),
             IsHintFor(h, table))
    ensures Accounted(Count(Append(Noted(l, table), Noted(r, table)), h),
                      HiddenUses(l, h.index, NameIn(h)) + HiddenUses(r, h.index, NameIn(h)),
                      AllUses(l, h.index, NameIn(h)) + AllUses(r, h.index, NameIn(h)), IsHintFor(h, table))
  {
    CountAppend(Noted(l, table), Noted(r, table), h);
  }

  lemma {:induction false} HintsInArgs(args: List<Arg>, table: Option<string>, h: ColumnHint)
    requires PrintableArgs(args)
    ensures Accounted(Count(NotedArgs(args, table), h), HiddenInArgs(args, h.index, NameIn(h)),
            UsesInArgs(args, h.index, NameIn(h)), IsHintFor(h, table))
    decreases args, 0
  {
    match args
    case Nil =>
    case Cons(arg, rest) =>
      HintsInArgs(rest, table, h);
      if arg.Unnamed? {
        HintsAreExact(arg.e, table, h);
        CountAppend(Noted(arg.e, table), NotedArgs(rest, table), h);
      }
  }

  function Highest(hints: HintList): nat {
    match hints
    case Nil => 0
    case Cons(h, rest) => if h.index < Highest(rest) then Highest(rest) else h.index
  }

  lemma {:induction false} HighestAppend(a: HintList, b: HintList)
    ensures Highest(Append(a, b)) == Max(Highest(a), Highest(b))
  {
    if a.Cons? {
      HighestAppend(a.tail, b);
    }
  }

  /** The highest index is one of those noted, and no lower than any of them. */
  lemma {:induction false} HighestIsNoted(hints: HintList)
    ensures forall h :: Count(hints, h) > 0 ==> h.index <= Highest(hints)
    ensures Highest(hints) > 0 ==> exists h :: Count(hints, h) > 0 && h.index == Highest(hints)
  {
    match hints
    case Nil =>
    case Cons(h, rest) =>
      HighestIsNoted(rest);
      assert Count(hints, h) > 0;
      if Highest(hints) > h.index {
        var g :| Count(rest, g) > 0 && g.index == Highest(rest);
        assert Count(hints, g) > 0;
      }
  }

  /** The accumulator the walk pushes into. */
  class Hints {
    var columns: HintList
    var tables: set<string>
    var maxIndex: nat

    constructor ()
      ensures columns == Nil && tables == {} && maxIndex == 0
    {
      columns, tables, maxIndex := Nil, {}, 0;
    }

    /** `maxIndex` is the highest index noted. */
    ghost predicate Valid()
      reads this
    {
      maxIndex == Highest(columns)
    }

    method Push(hint: ColumnHint)
      requires Valid()
      modifies this`columns, this`maxIndex
      ensures Valid() && columns == Append(old(columns), Cons(hint, Nil))
    {
      HighestAppend(columns, Cons(hint, Nil));
      assert Highest(Cons(hint, Nil)) == hint.index by { assert Highest(Nil) == 0; }
      maxIndex := Max(maxIndex, hint.index);
      columns := Append(columns, Cons(hint, Nil));
    }

    method NoteColumnPlaceholder(e: Expr, table: Option<string>, text: string)
      requires Valid()
      modifies this`columns, this`maxIndex
      ensures Valid() && columns == Append(old(columns), Note(e, table, text))
    {
      AppendNil(columns);
      var index := PlaceholderIndex(e);
      if index.None? {
        return;
      }
      var column := PlainIdentifier(text);
      if column.None? {
        return;
      }
      Push(ColumnHint(index.value, Some((table, column.value))));
    }

    method NoteItems(list: List<Expr>, table: Option<string>, text: string)
      requires Valid()
      modifies this`columns, this`maxIndex
      ensures Valid() && columns == Append(old(columns), NoteEach(list, table, text))
    {
      var rest := list;
      while rest.Cons?
        invariant Valid()
        invariant Append(columns, NoteEach(rest, table, text)) == Append(old(columns), NoteEach(list, table, text))
        decreases rest
      {
        ghost var before := columns;
        NoteColumnPlaceholder(rest.head, table, text);
        AppendAssoc(before, Note(rest.head, table, text), NoteEach(rest.tail, table, text));
        rest := rest.tail;
      }
      AppendNil(columns);
    }

    /** The hints of one node. */
    method NoteNode(e: Expr, table: Option<string>)
      requires Valid()
      modifies this`columns, this`maxIndex
      ensures Valid() && columns == Append(old(columns), Direct(e, table))
    {
      AppendNil(columns);
      match e {
        case Binary(l, op, r) =>
          if IsComparison(op) {
            if PlaceholderIndex(r).Some? {
              NoteColumnPlaceholder(r, table, Show(l));
            } else if PlaceholderIndex(l).Some? {
              NoteColumnPlaceholder(l, table, Show(r));
            }
          }
        case Like(_, _, e1, pattern, _) => NoteColumnPlaceholder(pattern, table, Show(e1));
        case ILike(_, _, e1, pattern, _) => NoteColumnPlaceholder(pattern, table, Show(e1));
        case InList(e1, list, _) => NoteItems(list, table, Show(e1));
        case Between(e1, low, high, _) =>
          ghost var before := columns;
          NoteColumnPlaceholder(low, table, Show(e1));
          NoteColumnPlaceholder(high, table, Show(e1));
          AppendAssoc(before, Note(low, table, Show(e1)), Note(high, table, Show(e1)));
        case _ =>
      }
    }

    /** Record the comparisons of a `$n` with a column in the positions of `e` the walk goes into. */
    method WalkExpr(e: Expr, table: Option<string>)
      requires Valid()
      modifies this`columns, this`maxIndex
      ensures Valid() && columns == Append(old(columns), Noted(e, table))
      decreases e, 1
    {
      ghost var before := columns;
      NoteNode(e, table);
      WalkChildren(e, table);
      AppendAssoc(before, Direct(e, table), NotedBelow(e, table));
    }

    method WalkChildren(e: Expr, table: Option<string>)
      requires Valid()
      modifies this`columns, this`maxIndex
      ensures Valid() && columns == Append(old(columns), NotedBelow(e, table))
      decreases e, 0, 1
    {
      match e {
        case Binary(l, _, r) => WalkTwo(e, l, r, table);
        case Like(_, _, l, r, _) => WalkTwo(e, l, r, table);
        case ILike(_, _, l, r, _) => WalkTwo(e, l, r, table);
        case Nested(e1) => WalkExpr(e1, table);
        case Unary(_, e1) => WalkExpr(e1, table);
        case Function(_, ArgList(list)) => WalkArgs(list, table);
        case _ => AppendNil(columns);
      }
    }

    method WalkTwo(ghost e: Expr, l: Expr, r: Expr, table: Option<string>)
      requires Valid() && l < e && r < e
      modifies this`columns, this`maxIndex
      ensures Valid() && columns == Append(old(columns), Append(Noted(l, table), Noted(r, table)))
      decreases e, 0, 0
    {
      ghost var before := columns;
      WalkExpr(l, table);
      WalkExpr(r, table);
      AppendAssoc(before, Noted(l, table), Noted(r, table));
    }

    method WalkArgs(args: List<Arg>, table: Option<string>)
      requires Valid()
      modifies this`columns, this`maxIndex
      ensures Valid() && columns == Append(old(columns), NotedArgs(args, table))
      decreases args, 0
    {
      ghost var before := columns;
      match args {
        case Nil => AppendNil(columns);
        case Cons(arg, rest) =>
          if arg.Unnamed? {
            WalkExpr(arg.e, table);
            WalkArgs(rest, table);
            AppendAssoc(before, Noted(arg.e, table), NotedArgs(rest, table));
          } else {
            WalkArgs(rest, table);
          }
      }
    }

    /** One row of an INSERT: a `$n` alone takes the column at its position. */
    method WalkRow(row: List<Expr>, columnsFrom: List<string>, table: string)
      requires Valid()
      modifies this`columns, this`maxIndex
      ensures Valid() && columns == Append(old(columns), RowHints(row, columnsFrom, table))
    {
      var rest, cols := row, columnsFrom;
      while rest.Cons?
        invariant Valid()
        invariant Append(columns, RowHints(rest, cols, table))
                  == Append(old(columns), RowHints(row, columnsFrom, table))
        decreases rest
      {
        ghost var before := columns;
        var index := PlaceholderIndex(rest.head);
        ghost var more := RowHints(rest.tail, Behind(cols), table);
        if index.Some? {
          var hint := ColumnHint(index.value, ColumnHere(cols, table));
          Push(hint);
          AppendAssoc(before, Cons(hint, Nil), more);
          assert Append(Cons(hint, Nil), more) == Cons(hint, Append(Nil, more));
        }
        rest, cols := rest.tail, Behind(cols);
      }
      AppendNil(columns);
    }

    method WalkRows(rows: List<List<Expr>>, columnsFrom: List<string>, table: string)
      requires Valid()
      modifies this`columns, this`maxIndex
      ensures Valid() && columns == Append(old(columns), RowsHints(rows, columnsFrom, table))
    {
      var rest := rows;
      while rest.Cons?
        invariant Valid()
        invariant Append(columns, RowsHints(rest, columnsFrom, table))
                  == Append(old(columns), RowsHints(rows, columnsFrom, table))
        decreases rest
      {
        ghost var before := columns;
        WalkRow(rest.head, columnsFrom, table);
        AppendAssoc(before, RowHints(rest.head, columnsFrom, table), RowsHints(rest.tail, columnsFrom, table));
        rest := rest.tail;
      }
      AppendNil(columns);
    }

    method NoteAssignments(sets: List<SetClause>, table: string)
      requires Valid()
      modifies this`columns, this`maxIndex
      ensures Valid() && columns == Append(old(columns), SetHints(sets, table))
    {
      var rest := sets;
      while rest.Cons?
        invariant Valid()
        invariant Append(columns, SetHints(rest, table)) == Append(old(columns), SetHints(sets, table))
        decreases rest
      {
        ghost var before := columns;
        if rest.head.SetColumn? {
          NoteColumnPlaceholder(rest.head.value, Some(table), Show(rest.head.target));
          AppendAssoc(before, Note(rest.head.value, Some(table), Show(rest.head.target)), SetHints(rest.tail, table));
        }
        rest := rest.tail;
      }
      AppendNil(columns);
    }

    method WalkSelection(selection: Option<Expr>, table: Option<string>)
      requires Valid()
      modifies this`columns, this`maxIndex
      ensures Valid() && columns == Append(old(columns), SelectionHints(selection, table))
    {
      AppendNil(columns);
      if selection.Some? {
        WalkExpr(selection.value, table);
      }
    }

    method WalkStatement(stmt: Statement)
      requires Valid()
      modifies this
      ensures Valid() && columns == Append(old(columns), StatementHints(stmt))
      ensures tables == old(tables) + StatementTables(stmt)
    {
      AppendNil(columns);
      ghost var before := columns;
      match stmt {
        case Insert(table, cols, rows, onDuplicate) =>
          tables := tables + {table};
          WalkRows(rows, LowerAll(cols), table);
          NoteAssignments(onDuplicate, table);
          AppendAssoc(before, RowsHints(rows, LowerAll(cols), table), SetHints(onDuplicate, table));
        case Update(table, sets, selection) =>
          tables := tables + {table};
          NoteAssignments(sets, table);
          WalkSelection(selection, Some(table));
          AppendAssoc(before, SetHints(sets, table), SelectionHints(selection, Some(table)));
        case Delete(from, selection) =>
          if from.Cons? {
            tables := tables + {from.head};
            WalkSelection(selection, Some(from.head));
          }
        case Select(from, selection) =>
          tables := tables + Members(from);
          WalkSelection(selection, First(from));
        case Other =>
      }
    }

    method ParseHints(stmts: List<Statement>)
      requires Valid()
      modifies this
      ensures Valid() && columns == Append(old(columns), AllHints(stmts))
      ensures tables == old(tables) + AllTables(stmts)
    {
      var rest := stmts;
      while rest.Cons?
        invariant Valid()
        invariant tables + AllTables(rest) == old(tables) + AllTables(stmts)
        invariant Append(columns, AllHints(rest)) == Append(old(columns), AllHints(stmts))
        decreases rest
      {
        ghost var before := columns;
        WalkStatement(rest.head);
        AppendAssoc(before, StatementHints(rest.head), AllHints(rest.tail));
        rest := rest.tail;
      }
      AppendNil(columns);
    }
  }

  // ------------------------------------------------------------------ statements

  /** `target = value`, the target a single column as an expression; or another kind of target. */
  datatype SetClause = SetColumn(target: Expr, value: Expr) | OtherTarget

  /** The statements hints come from, their tables by bare lower-case name. */
  datatype Statement =
    | Insert(table: string, columns: List<string>, rows: List<List<Expr>>, onDuplicate: List<SetClause>)
    | Update(table: string, sets: List<SetClause>, selection: Option<Expr>)
    | Delete(from: List<string>, selection: Option<Expr>)
    | Select(from: List<string>, selection: Option<Expr>)
    | Other

  function First(names: List<string>): Option<string> { if names.Nil? then None else Some(names.head) }

  function Members(names: List<string>): set<string> {
    match names case Nil => {} case Cons(name, rest) => {name} + Members(rest)
  }

  function LowerAll(names: List<string>): List<string> {
    match names case Nil => Nil case Cons(name, rest) => Cons(Lower(name), LowerAll(rest))
  }

  function Behind(cols: List<string>): List<string> { if cols.Cons? then cols.tail else Nil }

  function ColumnHere(cols: List<string>, table: string): Option<(Option<string>, string)> {
    if cols.Cons? then Some((Some(table), cols.head)) else None
  }

  function RowHints(row: List<Expr>, cols: List<string>, table: string): HintList {
    match row
    case Nil => Nil
    case Cons(e, rest) =>
      var more := RowHints(rest, Behind(cols), table);
      match PlaceholderIndex(e)
      case None => more
      case Some(n) => Cons(ColumnHint(n, ColumnHere(cols, table)), more)
  }

  function RowsHints(rows: List<List<Expr>>, cols: List<string>, table: string): HintList {
    match rows
    case Nil => Nil
    case Cons(row, rest) => Append(RowHints(row, cols, table), RowsHints(rest, cols, table))
  }

  function SetHints(sets: List<SetClause>, table: string): HintList {
    match sets
    case Nil => Nil
    case Cons(SetColumn(target, value), rest) => Append(Note(value, Some(table), Show(target)), SetHints(rest, table))
    case Cons(OtherTarget, rest) => SetHints(rest, table)
  }

  function SelectionHints(selection: Option<Expr>, table: Option<string>): HintList {
    if selection.None? then Nil else Noted(selection.value, table)
  }

  function StatementTables(stmt: Statement): set<string> {
    match stmt
    case Insert(table, _, _, _) => {table}
    case Update(table, _, _) => {table}
    case Delete(from, _) => if from.Cons? then {from.head} else {}
    case Select(from, _) => Members(from)
    case Other => {}
  }

  function StatementHints(stmt: Statement): HintList {
    match stmt
    case Insert(table, cols, rows, onDuplicate) =>
      Append(RowsHints(rows, LowerAll(cols), table), SetHints(onDuplicate, table))
    case Update(table, sets, selection) => Append(SetHints(sets, table), SelectionHints(selection, Some(table)))
    case Delete(from, selection) => if from.Cons? then SelectionHints(selection, First(from)) else Nil
    case Select(from, selection) => SelectionHints(selection, First(from))
    case Other => Nil
  }

  function AllTables(stmts: List<Statement>): set<string> {
    match stmts case Nil => {} case Cons(stmt, rest) => StatementTables(stmt) + AllTables(rest)
  }

  function AllHints(stmts: List<Statement>): HintList {
    match stmts
    case Nil => Nil
    case Cons(stmt, rest) => Append(StatementHints(stmt), AllHints(rest))
  }

  // ------------------------------------------------------------------ exactness for statements

  function Nth<T>(xs: List<T>, k: nat): Option<T> {
    if xs.Nil? then None else if k == 0 then Some(xs.head) else Nth(xs.tail, k - 1)
  }

  /** The column that position `k` of a row is for; none is known without a column list. */
  function ColumnAt(cols: List<string>, k: nat, table: string): Option<(Option<string>, string)> {
    match Nth(cols, k) case Some(c) => Some((Some(table), Lower(c))) case None => None
  }

  /** The positions, from `k` on, at which `$n` stands for the hint's column. */
  function RowUses(row: List<Expr>, k: nat, cols: List<string>, table: string, h: ColumnHint): nat {
    match row
    case Nil => 0
    case Cons(e, rest) =>
      Once(IsNumber(e, h.index) && h.column == ColumnAt(cols, k, table)) + RowUses(rest, k + 1, cols, table, h)
  }

  function RowsUses(rows: List<List<Expr>>, cols: List<string>, table: string, h: ColumnHint): nat {
    match rows
    case Nil => 0
    case Cons(row, rest) => RowUses(row, 0, cols, table, h) + RowsUses(rest, cols, table, h)
  }

  /** The assignments of `$n` alone to the hint's column. */
  function SetUses(sets: List<SetClause>, table: string, h: ColumnHint): nat {
    match sets
    case Nil => 0
    case Cons(SetColumn(target, value), rest) =>
      Once(IsHintFor(h, Some(table)) && IsNumber(value, h.index) && IsColumn(target, h.column.value.1))
      + SetUses(rest, table, h)
    case Cons(OtherTarget, rest) => SetUses(rest, table, h)
  }

  function SelectionUses(selection: Option<Expr>, table: Option<string>, h: ColumnHint): nat {
    if selection.Some? && IsHintFor(h, table) then AllUses(selection.value, h.index, h.column.value.1) else 0
  }

  function SelectionHidden(selection: Option<Expr>, table: Option<string>, h: ColumnHint): nat {
    if selection.Some? && IsHintFor(h, table) then HiddenUses(selection.value, h.index, h.column.value.1) else 0
  }

  /** How often a statement puts `$n` where the hint's column says what it is. */
  function StatementUses(stmt: Statement, h: ColumnHint): nat {
    match stmt
    case Insert(table, cols, rows, onDuplicate) =>
      RowsUses(rows, cols, table, h) + SetUses(onDuplicate, table, h)
    case Update(table, sets, selection) => SetUses(sets, table, h) + SelectionUses(selection, Some(table), h)
    case Delete(from, selection) => if from.Cons? then SelectionUses(selection, First(from), h) else 0
    case Select(from, selection) => SelectionUses(selection, First(from), h)
    case Other => 0
  }

  function StatementHidden(stmt: Statement, h: ColumnHint): nat {
    match stmt
    case Update(table, _, selection) => SelectionHidden(selection, Some(table), h)
    case Delete(from, selection) => if from.Cons? then SelectionHidden(selection, First(from), h) else 0
    case Select(from, selection) => SelectionHidden(selection, First(from), h)
    case _ => 0
  }

  function UsesInText(stmts: List<Statement>, h: ColumnHint): nat {
    match stmts
    case Nil => 0
    case Cons(stmt, rest) => StatementUses(stmt, h) + UsesInText(rest, h)
  }

  function HiddenInText(stmts: List<Statement>, h: ColumnHint): nat {
    match stmts
    case Nil => 0
    case Cons(stmt, rest) => StatementHidden(stmt, h) + HiddenInText(rest, h)
  }

  predicate PrintableSets(sets: List<SetClause>) {
    match sets
    case Nil => true
    case Cons(SetColumn(target, _), rest) => Printable(target) && PrintableSets(rest)
    case Cons(OtherTarget, rest) => PrintableSets(rest)
  }

  predicate PrintableSelection(selection: Option<Expr>) { selection.Some? ==> Printable(selection.value) }

  predicate PrintableText(stmts: List<Statement>) {
    match stmts
    case Nil => true
    case Cons(stmt, rest) =>
      && PrintableText(rest)
      && match stmt
         case Insert(_, _, _, onDuplicate) => PrintableSets(onDuplicate)
         case Update(_, sets, selection) => PrintableSets(sets) && PrintableSelection(selection)
         case Delete(_, selection) => PrintableSelection(selection)
         case Select(_, selection) => PrintableSelection(selection)
         case Other => true
  }

  /** `here` are the names, in lower case, that `cols` has from position `k` on. */
  ghost predicate NamesFrom(here: List<string>, k: nat, cols: List<string>) {
    forall i: nat :: Nth(here, i) == match Nth(cols, k + i) case Some(c) => Some(Lower(c)) case None => None
  }

  lemma {:induction false} LowerNth(cols: List<string>, k: nat)
    ensures Nth(LowerAll(cols), k) == match Nth(cols, k) case Some(c) => Some(Lower(c)) case None => None
  {
    if cols.Cons? && k > 0 {
      LowerNth(cols.tail, k - 1);
    }
  }

  lemma {:induction false} NamesBehind(here: List<string>, k: nat, cols: List<string>)
    requires NamesFrom(here, k, cols)
    ensures NamesFrom(Behind(here), k + 1, cols)
  {
    forall i: nat
      ensures Nth(Behind(here), i) == match Nth(cols, k + 1 + i) case Some(c) => Some(Lower(c)) case None => None
    {
      assert Nth(Behind(here), i) == Nth(here, i + 1);
      assert k + (i + 1) == k + 1 + i;
    }
  }

  lemma {:induction false} ColumnIsHere(here: List<string>, k: nat, cols: List<string>, table: string)
    requires NamesFrom(here, k, cols)
    ensures ColumnHere(here, table) == ColumnAt(cols, k, table)
  {
    assert Nth(here, 0) == match Nth(cols, k + 0) case Some(c) => Some(Lower(c)) case None => None;
  }

  lemma {:induction false} CountRow(row: List<Expr>, here: List<string>, k: nat, cols: List<string>, table: string,
                                    h: ColumnHint)
    requires NamesFrom(here, k, cols)
    ensures Count(RowHints(row, here, table), h) == RowUses(row, k, cols, table, h)
  {
    if row.Cons? {
      ColumnIsHere(here, k, cols, table);
      NamesBehind(here, k, cols);
      CountRow(row.tail, Behind(here), k + 1, cols, table, h);
    }
  }

  lemma {:induction false} CountRows(rows: List<List<Expr>>, cols: List<string>, table: string, h: ColumnHint)
    ensures Count(RowsHints(rows, LowerAll(cols), table), h) == RowsUses(rows, cols, table, h)
  {
    if rows.Cons? {
      var here := LowerAll(cols);
      CountRows(rows.tail, cols, table, h);
      forall i: nat ensures Nth(here, i) == match Nth(cols, 0 + i) case Some(c) => Some(Lower(c)) case None => None {
        LowerNth(cols, i);
      }
      CountRow(rows.head, here, 0, cols, table, h);
      CountAppend(RowHints(rows.head, here, table), RowsHints(rows.tail, here, table), h);
    }
  }

  lemma {:induction false} CountSets(sets: List<SetClause>, table: string, h: ColumnHint)
    requires PrintableSets(sets)
    ensures Count(SetHints(sets, table), h) == SetUses(sets, table, h)
  {
    if sets.Cons? {
      CountSets(sets.tail, table, h);
      if sets.head.SetColumn? {
        var text := Show(sets.head.target);
        PrintedIsRead(sets.head.target);
        CountNote(sets.head.value, Some(table), text, h);
        CountAppend(Note(sets.head.value, Some(table), text), SetHints(sets.tail, table), h);
      }
    }
  }

  lemma {:induction false} CountSelection(selection: Option<Expr>, table: Option<string>, h: ColumnHint)
    requires PrintableSelection(selection)
    ensures Count(SelectionHints(selection, table), h) + SelectionHidden(selection, table, h)
            == SelectionUses(selection, table, h)
  {
    if selection.Some? {
      HintsAreExact(selection.value, table, h);
    }
  }

  lemma {:induction false} CountStatement(stmt: Statement, h: ColumnHint)
    requires PrintableText(Cons(stmt, Nil))
    ensures Count(StatementHints(stmt), h) + StatementHidden(stmt, h) == StatementUses(stmt, h)
  {
    match stmt
    case Insert(table, cols, rows, onDuplicate) =>
      CountRows(rows, cols, table, h);
      CountSets(onDuplicate, table, h);
      CountAppend(RowsHints(rows, LowerAll(cols), table), SetHints(onDuplicate, table), h);
    case Update(table, sets, selection) =>
      CountSets(sets, table, h);
      CountSelection(selection, Some(table), h);
      CountAppend(SetHints(sets, table), SelectionHints(selection, Some(table)), h);
    case Delete(from, selection) => CountSelection(selection, First(from), h);
    case Select(from, selection) => CountSelection(selection, First(from), h);
    case Other =>
  }

  /**
   Over a whole text, each hint is recorded once per comparison, assignment or INSERT position
   that is not hidden, and nothing else is.
   */
  lemma {:induction false} StatementHintsAreExact(stmts: List<Statement>, h: ColumnHint)
    requires PrintableText(stmts)
    ensures Count(AllHints(stmts), h) + HiddenInText(stmts, h) == UsesInText(stmts, h)
  {
    if stmts.Cons? {
      assert PrintableText(Nil);
      StatementHintsAreExact(stmts.tail, h);
      CountStatement(stmts.head, h);
      CountAppend(StatementHints(stmts.head), AllHints(stmts.tail), h);
    }
  }

  predicate NamesTable(stmt: Statement, name: string) {
    match stmt
    case Insert(table, _, _, _) => name == table
    case Update(table, _, _) => name == table
    case Delete(from, _) => from.Cons? && name == from.head
    case Select(from, _) => Contains(from, name)
    case Other => false
  }

  predicate AnyNamesTable(stmts: List<Statement>, name: string) {
    stmts.Cons? && (NamesTable(stmts.head, name) || AnyNamesTable(stmts.tail, name))
  }

  lemma {:induction false} MembersAreContained(names: List<string>, name: string)
    ensures name in Members(names) <==> Contains(names, name)
  {
    if names.Cons? {
      MembersAreContained(names.tail, name);
    }
  }

  /** The tables collected are those some statement names, DELETE only its first. */
  lemma {:induction false} TablesAreNamed(stmts: List<Statement>, name: string)
    ensures name in AllTables(stmts) <==> AnyNamesTable(stmts, name)
  {
    if stmts.Cons? {
      TablesAreNamed(stmts.tail, name);
      if stmts.head.Select? {
        MembersAreContained(stmts.head.from, name);
      }
    }
  }

  // ------------------------------------------------------------------ the vector of types

  datatype PgType = TextType | OfOid(oid: nat)

  datatype Resolved = Resolved(index: nat, oid: Option<nat>)

  /** The declared types of the backend's columns. */
  type CatalogTypes = map<(string, string), nat>

  function FirstDeclared(tables: List<string>, column: string, catalog: CatalogTypes): Option<nat> {
    match tables
    case Nil => None
    case Cons(t, rest) =>
      if (t, column) in catalog then Some(catalog[(t, column)]) else FirstDeclared(rest, column, catalog)
  }

  function Resolve(hint: ColumnHint, tables: List<string>, catalog: CatalogTypes): Resolved {
    Resolved(hint.index,
      match hint.column
      case None => None
      case Some((Some(t), c)) => if (t, c) in catalog then Some(catalog[(t, c)]) else None
      case Some((None, c)) => FirstDeclared(tables, c, catalog))
  }

  function ResolveAll(hints: HintList, tables: List<string>, catalog: CatalogTypes): List<Resolved> {
    match hints
    case Nil => Nil
    case Cons(h, rest) => Cons(Resolve(h, tables, catalog), ResolveAll(rest, tables, catalog))
  }

  function TypeFromOid(oid: nat): PgType { if oid == 25 then TextType else OfOid(oid) }

  /** The type of `$n`: that of the last hint for it that was resolved. */
  function LastResolved(hints: List<Resolved>, n: nat, otherwise: PgType): PgType
    decreases hints
  {
    match hints
    case Nil => otherwise
    case Cons(h, rest) =>
      LastResolved(rest, n, if h.index == n && h.oid.Some? then TypeFromOid(h.oid.value) else otherwise)
  }

  predicate AnyResolved(hints: List<Resolved>, n: nat) {
    hints.Cons? && ((hints.head.index == n && hints.head.oid.Some?) || AnyResolved(hints.tail, n))
  }

  lemma {:induction false} Unresolved(hints: List<Resolved>, n: nat, otherwise: PgType)
    requires !AnyResolved(hints, n)
    ensures LastResolved(hints, n, otherwise) == otherwise
    decreases hints
  {
    if hints.Cons? {
      Unresolved(hints.tail, n, otherwise);
    }
  }

  /** A later hint for the same `$n` wins if it is resolved; OID 25 is text, as is what nothing resolves. */
  lemma {:induction false} LastHintWins(before: List<Resolved>, oid: nat, after: List<Resolved>, n: nat)
    ensures !AnyResolved(after, n) ==>
              LastResolved(Append(before, Cons(Resolved(n, Some(oid)), after)), n, TextType)
              == if oid == 25 then TextType else OfOid(oid)
    ensures !AnyResolved(after, n) ==> LastResolved(after, n, TextType) == TextType
  {
    if !AnyResolved(after, n) {
      LastWins(before, oid, after, n, TextType);
      Unresolved(after, n, TextType);
    }
  }

  lemma {:induction false} LastWins(before: List<Resolved>, oid: nat, after: List<Resolved>, n: nat, otherwise: PgType)
    requires !AnyResolved(after, n)
    ensures LastResolved(Append(before, Cons(Resolved(n, Some(oid)), after)), n, otherwise)
            == if oid == 25 then TextType else OfOid(oid)
    decreases before
  {
    match before
    case Nil =>
      assert Append(before, Cons(Resolved(n, Some(oid)), after)) == Cons(Resolved(n, Some(oid)), after);
      Unresolved(after, n, TypeFromOid(oid));
    case Cons(g, rest) =>
      LastWins(rest, oid, after, n, if g.index == n && g.oid.Some? then TypeFromOid(g.oid.value) else otherwise);
  }

  predicate AnyDeclares(tables: List<string>, column: string, catalog: CatalogTypes) {
    tables.Cons? && ((tables.head, column) in catalog || AnyDeclares(tables.tail, column, catalog))
  }

  /** A column with a table has the type declared there, and one without, the type of the first table to declare it. */
  lemma {:induction false} ResolvedBy(before: List<string>, t: string, after: List<string>, column: string, n: nat,
                                      catalog: CatalogTypes)
    requires !AnyDeclares(before, column, catalog)
    ensures (t, column) in catalog ==>
              && Resolve(ColumnHint(n, Some((None, column))), Append(before, Cons(t, after)), catalog)
                 == Resolved(n, Some(catalog[(t, column)]))
              && Resolve(ColumnHint(n, Some((Some(t), column))), before, catalog)
                 == Resolved(n, Some(catalog[(t, column)]))
    ensures Resolve(ColumnHint(n, Some((None, column))), before, catalog) == Resolved(n, None)
    ensures Resolve(ColumnHint(n, None), before, catalog) == Resolved(n, None)
  {
    match before
    case Nil => assert Append(before, Cons(t, after)) == Cons(t, after);
    case Cons(_, rest) => ResolvedBy(rest, t, after, column, n, catalog);
  }

  /** A resolved hint for `$0`: the slot number underflows. */
  predicate Underflows(hints: List<Resolved>) {
    hints.Cons? && ((hints.head.index == 0 && hints.head.oid.Some?) || Underflows(hints.tail))
  }

  /** Fill one slot per parameter; None is the underflow. */
  method InferParamTypes(hints: HintList, maxIndex: nat, tables: List<string>, catalog: CatalogTypes)
    returns (types: Option<seq<PgType>>)
    requires maxIndex == Highest(hints)
    ensures types == None <==> maxIndex != 0 && Underflows(ResolveAll(hints, tables, catalog))
    ensures types.Some? ==> |types.value| == maxIndex
    ensures types.Some? ==>
              forall n :: 1 <= n <= maxIndex ==>
                types.value[n - 1] == LastResolved(ResolveAll(hints, tables, catalog), n, TextType)
  {
    var max := Max(maxIndex, Highest(hints));
    if max == 0 {
      return Some([]);
    }
    var out := seq(max, i => TextType);
    var rest := hints;
    while rest.Cons?
      invariant |out| == max
      invariant Underflows(ResolveAll(rest, tables, catalog)) <==> Underflows(ResolveAll(hints, tables, catalog))
      invariant forall n :: 1 <= n <= max ==>
                  LastResolved(ResolveAll(rest, tables, catalog), n, out[n - 1])
                  == LastResolved(ResolveAll(hints, tables, catalog), n, TextType)
      decreases rest
    {
      var h := Resolve(rest.head, tables, catalog);
      if h.oid.Some? {
        if h.index == 0 {
          return None;
        }
        if h.index - 1 < |out| {
          out := out[h.index - 1 := TypeFromOid(h.oid.value)];
        }
      }
      rest := rest.tail;
    }
    return Some(out);
  }
}
