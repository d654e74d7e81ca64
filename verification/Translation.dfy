/**
 The two ways into the translator: one statement at a time, or a whole list whose printed texts
 are joined with "; " and re-quoted together. They agree when no text leaves a token open that a later one could end.
 */
module Translation {
  import opened Wrappers
  import opened Text
  import opened Dialects
  import opened SqlLexer
  import opened Quoting

  // ------------------------------------------------------------------ joining texts

  const SEPARATOR := "; "

  function Join(texts: seq<string>): string {
    if texts == [] then ""
    else if |texts| == 1 then texts[0]
    else texts[0] + (SEPARATOR + Join(texts[1..]))
  }

  /** `seg`, with `rest` left of its own text, ends where it did when `more` comes after it. */
  predicate Separate(seg: Segment, rest: string, more: string) {
    match seg
    case Plain(c) => c == '$' ==> !DollarOpens(rest + more)
    case Str(_, closed) => closed
    case Quoted(_, _, closed) => closed
    case Dollar(_, _) => true
    case LineComment(_) => rest != []
    case BlockComment(_, closed) => closed
  }

  /** No string, identifier or comment is left open, and no `$` opens with the help of `more`. */
  predicate Apart(segs: Segments, more: string) {
    match segs
    case Nil => true
    case Cons(seg, rest) => Separate(seg, Unlex(rest), more) && Apart(rest, more)
  }

  /** Every text is apart from those joined behind it. */
  predicate Separable(texts: seq<string>) {
    |texts| <= 1 || (Apart(Lex(texts[0]), SEPARATOR + Join(texts[1..])) && Separable(texts[1..]))
  }

  lemma {:induction false} UnlexAppend(a: Segments, b: Segments)
    ensures Unlex(Append(a, b)) == Unlex(a) + Unlex(b)
  {
    match a
    case Nil =>
    case Cons(seg, rest) =>
      UnlexAppend(rest, b);
      Assoc(SegmentText(seg), Unlex(rest), Unlex(b));
  }

  lemma {:induction false} StaysFit(seg: Segment, rest: string, more: string)
    requires Fits(seg, rest) && StartsWith(more, ';')
    ensures Fits(seg, rest + more) <==> Separate(seg, rest, more)
  {
    if rest == [] {
      assert rest + more == more;
    } else {
      assert (rest + more)[0] == rest[0];
    }
  }

  /** Tokens stay tokens in front of others exactly when they are apart from them. */
  lemma {:induction false} ApartExtends(segs: Segments, more: Segments)
    requires IsTokenization(segs)
    requires IsTokenization(more) && StartsWith(Unlex(more), ';')
    ensures IsTokenization(Append(segs, more)) <==> Apart(segs, Unlex(more))
  {
    match segs
    case Nil =>
    case Cons(seg, rest) =>
      ApartExtends(rest, more);
      UnlexAppend(rest, more);
      StaysFit(seg, Unlex(rest), Unlex(more));
  }

  function SeparatorBefore(segs: Segments): Segments {
    Cons(Plain(';'), Cons(Plain(' '), segs))
  }

  lemma {:induction false} SeparatorTokens(rest: string)
    ensures Lex(SEPARATOR + rest) == SeparatorBefore(Lex(rest))
  {
    LexStep(Plain(' '), rest);
    LexStep(Plain(';'), [' '] + rest);
    assert SEPARATOR == [';'] + [' '];
    Assoc([';'], [' '], rest);
  }

  /** A text keeps its own tokens in front of another statement exactly when it is apart from it. */
  lemma {:induction false} LexJoin(text: string, rest: string)
    ensures Lex(text + (SEPARATOR + rest)) == Append(Lex(text), SeparatorBefore(Lex(rest)))
            <==> Apart(Lex(text), SEPARATOR + rest)
  {
    var a, b := Lex(text), Lex(SEPARATOR + rest);
    LexIsTokenization(text);
    LexIsTokenization(SEPARATOR + rest);
    LexIsTokenization(text + (SEPARATOR + rest));
    SeparatorTokens(rest);
    ApartExtends(a, b);
    UnlexAppend(a, b);
    if IsTokenization(Append(a, b)) {
      TokenizationIsLexed(Append(a, b));
    }
  }

  /** The tokens of several texts, each scanned on its own, with separators between. */
  function JoinedTokens(texts: seq<string>): Segments {
    if texts == [] then Nil
    else if |texts| == 1 then Lex(texts[0])
    else Append(Lex(texts[0]), SeparatorBefore(JoinedTokens(texts[1..])))
  }

  lemma {:induction false} JoinedText(texts: seq<string>)
    ensures Unlex(JoinedTokens(texts)) == Join(texts)
  {
    if |texts| == 1 {
      LexIsTokenization(texts[0]);
    } else if |texts| > 1 {
      LexIsTokenization(texts[0]);
      JoinedText(texts[1..]);
      UnlexAppend(Lex(texts[0]), SeparatorBefore(JoinedTokens(texts[1..])));
      assert SEPARATOR == [';'] + [' '];
      Assoc([';'], [' '], Join(texts[1..]));
    }
  }

  lemma {:induction false} TokensBehind(a: Segments, b: Segments)
    requires IsTokenization(Append(a, b))
    ensures IsTokenization(b)
  {
    if a.Cons? {
      TokensBehind(a.tail, b);
    }
  }

  /** Joined texts scan one by one exactly when each is apart from those behind it. */
  lemma {:induction false} JoinScansApart(texts: seq<string>)
    ensures Lex(Join(texts)) == JoinedTokens(texts) <==> Separable(texts)
  {
    if |texts| > 1 {
      var rest := texts[1..];
      JoinScansApart(rest);
      LexJoin(texts[0], Join(rest));
      if Lex(Join(texts)) == JoinedTokens(texts) {
        JoinedText(rest);
        LexIsTokenization(Join(texts));
        TokensBehind(Lex(texts[0]), SeparatorBefore(JoinedTokens(rest)));
        TokenizationIsLexed(JoinedTokens(rest));
      }
    }
  }

  lemma {:induction false} RenderAppend(a: Segments, b: Segments, target: TargetDialect)
    ensures Render(Append(a, b), target) == Render(a, target) + Render(b, target)
    ensures Aborts(Append(a, b)) <==> Aborts(a) || Aborts(b)
  {
    match a
    case Nil =>
    case Cons(seg, rest) =>
      RenderAppend(rest, b, target);
      Assoc(RenderSegment(seg, target), Render(rest, target), Render(b, target));
  }

  lemma {:induction false} RequoteJoined(text: string, rest: string, target: TargetDialect)
    requires Apart(Lex(text), SEPARATOR + rest)
    ensures Requote(text + (SEPARATOR + rest), target) == Requote(text, target) + (SEPARATOR + Requote(rest, target))
    ensures Aborts(Lex(text + (SEPARATOR + rest))) <==> Aborts(Lex(text)) || Aborts(Lex(rest))
  {
    LexJoin(text, rest);
    RenderAppend(Lex(text), SeparatorBefore(Lex(rest)), target);
    assert SEPARATOR == [';'] + [' '];
    Assoc([';'], [' '], Requote(rest, target));
  }

  function RequoteEach(texts: seq<string>, target: TargetDialect): seq<string> {
    if texts == [] then [] else [Requote(texts[0], target)] + RequoteEach(texts[1..], target)
  }

  predicate SomeAborts(texts: seq<string>) {
    texts != [] && (Aborts(Lex(texts[0])) || SomeAborts(texts[1..]))
  }

  /** Re-quoting distributes over the join. */
  lemma {:induction false} RequoteDistributes(texts: seq<string>, target: TargetDialect)
    requires Separable(texts)
    ensures Requote(Join(texts), target) == Join(RequoteEach(texts, target))
    ensures Aborts(Lex(Join(texts))) <==> SomeAborts(texts)
  {
    if |texts| >= 2 {
      RequoteDistributes(texts[1..], target);
      RequoteJoined(texts[0], Join(texts[1..]), target);
      assert RequoteEach(texts, target)[1..] == RequoteEach(texts[1..], target);
    } else if |texts| == 1 {
      assert texts[1..] == [];
    }
  }

  // ------------------------------------------------------------------ the entry points

  /** What the surrounding library does to one statement: rewrite, visit expressions, print. */
  datatype Stages<!S, E> = Stages(rewrite: S -> Result<S, E>, visit: S -> S, toText: S -> string)

  /** Unsliceable is the abort of re-quoting on a lone opening quote. */
  datatype Translated<E> = Sql(text: string) | Rejected(error: E) | Unsliceable

  function Finish<E>(printed: string, target: TargetDialect): Translated<E> {
    if Aborts(Lex(printed)) then Unsliceable else Sql(Requote(printed, target))
  }

  method TranslateStatement<S, E>(stmt: S, stages: Stages<S, E>, target: TargetDialect) returns (r: Translated<E>)
    ensures r == StatementText(stmt, stages, target)
  {
    match stages.rewrite(stmt)
    case Err(e) => return Rejected(e);
    case Ok(rewritten) =>
      var fixed := FixQuoting(stages.toText(stages.visit(rewritten)), target);
      return match fixed case Some(text) => Sql(text) case None => Unsliceable;
  }

  function StatementText<S, E>(stmt: S, stages: Stages<S, E>, target: TargetDialect): Translated<E> {
    match stages.rewrite(stmt)
    case Err(e) => Rejected(e)
    case Ok(rewritten) => Finish(stages.toText(stages.visit(rewritten)), target)
  }

  /** The printed texts of a list of statements, or the first rejection. */
  function PrintedAll<S, E>(stmts: seq<S>, stages: Stages<S, E>): Result<seq<string>, E> {
    if stmts == [] then Ok([])
    else
      match stages.rewrite(stmts[0])
      case Err(e) => Err(e)
      case Ok(s) =>
        Prepend([stages.toText(stages.visit(s))], PrintedAll(stmts[1..], stages))
  }

  function Prepend<E>(texts: seq<string>, r: Result<seq<string>, E>): Result<seq<string>, E> {
    match r case Err(e) => Err(e) case Ok(more) => Ok(texts + more)
  }

  lemma {:induction false} PrependNothing<E>(r: Result<seq<string>, E>)
    ensures Prepend([], r) == r
  {
    assert r.Ok? ==> [] + r.value == r.value;
  }

  lemma {:induction false} PrependAssoc<E>(texts: seq<string>, text: string, r: Result<seq<string>, E>)
    ensures Prepend(texts, Prepend([text], r)) == Prepend(texts + [text], r)
  {
    assert r.Ok? ==> texts + ([text] + r.value) == (texts + [text]) + r.value;
  }

  /** The first rejection, or the printed texts joined and re-quoted together. */
  function ListText<S, E>(parsed: Result<seq<S>, E>, stages: Stages<S, E>, target: TargetDialect): Translated<E> {
    match parsed
    case Err(e) => Rejected(e)
    case Ok(stmts) =>
      match PrintedAll(stmts, stages)
      case Err(e) => Rejected(e)
      case Ok(texts) => Finish(Join(texts), target)
  }

  method Translate<S, E>(front: FrontDialect, target: TargetDialect, sql: string,
                         parse: string -> Result<seq<S>, E>, stages: Stages<S, E>)
    returns (r: Translated<E>)
    ensures (front, target) in {(PostgresFront, Postgres), (MysqlFront, Mysql)} ==> r == Sql(sql)
    ensures (front, target) in {(PostgresFront, Mysql), (PostgresFront, Sqlite),
                                (MysqlFront, Postgres), (MysqlFront, Sqlite)} ==>
              r == ListText(parse(sql), stages, target)
  {
    if FrontMatchesTarget(front, target) {
      return Sql(sql);
    }
    var parsed := parse(sql);
    if parsed.Err? {
      return Rejected(parsed.error);
    }
    var stmts := parsed.value;
    var done: seq<S> := [];
    ghost var texts: seq<string> := [];
    assert stmts[0..] == stmts;
    PrependNothing(PrintedAll(stmts, stages));
    for i := 0 to |stmts|
      invariant |done| == i && Printed(done, stages) == texts
      invariant PrintedAll(stmts, stages) == Prepend(texts, PrintedAll(stmts[i..], stages))
    {
      assert stmts[i..][1..] == stmts[i + 1..];
      ghost var before, rest := texts, PrintedAll(stmts[i + 1..], stages);
      var rewritten := stages.rewrite(stmts[i]);
      if rewritten.Err? {
        return Rejected(rewritten.error);
      }
      PrintedAppend(done, rewritten.value, stages);
      texts := texts + [stages.toText(stages.visit(rewritten.value))];
      done := done + [rewritten.value];
      PrependAssoc(before, stages.toText(stages.visit(rewritten.value)), rest);
    }
    assert texts + [] == texts;
    var fixed := FixQuoting(Join(Printed(done, stages)), target);
    return match fixed case Some(text) => Sql(text) case None => Unsliceable;
  }

  function Printed<S, E>(stmts: seq<S>, stages: Stages<S, E>): (texts: seq<string>)
    ensures |texts| == |stmts|
  {
    if stmts == [] then [] else [stages.toText(stages.visit(stmts[0]))] + Printed(stmts[1..], stages)
  }

  lemma {:induction false} PrintedAppend<S, E>(stmts: seq<S>, s: S, stages: Stages<S, E>)
    ensures Printed(stmts + [s], stages) == Printed(stmts, stages) + [stages.toText(stages.visit(s))]
  {
    if stmts == [] {
      assert stmts + [s] == [s] && [s][1..] == [];
    } else {
      assert (stmts + [s])[1..] == stmts[1..] + [s];
      PrintedAppend(stmts[1..], s, stages);
    }
  }

  /** Per-statement results put together: the first rejection, else an abort, else the join. */
  function Combine<S, E>(stmts: seq<S>, stages: Stages<S, E>, target: TargetDialect): Translated<E> {
    if stmts == [] then Sql("")
    else
      var first := StatementText(stmts[0], stages, target);
      if |stmts| == 1 then first
      else
        match (first, Combine(stmts[1..], stages, target))
        case (Rejected(e), _) => Rejected(e)
        case (_, Rejected(e)) => Rejected(e)
        case (Sql(a), Sql(b)) => Sql(a + (SEPARATOR + b))
        case _ => Unsliceable
  }

  lemma {:induction false} CombineIsJoin<S, E>(stmts: seq<S>, stages: Stages<S, E>, target: TargetDialect)
    requires var printed := PrintedAll(stmts, stages); printed.Ok? ==> Separable(printed.value)
    ensures Combine(stmts, stages, target) == ListText(Ok(stmts), stages, target)
  {
    if stmts == [] {
      assert Lex("") == Nil;
    } else if |stmts| == 1 {
      assert stmts[1..] == [];
    } else {
      var tail := PrintedAll(stmts[1..], stages);
      var first := stages.rewrite(stmts[0]);
      if first.Ok? && tail.Ok? {
        var text := stages.toText(stages.visit(first.value));
        assert PrintedAll(stmts, stages) == Ok([text] + tail.value);
        assert ([text] + tail.value)[1..] == tail.value;
        CombineIsJoin(stmts[1..], stages, target);
        RequoteJoined(text, Join(tail.value), target);
      } else if first.Ok? {
        CombineIsJoin(stmts[1..], stages, target);
      }
    }
  }

  /**
   What a statement becomes: refused as the rewrite refuses it, else rewritten, visited, printed and
   re-quoted, in that order. A text that does not parse is refused as the parser refuses it, an empty
   list is the empty text.
   */
  lemma {:induction false} StagesInOrder<S, E>(stmt: S, stages: Stages<S, E>, target: TargetDialect)
    ensures stages.rewrite(stmt).Err? ==>
              && StatementText(stmt, stages, target) == Rejected(stages.rewrite(stmt).error)
              && ListText(Ok([stmt]), stages, target) == Rejected(stages.rewrite(stmt).error)
    ensures stages.rewrite(stmt).Ok? ==>
              var printed := stages.toText(stages.visit(stages.rewrite(stmt).value));
              var done := if Aborts(Lex(printed)) then Unsliceable else Sql(Render(Lex(printed), target));
              StatementText(stmt, stages, target) == done && ListText(Ok([stmt]), stages, target) == done
    ensures forall e: E :: ListText(Err(e), stages, target) == Rejected(e)
    ensures ListText(Ok([]), stages, target) == Sql("")
  {
    assert [stmt][1..] == [];
    assert Lex("") == Nil;
    if stages.rewrite(stmt).Ok? {
      var printed := stages.toText(stages.visit(stages.rewrite(stmt).value));
      assert PrintedAll([stmt], stages) == Ok([printed]) by { assert [printed] + [] == [printed]; }
    }
  }

  // ------------------------------------------------------------------ the need for completeness

  lemma {:induction false} DollarPair(body: string)
    requires '$' !in body
    ensures Lex("$$" + (body + "$$")) == Cons(Dollar("", body), Nil)
  {
    var d := Delimiter("");
    assert d == "$$";
    forall j | 0 <= j < |body| ensures !OccursAt(d, body + d, j) {
      assert (body + d)[j] == body[j] && d[0] == '$';
      assert body[j] in body;
    }
    assert OccursAt(d, body + d, |body|);
    FirstIsFound(d, body + d, Some(|body|));
    TokenizationIsLexed(Cons(Dollar("", body), Nil));
    assert (d + (body + d)) + [] == d + (body + d);
  }

  lemma {:induction false} LoneDollars()
    ensures Lex("$$") == Cons(Plain('$'), Cons(Plain('$'), Nil))
  {
    assert TagRun("$") == "" && "$"[1..] == "" && Find("$$", "") == None;
    TokenizationIsLexed(Cons(Plain('$'), Cons(Plain('$'), Nil)));
    assert ['$'] + (['$'] + []) == "$$";
  }

  lemma {:induction false} RenderOne(seg: Segment, target: TargetDialect)
    ensures Render(Cons(seg, Nil), target) == RenderSegment(seg, target)
  {
    assert RenderSegment(seg, target) + [] == RenderSegment(seg, target);
  }

  lemma {:induction false} DollarPairVerbatim(body: string, text: string)
    requires '$' !in body && text == "$$" + (body + "$$")
    ensures Requote(text, Sqlite) == text
  {
    DollarPair(body);
    assert Delimiter("") == "$$";
    RenderOne(Dollar("", body), Sqlite);
  }

  lemma {:induction false} LoneDollarsVerbatim(text: string)
    requires text == "$$"
    ensures Requote(text, Sqlite) == text
  {
    LoneDollars();
    assert ['$'] + (['$'] + []) == text;
  }

  lemma {:induction false} IdentifierStarts(rest: string)
    ensures StartsWith(Requote(['`'] + rest, Sqlite), '"')
  {
    var s := ['`'] + rest;
    NextSegmentFits(s);
    assert NextSegment(s).Quoted?;
  }

  lemma {:induction false} Cancel(a: string, x: string, y: string)
    requires a + x == a + y
    ensures x == y
  {
    assert (a + x)[|a|..] == x && (a + y)[|a|..] == y;
  }

  /**
   A `$` left over in one statement can open a dollar-quoted string that a later statement
   closes: joined, the identifier in between is not re-quoted.
   */
  lemma {:induction false} LeftOverDollar(first: string, name: string)
    requires first == "$$" && '$' !in name
    ensures var second := ['`'] + (name + ("`" + first));
            Requote(first + (SEPARATOR + second), Sqlite)
                != Requote(first, Sqlite) + (SEPARATOR + Requote(second, Sqlite))
  {
    var second := ['`'] + (name + ("`" + first));
    var both, fixed := first + (SEPARATOR + second), Requote(second, Sqlite);
    var body := SEPARATOR + (['`'] + (name + "`"));
    assert both == first + (body + first) by {
      Assoc(['`'], name + "`", first);
      Assoc(name, "`", first);
      Assoc(SEPARATOR, ['`'] + (name + "`"), first);
    }
    assert '$' !in body;
    DollarPairVerbatim(body, both);
    LoneDollarsVerbatim(first);
    IdentifierStarts(name + ("`" + first));
    if both == first + (SEPARATOR + fixed) {
      Cancel(first, SEPARATOR + second, SEPARATOR + fixed);
      Cancel(SEPARATOR, second, fixed);
    }
  }
}
