/**
 What re-quoting preserves. The output scans to the image of each segment of the input, in
 order, exactly when every identifier is closed and no two identifiers touch; every name
 survives exactly when no identifier contains its own quote.
 */
module Requoting {
  import opened Wrappers
  import opened Text
  import opened Dialects
  import opened SqlLexer
  import opened Quoting

  function Image(seg: Segment, target: TargetDialect): Segment {
    match seg
    case Quoted(_, body, closed) => Quoted(TargetQuote(target), Escape(body, TargetQuote(target)), closed)
    case _ => seg
  }

  function Images(segs: Segments, target: TargetDialect): Segments {
    match segs
    case Nil => Nil
    case Cons(seg, rest) => Cons(Image(seg, target), Images(rest, target))
  }

  predicate IdentifiersClosed(segs: Segments) {
    match segs
    case Nil => true
    case Cons(seg, rest) => (seg.Quoted? ==> seg.closed) && IdentifiersClosed(rest)
  }

  /** Two identifiers with nothing between them. */
  predicate Touching(segs: Segments) {
    match segs
    case Cons(a, Cons(b, _)) => (a.Quoted? && b.Quoted?) || Touching(segs.tail)
    case _ => false
  }

  // ------------------------------------------------------------------ text up to its quotes

  /** `s` with every run of quote characters collapsed to one double quote. */
  function Flat(s: string): (f: string)
    ensures f == [] <==> s == []
    ensures s != [] ==> f[0] == if IsQuote(s[0]) then '"' else s[0]
  {
    if s == [] then []
    else if !IsQuote(s[0]) then [s[0]] + Flat(s[1..])
    else if |s| > 1 && IsQuote(s[1]) then Flat(s[1..])
    else ['"'] + Flat(s[1..])
  }

  lemma {:induction false} FlatCons(c: char, s: string)
    ensures Flat([c] + s) ==
            if !IsQuote(c) then [c] + Flat(s) else if s != [] && IsQuote(s[0]) then Flat(s) else ['"'] + Flat(s)
  {
    assert ([c] + s)[1..] == s;
  }

  lemma {:induction false} FlatCongruent(a: string, x: string, y: string)
    requires Flat(x) == Flat(y)
    ensures Flat(a + x) == Flat(a + y)
  {
    if a == [] {
      assert a + x == x && a + y == y;
    } else {
      FlatCongruent(a[1..], x, y);
      assert a + x == [a[0]] + (a[1..] + x);
      assert a + y == [a[0]] + (a[1..] + y);
      FlatCons(a[0], a[1..] + x);
      FlatCons(a[0], a[1..] + y);
    }
  }

  /** Changing the quotes around a body, and doubling them inside, is invisible. */
  lemma {:induction false} FlatEscape(body: string, q: char, tq: char, x: string, y: string)
    requires IsQuote(q) && IsQuote(tq) && Flat(x) == Flat(y)
    ensures Flat(body + ([q] + x)) == Flat(Escape(body, tq) + ([tq] + y))
  {
    if body == [] {
      assert body + ([q] + x) == [q] + x;
      assert Escape(body, tq) + ([tq] + y) == [tq] + y;
      FlatCons(q, x);
      FlatCons(tq, y);
    } else {
      var c, a, b := body[0], body[1..] + ([q] + x), Escape(body[1..], tq) + ([tq] + y);
      FlatEscape(body[1..], q, tq, x, y);
      assert body == [c] + body[1..];
      Assoc([c], body[1..], [q] + x);
      FlatCons(c, a);
      FlatCons(c, b);
      if c == tq {
        assert [c, c] + Escape(body[1..], tq) == [c] + ([c] + Escape(body[1..], tq));
        Assoc([c], [c] + Escape(body[1..], tq), [tq] + y);
        Assoc([c], Escape(body[1..], tq), [tq] + y);
        FlatCons(c, [c] + b);
      } else {
        Assoc([c], Escape(body[1..], tq), [tq] + y);
      }
    }
  }

  lemma {:induction false} FlatSegment(seg: Segment, target: TargetDialect, x: string, y: string)
    requires Flat(x) == Flat(y)
    requires seg.Quoted? ==> seg.closed && IsQuote(seg.quote)
    ensures Flat(SegmentText(seg) + x) == Flat(RenderSegment(seg, target) + y)
  {
    match seg
    case Quoted(q, body, closed) =>
      var tq := TargetQuote(target);
      FlatEscape(body, q, tq, x, y);
      var a, b := body + ([q] + x), Escape(body, tq) + ([tq] + y);
      Assoc([q], body + [q], x);
      Assoc(body, [q], x);
      Assoc([tq] + Escape(body, tq), [tq], y);
      Assoc([tq], Escape(body, tq), [tq] + y);
      FlatCons(q, a);
      FlatCons(tq, b);
    case _ => FlatCongruent(SegmentText(seg), x, y);
  }

  lemma {:induction false} FlatRender(segs: Segments, target: TargetDialect)
    requires IsTokenization(segs) && IdentifiersClosed(segs)
    ensures Flat(Render(segs, target)) == Flat(Unlex(segs))
  {
    if segs.Cons? {
      FlatRender(segs.tail, target);
      FlatSegment(segs.head, target, Unlex(segs.tail), Render(segs.tail, target));
    }
  }

  // ------------------------------------------------------------------ dollar quotes

  predicate QuoteFree(w: string) {
    w == [] || (!IsQuote(w[0]) && QuoteFree(w[1..]))
  }

  lemma {:induction false} FlatPrefix(w: string, x: string)
    requires QuoteFree(w)
    ensures w <= x <==> w <= Flat(x)
  {
    if w != [] && x != [] {
      var t, f := w[1..], Flat(x[1..]);
      FlatPrefix(t, x[1..]);
      PrefixCons(w, x);
      if !IsQuote(x[0]) {
        PrefixCons(w, [x[0]] + f);
        assert ([x[0]] + f)[1..] == f;
      }
    }
  }

  lemma {:induction false} PrefixCons(w: string, x: string)
    requires w != [] && x != []
    ensures w <= x <==> w[0] == x[0] && w[1..] <= x[1..]
  {
    assert w == [w[0]] + w[1..] && x == [x[0]] + x[1..];
  }

  /** Collapsing quotes leaves a quote-free prefix alone. */
  lemma {:induction false} FlatAfterPrefix(w: string, x: string)
    requires QuoteFree(w)
    ensures Flat(w + x) == w + Flat(x)
  {
    if w == [] {
      assert w + x == x;
    } else {
      FlatAfterPrefix(w[1..], x);
      assert w == [w[0]] + w[1..];
      Assoc([w[0]], w[1..], x);
      FlatCons(w[0], w[1..] + x);
      Assoc([w[0]], w[1..], Flat(x));
    }
  }

  lemma {:induction false} FlatFinds(w: string, x: string)
    requires w != [] && QuoteFree(w)
    ensures Find(w, x).Some? <==> Find(w, Flat(x)).Some?
  {
    FlatPrefix(w, x);
    if x != [] {
      FlatFinds(w, x[1..]);
      var f := Flat(x[1..]);
      assert (['"'] + f)[1..] == f && ([x[0]] + f)[1..] == f;
      if IsQuote(x[0]) {
        assert !(w <= ['"'] + f);
      }
    }
  }

  lemma {:induction false} FlatTag(x: string)
    ensures TagRun(Flat(x)) == TagRun(x)
  {
    if x != [] {
      FlatTag(x[1..]);
      if IsWord(x[0]) {
        assert Flat(x)[1..] == Flat(x[1..]);
      }
    }
  }

  lemma {:induction false} TagQuoteFree(tag: string)
    requires AllWord(tag)
    ensures QuoteFree(tag) && QuoteFree(tag + "$") && QuoteFree(Delimiter(tag))
  {
    if tag == [] {
      assert tag + "$" == "$" && "$"[1..] == [];
    } else {
      TagQuoteFree(tag[1..]);
      assert (tag + "$")[1..] == tag[1..] + "$";
    }
    assert Delimiter(tag)[1..] == tag + "$";
  }

  lemma {:induction false} OpensBehindTag(tag: string, rest: string)
    requires TagRun(tag + rest) == tag
    ensures DollarOpens(tag + rest)
            <==> && tag + rest != [] && ((tag + rest)[0] == '$' || IsAlphanumeric((tag + rest)[0]))
                 && rest != [] && rest[0] == '$' && Find(Delimiter(tag), rest[1..]).Some?
  {
    if rest != [] {
      AfterTag(tag, rest);
    }
  }

  /** Whether a `$` opens a dollar-quoted string depends on the rest only up to its quotes. */
  lemma {:induction false} FlatDollar(x: string)
    ensures DollarOpens(x) <==> DollarOpens(Flat(x))
  {
    var tag := TagRun(x);
    var rest := x[|tag|..];
    assert x == tag + rest;
    FlatTag(x);
    TagRunIsWord(x);
    TagQuoteFree(tag);
    FlatAfterPrefix(tag, rest);
    OpensBehindTag(tag, rest);
    OpensBehindTag(tag, Flat(rest));
    if rest != [] && rest[0] == '$' {
      FlatFinds(Delimiter(tag), rest[1..]);
      assert Flat(rest)[1..] == Flat(rest[1..]);
    }
  }

  lemma AfterTag(tag: string, rest: string)
    requires rest != []
    ensures (tag + rest)[|tag| + 1..] == rest[1..]
  {
  }

  // ------------------------------------------------------------------ the token stream

  lemma SegmentTextStarts(seg: Segment)
    ensures SegmentText(seg) != []
    ensures seg.Quoted? ==> SegmentText(seg)[0] == seg.quote
  {
  }

  lemma {:induction false} EscapeDoubles(body: string, q: char)
    ensures Doubled(Escape(body, q), q)
  {
    if body != [] {
      EscapeDoubles(body[1..], q);
      var e := Escape(body[1..], q);
      assert ([q, q] + e)[2..] == e && ([body[0]] + e)[1..] == e;
    }
  }

  lemma {:induction false} ImagesRender(segs: Segments, target: TargetDialect)
    requires IdentifiersClosed(segs)
    ensures Unlex(Images(segs, target)) == Render(segs, target)
  {
    if segs.Cons? {
      ImagesRender(segs.tail, target);
      RenderIsImageText(segs.head, target);
    }
  }

  lemma {:induction false} SegmentNotEmpty(segs: Segments)
    requires segs.Cons?
    ensures Unlex(segs) != []
  {
    SegmentTextStarts(segs.head);
  }

  /** Texts that look alike to the segment before them. */
  ghost predicate SameStart(x: string, y: string) {
    && (x == [] <==> y == [])
    && (x != [] ==> x[0] == y[0] || (IsQuote(x[0]) && IsQuote(y[0])))
  }

  lemma {:induction false} RenderStarts(segs: Segments, target: TargetDialect)
    requires IsTokenization(segs)
    ensures SameStart(Unlex(segs), Render(segs, target))
    ensures segs.Cons? && !segs.head.Quoted? ==> !StartsWith(Render(segs, target), TargetQuote(target))
  {
    if segs.Cons? {
      SegmentTextStarts(segs.head);
    }
  }

  lemma {:induction false} ImageFits(segs: Segments, target: TargetDialect)
    requires segs.Cons? && IsTokenization(segs) && IdentifiersClosed(segs) && !Touching(segs)
    ensures Fits(Image(segs.head, target), Render(segs.tail, target))
  {
    var seg, tail := segs.head, segs.tail;
    RenderStarts(tail, target);
    if seg.Quoted? {
      EscapeDoubles(seg.body, TargetQuote(target));
    } else {
      if seg == Plain('$') {
        FlatRender(tail, target);
        FlatDollar(Unlex(tail));
        FlatDollar(Render(tail, target));
      }
    }
  }

  lemma {:induction false} ImagesTokenize(segs: Segments, target: TargetDialect)
    requires IsTokenization(segs) && IdentifiersClosed(segs) && !Touching(segs)
    ensures IsTokenization(Images(segs, target))
  {
    if segs.Cons? {
      ImagesTokenize(segs.tail, target);
      ImageFits(segs, target);
      ImagesRender(segs.tail, target);
    }
  }

  lemma {:induction false} TouchingMerge(segs: Segments, target: TargetDialect)
    requires IdentifiersClosed(segs) && Touching(segs)
    ensures !IsTokenization(Images(segs, target))
  {
    if segs.head.Quoted? && segs.tail.head.Quoted? {
      SegmentTextStarts(Image(segs.tail.head, target));
    } else {
      TouchingMerge(segs.tail, target);
    }
  }

  lemma {:induction false} UnclosedLosesText(q: char, body: string, target: TargetDialect)
    ensures RenderSegment(Quoted(q, body, false), target) != SegmentText(Image(Quoted(q, body, false), target))
  {
    var tq := TargetQuote(target);
    if body != [] {
      var kept, c := body[..|body| - 1], body[|body| - 1];
      assert body == kept + [c];
      EscapeAppend(kept, [c], tq);
      assert [c][1..] == [];
      var e := if c == tq then [tq, tq] else [c];
      assert Escape([c], tq) == e;
      var emitted, image := [tq] + Escape(kept, tq) + [tq], [tq] + ((Escape(kept, tq) + e) + []);
      assert SegmentText(Image(Quoted(q, body, false), target)) == image;
      assert c != tq ==> emitted[|emitted| - 1] == tq && image[|emitted| - 1] == c;
    }
  }

  lemma {:induction false} UnclosedDiffer(segs: Segments, target: TargetDialect)
    requires IsTokenization(segs) && !IdentifiersClosed(segs)
    ensures Render(segs, target) != Unlex(Images(segs, target))
  {
    var seg, tail := segs.head, segs.tail;
    if seg.Quoted? && !seg.closed {
      assert tail == Nil by {
        if tail.Cons? {
          SegmentNotEmpty(tail);
        }
      }
      UnclosedLosesText(seg.quote, seg.body, target);
      assert Render(tail, target) == [] && Unlex(Images(tail, target)) == [];
      assert RenderSegment(seg, target) + [] == RenderSegment(seg, target);
      assert SegmentText(Image(seg, target)) + [] == SegmentText(Image(seg, target));
    } else {
      UnclosedDiffer(tail, target);
      RenderIsImageText(seg, target);
      var text := RenderSegment(seg, target);
      assert (text + Render(tail, target))[|text|..] == Render(tail, target);
      assert (text + Unlex(Images(tail, target)))[|text|..] == Unlex(Images(tail, target));
    }
  }

  lemma {:induction false} RenderIsImageText(seg: Segment, target: TargetDialect)
    requires seg.Quoted? ==> seg.closed
    ensures RenderSegment(seg, target) == SegmentText(Image(seg, target))
  {
    if seg.Quoted? {
      var tq := TargetQuote(target);
      Assoc([tq], Escape(seg.body, tq), [tq]);
    }
  }

  /**
   However a text splits into tokens, their images are the tokens of the output exactly when every
   quoted identifier is closed and no two of them touch.
   */
  lemma {:induction false} ImagesAreTokens(segs: Segments, target: TargetDialect)
    requires IsTokenization(segs)
    ensures IsTokenization(Images(segs, target)) && Unlex(Images(segs, target)) == Render(segs, target)
            <==> IdentifiersClosed(segs) && !Touching(segs)
  {
    if !IdentifiersClosed(segs) {
      UnclosedDiffer(segs, target);
    } else if Touching(segs) {
      TouchingMerge(segs, target);
    } else {
      ImagesTokenize(segs, target);
      ImagesRender(segs, target);
    }
  }

  /**
   The output scans to the same tokens as the input, with each identifier in the target's quotes,
   exactly when every quoted identifier is closed and no two of them touch.
   */
  lemma {:induction false} RequotingKeepsTokens(sql: string, target: TargetDialect)
    ensures Lex(Requote(sql, target)) == Images(Lex(sql), target)
            <==> IdentifiersClosed(Lex(sql)) && !Touching(Lex(sql))
  {
    var segs, out := Lex(sql), Requote(sql, target);
    LexIsTokenization(sql);
    LexIsTokenization(out);
    ImagesAreTokens(segs, target);
    if Unlex(Images(segs, target)) == out && IsTokenization(Images(segs, target)) {
      TokenizationIsLexed(Images(segs, target));
    }
  }

  /** Every identifier is quoted with `q`. */
  predicate QuotedWith(segs: Segments, q: char) {
    match segs
    case Nil => true
    case Cons(seg, rest) => (seg.Quoted? ==> seg.quote == q) && QuotedWith(rest, q)
  }

  lemma {:induction false} ImagesQuotedWith(segs: Segments, target: TargetDialect)
    ensures QuotedWith(Images(segs, target), match target case Mysql => '`' case Postgres => '"' case Sqlite => '"')
  {
    if segs.Cons? {
      ImagesQuotedWith(segs.tail, target);
    }
  }

  /** MySQL gets backticks around every identifier, PostgreSQL and SQLite double quotes. */
  lemma {:induction false} RequotingUsesTargetQuotes(sql: string, target: TargetDialect)
    requires IdentifiersClosed(Lex(sql)) && !Touching(Lex(sql))
    ensures QuotedWith(Lex(Requote(sql, target)),
                       match target case Mysql => '`' case Postgres => '"' case Sqlite => '"')
  {
    RequotingKeepsTokens(sql, target);
    ImagesQuotedWith(Lex(sql), target);
  }

  lemma {:induction false} EscapeNothing(body: string, q: char)
    requires q !in body
    ensures Escape(body, q) == body
  {
    if body != [] {
      EscapeNothing(body[1..], q);
      assert body[0] in body && body == [body[0]] + body[1..];
    }
  }

  /** An identifier left open at the end of a text is closed, and loses its last character, whatever that is. */
  lemma {:induction false} UnclosedIsCut(q: char, body: string, last: char, target: TargetDialect)
    requires (q == '"' || q == '`') && q !in body + [last] && '"' !in body && '`' !in body
    ensures Requote([q] + (body + [last]), target)
            == if target == Mysql then ['`'] + body + ['`'] else ['"'] + body + ['"']
    ensures !Aborts(Lex([q] + (body + [last])))
  {
    var seg, tq := Quoted(q, body + [last], false), TargetQuote(target);
    NoQuoteDoubled(body + [last], q);
    LexStep(seg, []);
    assert SegmentText(seg) + [] == [q] + (body + [last]);
    EscapeNothing(body, tq);
    assert (body + [last])[..|body|] == body;
    assert RenderSegment(seg, target) + [] == [tq] + body + [tq];
    assert Render(Nil, target) == [];
  }

  /** With nothing behind the quote the slice is out of range. */
  lemma {:induction false} LoneQuoteAborts(q: char)
    requires q == '"' || q == '`'
    ensures Aborts(Lex([q]))
  {
    var seg := Quoted(q, [], false);
    LexStep(seg, []);
    assert SegmentText(seg) + [] == [q];
  }

  // ------------------------------------------------------------------ names

  /** The name a quoted body denotes: doubled quotes stand for one. */
  function Undouble(body: string, q: char): (name: string)
    ensures |name| <= |body|
  {
    if body == [] then []
    else if |body| >= 2 && body[0] == q && body[1] == q then [q] + Undouble(body[2..], q)
    else [body[0]] + Undouble(body[1..], q)
  }

  /** The names of all identifiers, in order. */
  function Names(segs: Segments): List<string> {
    match segs
    case Nil => Nil
    case Cons(Quoted(q, body, _), rest) => Cons(Undouble(body, q), Names(rest))
    case Cons(_, rest) => Names(rest)
  }

  predicate BodiesFreeOf(segs: Segments, q: char) {
    match segs
    case Nil => true
    case Cons(seg, rest) => (seg.Quoted? ==> q !in seg.body) && BodiesFreeOf(rest, q)
  }

  predicate BodiesFreeOfOwnQuote(segs: Segments) {
    match segs
    case Nil => true
    case Cons(seg, rest) => (seg.Quoted? ==> seg.quote !in seg.body) && BodiesFreeOfOwnQuote(rest)
  }

  lemma {:induction false} UndoubleEscape(body: string, q: char)
    ensures Undouble(Escape(body, q), q) == body
  {
    if body != [] {
      UndoubleEscape(body[1..], q);
      var e := Escape(body[1..], q);
      assert ([q, q] + e)[2..] == e && ([body[0]] + e)[1..] == e;
    }
  }

  lemma {:induction false} UndoubleShortens(body: string, q: char)
    requires Doubled(body, q)
    ensures Undouble(body, q) == body <==> q !in body
    ensures q in body ==> |Undouble(body, q)| < |body|
  {
    if body != [] {
      if body[0] == q {
        assert body[0] in body;
      } else {
        UndoubleShortens(body[1..], q);
        assert body == [body[0]] + body[1..];
        assert q in body <==> q in body[1..];
      }
    }
  }

  lemma {:induction false} ImageNames(segs: Segments, target: TargetDialect)
    requires IsTokenization(segs)
    ensures Names(Images(segs, target)) == Names(segs) <==> BodiesFreeOfOwnQuote(segs)
  {
    if segs.Cons? {
      var seg := segs.head;
      ImageNames(segs.tail, target);
      if seg.Quoted? {
        UndoubleEscape(seg.body, TargetQuote(target));
        UndoubleShortens(seg.body, seg.quote);
      }
    }
  }

  /** Every identifier still denotes the same name exactly when none contains its own quote. */
  lemma {:induction false} RequotingKeepsNames(sql: string, target: TargetDialect)
    requires IdentifiersClosed(Lex(sql)) && !Touching(Lex(sql))
    ensures Names(Lex(Requote(sql, target))) == Names(Lex(sql)) <==> BodiesFreeOfOwnQuote(Lex(sql))
  {
    RequotingKeepsTokens(sql, target);
    LexIsTokenization(sql);
    ImageNames(Lex(sql), target);
  }

  // ------------------------------------------------------------------ re-quoting twice

  /** Escaping for `a` first leaves a trace exactly when the body contains `a`. */
  lemma {:induction false} EscapeTwice(body: string, a: char, b: char)
    ensures |Escape(Escape(body, a), b)| >= |Escape(body, b)|
    ensures a in body ==> |Escape(Escape(body, a), b)| > |Escape(body, b)|
    ensures a !in body ==> Escape(body, a) == body
  {
    if body != [] {
      var c, rest := body[0], body[1..];
      EscapeTwice(rest, a, b);
      assert body == [c] + rest;
      assert a in body <==> a == c || a in rest;
      EscapeAppend(if c == a then [a, a] else [c], Escape(rest, a), b);
      assert |Escape([c], b)| == if c == b then 2 else 1 by { assert [c][1..] == []; }
      assert |Escape([a, a], b)| > |Escape([a], b)| by { assert [a, a][1..] == [a] && [a][1..] == []; }
    }
  }

  lemma {:induction false} RenderTwice(segs: Segments, via: TargetDialect, target: TargetDialect)
    requires IdentifiersClosed(segs)
    ensures |Render(Images(segs, via), target)| >= |Render(segs, target)|
    ensures if BodiesFreeOf(segs, TargetQuote(via))
            then Render(Images(segs, via), target) == Render(segs, target)
            else |Render(Images(segs, via), target)| > |Render(segs, target)|
  {
    if segs.Cons? {
      RenderTwice(segs.tail, via, target);
      if segs.head.Quoted? {
        EscapeTwice(segs.head.body, TargetQuote(via), TargetQuote(target));
      }
    }
  }

  /**
   Going through another target's quoting first makes no difference exactly when no
   identifier contains that target's quote; with `via == target` this is idempotence.
   */
  lemma {:induction false} RequotingAbsorbs(sql: string, via: TargetDialect, target: TargetDialect)
    requires IdentifiersClosed(Lex(sql)) && !Touching(Lex(sql))
    ensures Requote(Requote(sql, via), target) == Requote(sql, target)
            <==> BodiesFreeOf(Lex(sql), TargetQuote(via))
  {
    RequotingKeepsTokens(sql, via);
    RenderTwice(Lex(sql), via, target);
  }
}
