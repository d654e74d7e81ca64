/**
 What a translated statement looks like to the re-quoting pass: strings, dollar-quoted
 strings, quoted identifiers, comments, and single characters for everything else.

 `Fits` says, without any scanning, when a segment is a token in front of a given rest of
 the text. `Lex` is the scanner. They determine each other: `LexIsTokenization` and
 `TokenizationIsLexed`.
 */
module SqlLexer {
  import opened Wrappers
  import opened Text

  datatype Segment =
    | Plain(c: char)
    | Str(body: string, closed: bool)                    // 'body'
    | Quoted(quote: char, body: string, closed: bool)    // "body" or `body`
    | Dollar(tag: string, body: string)                  // $tag$body$tag$
    | LineComment(body: string)                          // --body
    | BlockComment(body: string, closed: bool)           // /*body*/

  predicate StartsWith(s: string, c: char) { s != [] && s[0] == c }

  function Delimiter(tag: string): string { "$" + tag + "$" }

  function SegmentText(seg: Segment): string {
    match seg
    case Plain(c) => [c]
    case Str(body, closed) => "'" + (body + (if closed then "'" else ""))
    case Quoted(q, body, closed) => [q] + (body + (if closed then [q] else []))
    case Dollar(tag, body) => Delimiter(tag) + (body + Delimiter(tag))
    case LineComment(body) => "--" + body
    case BlockComment(body, closed) => "/*" + (body + (if closed then "*/" else ""))
  }

  type Segments = List<Segment>

  function Unlex(segs: Segments): string {
    match segs
    case Nil => []
    case Cons(seg, rest) => SegmentText(seg) + Unlex(rest)
  }

  // ------------------------------------------------------------------ token shapes

  /** Every `q` in `body` is doubled. */
  predicate Doubled(body: string, q: char) {
    if body == [] then true
    else if body[0] != q then Doubled(body[1..], q)
    else |body| >= 2 && body[1] == q && Doubled(body[2..], q)
  }

  predicate OneLine(s: string) {
    s == [] || (s[0] != '\n' && OneLine(s[1..]))
  }

  /** The longest prefix of word characters: a candidate dollar-quote tag. */
  function TagRun(s: string): (t: string)
    ensures t <= s
    ensures |t| < |s| ==> !IsWord(s[|t|])
  {
    if s != [] && IsWord(s[0]) then [s[0]] + TagRun(s[1..]) else []
  }

  lemma {:induction false} TagRunIsWord(s: string)
    ensures AllWord(TagRun(s))
  {
    if s != [] && IsWord(s[0]) {
      TagRunIsWord(s[1..]);
      assert ([s[0]] + TagRun(s[1..]))[1..] == TagRun(s[1..]);
    }
  }

  /** Just after a `$`, `rest` completes an opening delimiter that is closed later on. */
  predicate DollarOpens(rest: string) {
    && rest != []
    && (rest[0] == '$' || IsAlphanumeric(rest[0]))
    && var tag := TagRun(rest);
    && |tag| < |rest| && rest[|tag|] == '$'
    && Find(Delimiter(tag), rest[|tag| + 1..]).Some?
  }

  /** `seg` is exactly the token that starts a text continuing with `rest`. */
  ghost predicate Fits(seg: Segment, rest: string) {
    match seg
    case Plain(c) =>
      && c != '\'' && !IsQuote(c)
      && (c == '$' ==> !DollarOpens(rest))
      && (c == '-' ==> !StartsWith(rest, '-'))
      && (c == '/' ==> !StartsWith(rest, '*'))
    case Str(body, closed) =>
      && Doubled(body, '\'')
      && (if closed then !StartsWith(rest, '\'') else rest == [])
    case Quoted(q, body, closed) =>
      && IsQuote(q) && Doubled(body, q)
      && (if closed then !StartsWith(rest, q) else rest == [])
    case Dollar(tag, body) =>
      && AllWord(tag)
      && (tag != [] ==> IsAlphanumeric(tag[0]))
      && Find(Delimiter(tag), body + Delimiter(tag)) == Some(|body|)
    case LineComment(body) =>
      && OneLine(body)
      && (rest == [] || rest[0] == '\n')
    case BlockComment(body, closed) =>
      && Find("*/", body) == None
      && (!closed ==> rest == [])
      && (closed ==> Find("*/", body + "*/") == Some(|body|))
  }

  ghost predicate IsTokenization(segs: Segments) {
    match segs
    case Nil => true
    case Cons(seg, rest) => Fits(seg, Unlex(rest)) && IsTokenization(rest)
  }

  // ------------------------------------------------------------------ the scanner

  datatype Extent = Extent(len: nat, closed: bool)

  /** How far a quoted body reaches from just after its opening `q`. */
  function BodyExtent(s: string, q: char): (e: Extent)
    ensures e.len + (if e.closed then 1 else 0) <= |s|
  {
    if s == [] then Extent(0, false)
    else if s[0] != q then
      var e := BodyExtent(s[1..], q);
      Extent(e.len + 1, e.closed)
    else if StartsWith(s[1..], q) then
      var e := BodyExtent(s[2..], q);
      Extent(e.len + 2, e.closed)
    else Extent(0, true)
  }

  /** The body ends at the first quote that is not doubled, or at the end of the text. */
  lemma {:induction false} BodyExtentSplits(s: string, q: char)
    ensures var e := BodyExtent(s, q);
            && Doubled(s[..e.len], q)
            && (if e.closed then s[e.len] == q && !StartsWith(s[e.len + 1..], q) else e.len == |s|)
  {
    if s != [] {
      if s[0] != q {
        var e := BodyExtent(s[1..], q);
        BodyExtentSplits(s[1..], q);
        assert s[..e.len + 1][1..] == s[1..][..e.len];
        assert e.closed ==> s[e.len + 2..] == s[1..][e.len + 1..];
      } else if StartsWith(s[1..], q) {
        var e := BodyExtent(s[2..], q);
        BodyExtentSplits(s[2..], q);
        assert s[..e.len + 2][2..] == s[2..][..e.len];
        assert e.closed ==> s[e.len + 3..] == s[2..][e.len + 1..];
      }
    }
  }

  /** The length of the line that starts `s`, without its line feed. */
  function LineLength(s: string): (n: nat)
    ensures n <= |s| && OneLine(s[..n])
    ensures n < |s| ==> s[n] == '\n'
  {
    if s == [] || s[0] == '\n' then 0
    else
      var n := LineLength(s[1..]);
      assert s[..n + 1] == [s[0]] + s[1..][..n];
      n + 1
  }

  function NextSegment(s: string): (seg: Segment)
    requires s != []
  {
    var c, rest := s[0], s[1..];
    if c == '\'' then
      var e := BodyExtent(rest, '\'');
      Str(rest[..e.len], e.closed)
    else if IsQuote(c) then
      var e := BodyExtent(rest, c);
      Quoted(c, rest[..e.len], e.closed)
    else if c == '$' && DollarOpens(rest) then
      var tag := TagRun(rest);
      var body := rest[|tag| + 1..];
      Dollar(tag, body[..Find(Delimiter(tag), body).value])
    else if c == '-' && StartsWith(rest, '-') then
      LineComment(rest[1..][..LineLength(rest[1..])])
    else if c == '/' && StartsWith(rest, '*') then
      match Find("*/", rest[1..])
      case Some(k) => BlockComment(rest[1..][..k], true)
      case None => BlockComment(rest[1..], false)
    else
      Plain(c)
  }

  lemma SplitAround(s: string, k: nat, p: string)
    requires OccursAt(p, s, k)
    ensures s == s[..k] + p + s[k + |p|..]
    ensures s[..k] + p == s[..k + |p|]
  {
  }

  /** A first occurrence is still the first one when the text is cut right behind it. */
  lemma {:induction false} FindInPrefix(p: string, s: string, k: nat)
    requires p != [] && Find(p, s) == Some(k)
    ensures s == s[..k] + p + s[k + |p|..]
    ensures Find(p, s[..k] + p) == Some(k)
  {
    FindIsFirst(p, s);
    SplitAround(s, k, p);
    var cut := s[..k + |p|];
    assert forall j :: OccursAt(p, cut, j) ==> OccursAt(p, s, j);
    FirstIsFound(p, cut, Some(k));
  }

  /** Nothing is found when the text is cut right before it. */
  lemma {:induction false} FindBefore(p: string, s: string, k: nat)
    requires p != [] && Find(p, s) == Some(k)
    ensures Find(p, s[..k]) == None
  {
    FindIsFirst(p, s);
    assert forall j :: OccursAt(p, s[..k], j) ==> OccursAt(p, s, j);
    FirstIsFound(p, s[..k], None);
  }

  /** ... and when anything at all follows it. */
  lemma {:induction false} FindExtends(p: string, s: string, k: nat, rest: string)
    requires p != [] && k + |p| == |s| && Find(p, s) == Some(k)
    ensures Find(p, s + rest) == Some(k)
  {
    FindIsFirst(p, s);
    assert forall j :: 0 <= j < k ==> OccursAt(p, s + rest, j) ==> OccursAt(p, s, j);
    FirstIsFound(p, s + rest, Some(k));
  }

  ghost predicate StartsText(seg: Segment, s: string) {
    var text := SegmentText(seg);
    text != [] && text <= s && Fits(seg, s[|text|..])
  }

  lemma {:induction false} Starts(seg: Segment, rest: string, s: string)
    requires s == SegmentText(seg) + rest && Fits(seg, rest)
    ensures StartsText(seg, s)
  {
    assert s[|SegmentText(seg)|..] == rest;
  }

  /** The quoted body that starts `after`, its closing quote if any, and what is left. */
  lemma {:induction false} SplitBody(after: string, q: char) returns (body: string, close: string, rest: string)
    ensures var e := BodyExtent(after, q);
            && body == after[..e.len] && close == (if e.closed then [q] else [])
            && Doubled(body, q) && (if e.closed then !StartsWith(rest, q) else rest == [])
    ensures after == (body + close) + rest
  {
    var e := BodyExtent(after, q);
    BodyExtentSplits(after, q);
    body, close := after[..e.len], if e.closed then [q] else [];
    rest := after[e.len + |close|..];
  }

  lemma {:induction false} QuotedStarts(s: string, q: char)
    requires StartsWith(s, q) && (q == '\'' || IsQuote(q))
    ensures StartsText(NextSegment(s), s)
  {
    var body, close, rest := SplitBody(s[1..], q);
    assert s == [q] + s[1..];
    Assoc([q], body + close, rest);
    Starts(NextSegment(s), rest, s);
  }

  lemma {:induction false} SplitTag(rest: string, tag: string)
    requires tag <= rest && |tag| < |rest| && rest[|tag|] == '$'
    ensures ['$'] + rest == Delimiter(tag) + rest[|tag| + 1..]
  {
    assert rest == tag + (['$'] + rest[|tag| + 1..]);
    assert ['$'] + rest == (['$'] + tag) + (['$'] + rest[|tag| + 1..]);
  }

  lemma NextIsDollar(s: string, rest: string)
    requires StartsWith(s, '$') && s[1..] == rest && DollarOpens(rest)
    ensures var tag := TagRun(rest);
            var after := rest[|tag| + 1..];
            NextSegment(s) == Dollar(tag, after[..Find(Delimiter(tag), after).value])
  {
  }

  /** The dollar-quoted string after a `$`, and what is left behind it. */
  lemma {:induction false} DollarSplits(rest: string) returns (tag: string, body: string, tail: string)
    requires DollarOpens(rest)
    ensures NextSegment(['$'] + rest) == Dollar(tag, body)
    ensures ['$'] + rest == Delimiter(tag) + (body + Delimiter(tag) + tail)
    ensures Find(Delimiter(tag), body + Delimiter(tag)) == Some(|body|)
    ensures AllWord(tag) && (tag != [] ==> IsAlphanumeric(tag[0]))
  {
    tag := TagRun(rest);
    var after := rest[|tag| + 1..];
    var d := Delimiter(tag);
    var k := Find(d, after).value;
    body, tail := after[..k], after[k + |d|..];
    assert (['$'] + rest)[1..] == rest;
    NextIsDollar(['$'] + rest, rest);
    TagRunIsWord(rest);
    FindInPrefix(d, after, k);
    SplitTag(rest, tag);
  }

  lemma {:induction false} DollarStarts(s: string)
    requires StartsWith(s, '$') && DollarOpens(s[1..])
    ensures StartsText(NextSegment(s), s)
  {
    var tag, body, tail := DollarSplits(s[1..]);
    assert s == ['$'] + s[1..];
    Assoc(Delimiter(tag), body + Delimiter(tag), tail);
    Starts(Dollar(tag, body), tail, s);
  }

  lemma {:induction false} LineCommentStarts(s: string)
    requires StartsWith(s, '-') && StartsWith(s[1..], '-')
    ensures StartsText(NextSegment(s), s)
  {
    var after := s[1..][1..];
    var n := LineLength(after);
    assert s == "--" + after;
    assert after == after[..n] + after[n..];
    Assoc("--", after[..n], after[n..]);
    Starts(LineComment(after[..n]), after[n..], s);
  }

  lemma {:induction false} BlockCommentStarts(s: string)
    requires StartsWith(s, '/') && StartsWith(s[1..], '*')
    ensures StartsText(NextSegment(s), s)
  {
    var after := s[1..][1..];
    assert s == "/*" + after;
    match Find("*/", after)
    case Some(k) =>
      FindInPrefix("*/", after, k);
      FindBefore("*/", after, k);
      var seg, rest := BlockComment(after[..k], true), after[k + 2..];
      Assoc("/*", after[..k] + "*/", rest);
      Starts(seg, rest, s);
    case None =>
      Starts(BlockComment(after, false), [], s);
  }

  lemma {:induction false} NextSegmentFits(s: string)
    requires s != []
    ensures StartsText(NextSegment(s), s)
  {
    if s[0] == '\'' || IsQuote(s[0]) {
      QuotedStarts(s, s[0]);
    } else if s[0] == '$' && DollarOpens(s[1..]) {
      DollarStarts(s);
    } else if s[0] == '-' && StartsWith(s[1..], '-') {
      LineCommentStarts(s);
    } else if s[0] == '/' && StartsWith(s[1..], '*') {
      BlockCommentStarts(s);
    }
  }

  function Lex(s: string): Segments
    decreases |s|
  {
    if s == [] then Nil
    else
      NextSegmentFits(s);
      var seg := NextSegment(s);
      Cons(seg, Lex(s[|SegmentText(seg)|..]))
  }

  /** Scanning splits any text into tokens, and loses nothing. */
  lemma {:induction false} LexIsTokenization(s: string)
    ensures Unlex(Lex(s)) == s
    ensures IsTokenization(Lex(s))
    decreases |s|
  {
    if s != [] {
      NextSegmentFits(s);
      var seg := NextSegment(s);
      var tail := s[|SegmentText(seg)|..];
      LexIsTokenization(tail);
      assert s == SegmentText(seg) + tail;
    }
  }

  lemma {:induction false} BodyExtentOf(body: string, q: char, rest: string)
    requires Doubled(body, q)
    ensures StartsWith(rest, q) && !StartsWith(rest[1..], q) ==> BodyExtent(body + rest, q) == Extent(|body|, true)
    ensures rest == [] ==> BodyExtent(body + rest, q) == Extent(|body|, false)
  {
    if body == [] {
      assert body + rest == rest;
    } else if body[0] != q {
      BodyExtentOf(body[1..], q, rest);
      assert (body + rest)[1..] == body[1..] + rest;
    } else {
      BodyExtentOf(body[2..], q, rest);
      assert (body + rest)[2..] == body[2..] + rest;
      assert (body + rest)[1..][0] == q;
    }
  }

  lemma {:induction false} TagRunOf(tag: string, rest: string)
    requires AllWord(tag)
    requires rest == [] || !IsWord(rest[0])
    ensures TagRun(tag + rest) == tag
  {
    if tag == [] {
      assert tag + rest == rest;
    } else {
      TagRunOf(tag[1..], rest);
      assert (tag + rest)[1..] == tag[1..] + rest;
    }
  }

  lemma {:induction false} LineLengthOf(body: string, rest: string)
    requires OneLine(body) && (rest == [] || rest[0] == '\n')
    ensures LineLength(body + rest) == |body|
  {
    if body == [] {
      assert body + rest == rest;
    } else {
      LineLengthOf(body[1..], rest);
      assert (body + rest)[1..] == body[1..] + rest;
    }
  }

  lemma {:induction false} QuotedIsNext(q: char, body: string, closed: bool, rest: string)
    requires (q == '\'' || IsQuote(q)) && Doubled(body, q)
    requires if closed then !StartsWith(rest, q) else rest == []
    ensures var seg := if q == '\'' then Str(body, closed) else Quoted(q, body, closed);
            NextSegment(SegmentText(seg) + rest) == seg
  {
    var seg := if q == '\'' then Str(body, closed) else Quoted(q, body, closed);
    var tail := (if closed then [q] else []) + rest;
    var close := if closed then [q] else [];
    Assoc([q], body + close, rest);
    Assoc(body, close, rest);
    assert ([q] + (body + tail))[1..] == body + tail;
    assert closed ==> tail[1..] == rest;
    BodyExtentOf(body, q, tail);
    assert (body + tail)[..|body|] == body;
  }

  lemma {:induction false} TagOpens(tag: string, after: string)
    requires AllWord(tag)
    requires tag != [] ==> IsAlphanumeric(tag[0])
    ensures var rest := tag + ("$" + after);
            && TagRun(rest) == tag && rest[|tag| + 1..] == after
            && DollarOpens(rest) == Find(Delimiter(tag), after).Some?
  {
    var rest := tag + ("$" + after);
    TagRunOf(tag, "$" + after);
    assert rest[|tag|] == '$' && rest[|tag| + 1..] == after;
    assert rest[0] == if tag == [] then '$' else tag[0];
  }

  lemma {:induction false} DollarText(tag: string, body: string, rest: string)
    ensures SegmentText(Dollar(tag, body)) + rest == ['$'] + (tag + ("$" + ((body + Delimiter(tag)) + rest)))
  {
    var d := Delimiter(tag);
    Assoc(d, body + d, rest);
    Assoc("$" + tag, "$", (body + d) + rest);
    Assoc("$", tag, "$" + ((body + d) + rest));
  }

  lemma {:induction false} DollarIsNext(tag: string, body: string, rest: string)
    requires Fits(Dollar(tag, body), rest)
    ensures NextSegment(SegmentText(Dollar(tag, body)) + rest) == Dollar(tag, body)
  {
    var d := Delimiter(tag);
    var after := (body + d) + rest;
    FindExtends(d, body + d, |body|, rest);
    TagOpens(tag, after);
    var behind := tag + ("$" + after);
    DollarText(tag, body, rest);
    assert (['$'] + behind)[1..] == behind;
    NextIsDollar(['$'] + behind, behind);
    assert after[..|body|] == body;
  }

  lemma {:induction false} LineCommentIsNext(body: string, rest: string)
    requires Fits(LineComment(body), rest)
    ensures NextSegment(SegmentText(LineComment(body)) + rest) == LineComment(body)
  {
    var s := SegmentText(LineComment(body)) + rest;
    assert s[1..][1..] == body + rest;
    LineLengthOf(body, rest);
    assert (body + rest)[..|body|] == body;
  }

  lemma {:induction false} NextIsBlockComment(after: string)
    ensures NextSegment("/*" + after) ==
            match Find("*/", after)
            case Some(k) => BlockComment(after[..k], true)
            case None => BlockComment(after, false)
  {
    assert ("/*" + after)[1..][1..] == after;
  }

  lemma {:induction false} BlockCommentIsNext(body: string, closed: bool, rest: string)
    requires Fits(BlockComment(body, closed), rest)
    ensures NextSegment(SegmentText(BlockComment(body, closed)) + rest) == BlockComment(body, closed)
  {
    var close := if closed then "*/" else "";
    var after := (body + close) + rest;
    Assoc("/*", body + close, rest);
    NextIsBlockComment(after);
    if closed {
      FindExtends("*/", body + "*/", |body|, rest);
      assert after[..|body|] == body;
    } else {
      assert after == body;
    }
  }

  lemma {:induction false} NextSegmentOf(seg: Segment, rest: string)
    requires Fits(seg, rest)
    ensures NextSegment(SegmentText(seg) + rest) == seg
  {
    match seg
    case Plain(c) => assert (SegmentText(seg) + rest)[1..] == rest;
    case Str(body, closed) => QuotedIsNext('\'', body, closed, rest);
    case Quoted(q, body, closed) => QuotedIsNext(q, body, closed, rest);
    case Dollar(tag, body) => DollarIsNext(tag, body, rest);
    case LineComment(body) => LineCommentIsNext(body, rest);
    case BlockComment(body, closed) => BlockCommentIsNext(body, closed, rest);
  }

  lemma {:induction false} LexStep(seg: Segment, rest: string)
    requires Fits(seg, rest)
    ensures Lex(SegmentText(seg) + rest) == Cons(seg, Lex(rest))
  {
    var text := SegmentText(seg);
    NextSegmentOf(seg, rest);
    NextSegmentFits(text + rest);
    assert (text + rest)[|text|..] == rest;
  }

  /** Every tokenization is what the scanner finds, so a text has exactly one. */
  lemma {:induction false} TokenizationIsLexed(segs: Segments)
    requires IsTokenization(segs)
    ensures Lex(Unlex(segs)) == segs
  {
    if segs.Cons? {
      TokenizationIsLexed(segs.tail);
      LexStep(segs.head, Unlex(segs.tail));
    }
  }

  // ------------------------------------------------------------------ the forms, spelled out

  lemma {:induction false} NoQuoteDoubled(s: string, q: char)
    requires q !in s
    ensures Doubled(s, q)
  {
    if s != [] {
      NoQuoteDoubled(s[1..], q);
    }
  }

  /** A string: `'body'`. */
  lemma {:induction false} StringForm(body: string, rest: string)
    requires '\'' !in body && !StartsWith(rest, '\'')
    ensures Lex("'" + (body + ("'" + rest))) == Cons(Str(body, true), Lex(rest))
  {
    NoQuoteDoubled(body, '\'');
    LexStep(Str(body, true), rest);
    AssocAll("'", body, "'", rest);
  }

  /** Identifiers: `"body"`, and the same in backticks. */
  lemma {:induction false} IdentifierForms(body: string, rest: string, q: char)
    requires (q == '"' || q == '`') && q !in body && !StartsWith(rest, q)
    ensures Lex([q] + (body + ([q] + rest))) == Cons(Quoted(q, body, true), Lex(rest))
  {
    NoQuoteDoubled(body, q);
    LexStep(Quoted(q, body, true), rest);
    AssocAll([q], body, [q], rest);
  }

  lemma {:induction false} OneLineOf(body: string)
    requires '\n' !in body
    ensures OneLine(body)
  {
    if body != [] {
      assert body[0] in body;
      OneLineOf(body[1..]);
    }
  }

  /** A comment to the end of the line. */
  lemma {:induction false} LineCommentForm(line: string, rest: string)
    requires '\n' !in line
    ensures Lex("--" + (line + ("\n" + rest))) == Cons(LineComment(line), Lex("\n" + rest))
  {
    OneLineOf(line);
    LexStep(LineComment(line), "\n" + rest);
    Assoc("--", line, "\n" + rest);
  }

  /** What starts with a character that `body` does not have is found behind `body` at the earliest. */
  lemma {:induction false} FindBehind(p: string, body: string)
    requires p != [] && p[0] !in body
    ensures Find(p, body) == None && Find(p, body + p) == Some(|body|)
  {
    forall j | 0 <= j < |body| ensures !OccursAt(p, body + p, j) && !OccursAt(p, body, j) {
      assert (body + p)[j + 0] == body[j + 0] && body[j] in body;
    }
    FirstIsFound(p, body, None);
    FirstIsFound(p, body + p, Some(|body|));
  }

  /** A comment up to the first closing mark. */
  lemma {:induction false} BlockCommentForm(body: string, rest: string)
    requires '*' !in body
    ensures Lex("/*" + (body + ("*/" + rest))) == Cons(BlockComment(body, true), Lex(rest))
  {
    FindBehind("*/", body);
    LexStep(BlockComment(body, true), rest);
    AssocAll("/*", body, "*/", rest);
  }

  /** A dollar quote: its tag is of letters, digits and underscores and starts with no underscore, or is empty. */
  lemma {:induction false} DollarForm(tag: string, body: string, rest: string)
    requires AllWord(tag) && (tag != [] ==> tag[0] != '_') && '$' !in body
    ensures var d := "$" + (tag + "$");
            Lex(d + (body + (d + rest))) == Cons(Dollar(tag, body), Lex(rest))
  {
    var d := Delimiter(tag);
    Assoc("$", tag, "$");
    FindBehind(d, body);
    LexStep(Dollar(tag, body), rest);
    AssocAll(d, body, d, rest);
  }
}
