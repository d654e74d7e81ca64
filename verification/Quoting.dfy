/** The re-quoting pass: the scanner, and the text it computes stated over segments. */
module Quoting {
  import opened Wrappers
  import opened Text
  import opened Dialects
  import opened SqlLexer

  function TargetQuote(target: TargetDialect): char {
    if target == Mysql then '`' else '"'
  }

  /** The part of a quoted body that is emitted: an unclosed one loses its last character. */
  function Kept(body: string, closed: bool): string {
    if closed || body == [] then body else body[..|body| - 1]
  }

  function RenderSegment(seg: Segment, target: TargetDialect): string {
    match seg
    case Quoted(_, body, closed) =>
      [TargetQuote(target)] + Escape(Kept(body, closed), TargetQuote(target)) + [TargetQuote(target)]
    case _ => SegmentText(seg)
  }

  function Render(segs: Segments, target: TargetDialect): string {
    match segs
    case Nil => []
    case Cons(seg, rest) => RenderSegment(seg, target) + Render(rest, target)
  }

  /** The re-quoted text. */
  function Requote(sql: string, target: TargetDialect): string {
    Render(Lex(sql), target)
  }

  /** An opening quote with nothing behind it: slicing its body is out of range. */
  predicate IsLoneQuote(seg: Segment) { seg.Quoted? && !seg.closed && seg.body == [] }

  predicate Aborts(segs: Segments) {
    segs.Cons? && (IsLoneQuote(segs.head) || Aborts(segs.tail))
  }

  // ------------------------------------------------------------------ scanning one segment

  lemma SuffixOf(s: string, a: nat, b: nat)
    requires a + b <= |s|
    ensures s[a..][b..] == s[a + b..]
    ensures s[a..][..b] == s[a..a + b]
  {
  }

  lemma {:induction false} BodyStep(chars: string, i: nat, q: char)
    requires i < |chars|
    ensures var e := BodyExtent(chars[i..], q);
            if chars[i] != q then
              var e1 := BodyExtent(chars[i + 1..], q);
              e == Extent(e1.len + 1, e1.closed)
            else if i + 1 < |chars| && chars[i + 1] == q then
              var e2 := BodyExtent(chars[i + 2..], q);
              e == Extent(e2.len + 2, e2.closed)
            else e == Extent(0, true)
  {
    SuffixOf(chars, i, 1);
    if i + 1 < |chars| {
      SuffixOf(chars, i, 2);
    }
  }

  /** Advance past a quoted body and its closing `q`, from just after the opening one. */
  method ScanQuoted(chars: string, start: nat, q: char) returns (i: nat)
    requires start <= |chars|
    ensures var e := BodyExtent(chars[start..], q);
            i == start + e.len + (if e.closed then 1 else 0) <= |chars|
  {
    i := start;
    var n := |chars|;
    ghost var e0 := BodyExtent(chars[start..], q);
    while i < n
      invariant start <= i <= n
      invariant e0.len == i - start + BodyExtent(chars[i..], q).len
      invariant e0.closed == BodyExtent(chars[i..], q).closed
    {
      BodyStep(chars, i, q);
      if chars[i] == q {
        i := i + 1;
        if i < n && chars[i] == q {
          i := i + 1;
        } else {
          return;
        }
      } else {
        i := i + 1;
      }
    }
  }

  /** Advance to the next line feed or the end of the text. */
  method ScanLine(chars: string, start: nat) returns (i: nat)
    requires start <= |chars|
    ensures i == start + LineLength(chars[start..]) <= |chars|
  {
    i := start;
    while i < |chars| && chars[i] != '\n'
      invariant start <= i <= |chars|
      invariant LineLength(chars[start..]) == i - start + LineLength(chars[i..])
    {
      SuffixOf(chars, i, 1);
      i := i + 1;
    }
  }

  lemma OccursShifted(p: string, s: string, a: nat, k: nat)
    requires a <= |s|
    ensures OccursAt(p, s[a..], k) <==> OccursAt(p, s, a + k)
  {
  }

  lemma {:induction false} FoundShifted(p: string, s: string, a: nat, k: nat)
    requires a <= k && OccursAt(p, s, k)
    requires forall j :: a <= j < k ==> !OccursAt(p, s, j)
    ensures a <= |s| && Find(p, s[a..]) == Some(k - a)
  {
    forall j: nat ensures OccursAt(p, s[a..], j) <==> OccursAt(p, s, a + j) {
      OccursShifted(p, s, a, j);
    }
    FirstIsFound(p, s[a..], Some(k - a));
  }

  lemma {:induction false} NotFoundShifted(p: string, s: string, a: nat)
    requires a <= |s| && p != []
    requires forall j :: a <= j < |s| ==> !OccursAt(p, s, j)
    ensures Find(p, s[a..]) == None
  {
    forall j: nat ensures OccursAt(p, s[a..], j) <==> OccursAt(p, s, a + j) {
      OccursShifted(p, s, a, j);
    }
    FirstIsFound(p, s[a..], None);
  }

  /** Advance past the end of a block comment, from just after its opening. */
  method ScanBlock(chars: string, start: nat) returns (i: nat)
    requires start <= |chars|
    ensures i <= |chars|
    ensures i == match Find("*/", chars[start..]) case Some(k) => start + k + 2 case None => |chars|
  {
    var n := |chars|;
    i := start;
    while i + 1 < n && !(chars[i] == '*' && chars[i + 1] == '/')
      invariant start <= i <= n
      invariant forall j :: start <= j < i ==> !OccursAt("*/", chars, j)
    {
      assert "*/"[0] == '*' && "*/"[1] == '/';
      i := i + 1;
    }
    if i + 1 < n {
      assert OccursAt("*/", chars, i);
      FoundShifted("*/", chars, start, i);
    } else {
      NotFoundShifted("*/", chars, start);
    }
    i := if i + 2 < n then i + 2 else n;
  }

  /** Where the dollar-quoted string that starts at `start` ends, or just past the `$`. */
  function DollarEnd(chars: string, start: nat): nat
    requires start < |chars|
  {
    var tag := TagRun(chars[start + 1..]);
    var j := start + 1 + |tag|;
    if j >= |chars| || chars[j] != '$' then start + 1
    else
      match Find(Delimiter(tag), chars[j + 1..])
      case Some(k) => j + 1 + k + |Delimiter(tag)|
      case None => start + 1
  }

  /** Does `chars` continue at `k` with a `$` and then `tag` and a `$`? If so, where does that end? */
  method MatchDelimiter(chars: string, k: nat, tag: string) returns (end: Option<nat>)
    requires k < |chars|
    ensures end == if OccursAt(Delimiter(tag), chars, k) then Some(k + |Delimiter(tag)|) else None
  {
    ghost var d := Delimiter(tag);
    assert forall i :: 0 <= i < |tag| ==> d[i + 1] == tag[i];
    if chars[k] == '$' {
      var m, t := k + 1, 0;
      while t < |tag| && m < |chars| && chars[m] == tag[t]
        invariant 0 <= t <= |tag| && m == k + 1 + t <= |chars|
        invariant forall i :: 0 <= i < t ==> chars[k + 1 + i] == tag[i]
      {
        t := t + 1;
        m := m + 1;
      }
      if t == |tag| && m < |chars| && chars[m] == '$' {
        assert forall i :: 0 <= i < |d| ==> chars[k + i] == d[i] by {
          forall i | 0 <= i < |d| ensures chars[k + i] == d[i] {
            if 0 < i < |d| - 1 {
              assert chars[k + 1 + (i - 1)] == tag[i - 1];
            }
          }
        }
        return Some(m + 1);
      }
      assert t < |tag| ==> d[t + 1] == tag[t];
      assert d[|tag| + 1] == '$';
    } else {
      assert d[0] == '$';
    }
    return None;
  }

  /** Advance past a tag. */
  method ScanTag(chars: string, start: nat) returns (j: nat)
    requires start <= |chars|
    ensures start <= j <= |chars| && chars[start..j] == TagRun(chars[start..])
  {
    j := start;
    while j < |chars| && IsWord(chars[j])
      invariant start <= j <= |chars|
      invariant |TagRun(chars[start..])| == j - start + |TagRun(chars[j..])|
    {
      NextAt(chars, j);
      j := j + 1;
    }
    assert chars[start..][..j - start] == chars[start..j];
  }

  /** Where the first `$tag$` at or after `start` ends. */
  method FindDelimiter(chars: string, start: nat, tag: string) returns (end: Option<nat>)
    requires start <= |chars|
    ensures end == match Find(Delimiter(tag), chars[start..])
                   case Some(i) => Some(start + i + |Delimiter(tag)|)
                   case None => None
  {
    ghost var d := Delimiter(tag);
    var k := start;
    while k < |chars|
      invariant start <= k <= |chars|
      invariant forall i :: start <= i < k ==> !OccursAt(d, chars, i)
    {
      var matched := MatchDelimiter(chars, k, tag);
      if matched.Some? {
        FoundShifted(d, chars, start, k);
        return matched;
      }
      k := k + 1;
    }
    NotFoundShifted(d, chars, start);
    return None;
  }

  method SkipDollarQuoted(chars: string, start: nat) returns (end: nat)
    requires start < |chars|
    ensures end == DollarEnd(chars, start)
  {
    var j := ScanTag(chars, start + 1);
    if j >= |chars| || chars[j] != '$' {
      return start + 1;
    }
    var tag := chars[start + 1..j];
    var found := FindDelimiter(chars, j + 1, tag);
    end := match found case Some(k) => k case None => start + 1;
  }

  lemma {:induction false} EscapeAppend(a: string, b: string, q: char)
    ensures Escape(a + b, q) == Escape(a, q) + Escape(b, q)
  {
    if a == [] {
      assert a + b == b;
    } else {
      EscapeAppend(a[1..], b, q);
      assert (a + b)[1..] == a[1..] + b;
      Assoc(if a[0] == q then [q, q] else [a[0]], Escape(a[1..], q), Escape(b, q));
    }
  }

  /** Emit `body` between target quotes, doubling every target quote inside it. */
  method EmitIdentifier(body: string, q: char) returns (out: string)
    ensures out == [q] + Escape(body, q) + [q]
  {
    out := [q];
    for i := 0 to |body|
      invariant out == [q] + Escape(body[..i], q)
    {
      assert body[..i + 1] == body[..i] + [body[i]];
      EscapeAppend(body[..i], [body[i]], q);
      assert [body[i]][1..] == [];
      if body[i] == q {
        out := out + [q];
      }
      out := out + [body[i]];
    }
    assert body[..|body|] == body;
    out := out + [q];
  }

  // ------------------------------------------------------------------ the whole pass

  /** What the loop has left to do at `i`, given what it has emitted. */
  ghost predicate Pending(chars: string, i: nat, out: string, target: TargetDialect) {
    && i <= |chars|
    && Requote(chars, target) == out + Requote(chars[i..], target)
    && (Aborts(Lex(chars)) <==> Aborts(Lex(chars[i..])))
  }

  /** `piece` is what the segment at `i`, which ends at `end`, turns into. */
  ghost predicate Handled(chars: string, i: nat, end: nat, piece: string, target: TargetDialect)
    requires i < |chars|
  {
    var seg := NextSegment(chars[i..]);
    !IsLoneQuote(seg) && end == i + |SegmentText(seg)| && piece == RenderSegment(seg, target)
  }

  lemma {:induction false} RenderNext(s: string, target: TargetDialect)
    requires s != []
    ensures 0 < |SegmentText(NextSegment(s))| <= |s|
    ensures var seg := NextSegment(s);
            var tail := s[|SegmentText(seg)|..];
            && Requote(s, target) == RenderSegment(seg, target) + Requote(tail, target)
            && (Aborts(Lex(s)) <==> IsLoneQuote(seg) || Aborts(Lex(tail)))
  {
    NextSegmentFits(s);
    var seg := NextSegment(s);
  }

  lemma {:induction false} Advance(chars: string, i: nat, end: nat, out: string, piece: string, target: TargetDialect)
    requires i < |chars| && Pending(chars, i, out, target)
    requires Handled(chars, i, end, piece, target)
    ensures i < end && Pending(chars, end, out + piece, target)
  {
    RenderNext(chars[i..], target);
    assert chars[i..][end - i..] == chars[end..];
    assert Requote(chars, target) == (out + piece) + Requote(chars[end..], target) by {
      Assoc(out, piece, Requote(chars[end..], target));
    }
  }

  /** The text of the next segment, cut out of the whole text. */
  lemma {:induction false} CutSegment(chars: string, i: nat)
    requires i < |chars|
    ensures var text := SegmentText(NextSegment(chars[i..]));
            0 < |text| <= |chars| - i && text == chars[i..i + |text|]
  {
    NextSegmentFits(chars[i..]);
    SuffixOf(chars, i, |SegmentText(NextSegment(chars[i..]))|);
  }

  lemma NextAt(chars: string, i: nat)
    requires i < |chars|
    ensures chars[i..][0] == chars[i] && chars[i..][1..] == chars[i + 1..]
    ensures i + 1 < |chars| ==> chars[i + 1..][0] == chars[i + 1] && chars[i + 1..][1..] == chars[i + 2..]
  {
  }

  lemma {:induction false} DollarOpensAt(chars: string, i: nat)
    requires i < |chars|
    ensures var rest, end := chars[i + 1..], DollarEnd(chars, i);
            && (DollarOpens(rest) <==> rest != [] && (rest[0] == '$' || IsAlphanumeric(rest[0])) && end > i + 1)
            && (DollarOpens(rest) ==>
                var tag := TagRun(rest);
                var d := Delimiter(tag);
                end == i + |d| + Find(d, rest[|tag| + 1..]).value + |d|)
  {
    var n := |TagRun(chars[i + 1..])|;
    if i + 1 + n < |chars| {
      SuffixOf(chars, i + 1, n + 1);
    }
  }

  lemma {:induction false} DollarEndIsSegment(chars: string, i: nat)
    requires i < |chars| && chars[i] == '$'
    ensures var seg := NextSegment(chars[i..]);
            var end :=
              if i + 1 < |chars| && (chars[i + 1] == '$' || IsAlphanumeric(chars[i + 1])) then DollarEnd(chars, i)
              else i + 1;
            if end > i + 1 then seg.Dollar? && end == i + |SegmentText(seg)| else seg == Plain('$')
  {
    var rest := chars[i + 1..];
    assert chars[i..] == ['$'] + rest;
    assert (['$'] + rest)[1..] == rest;
    DollarOpensAt(chars, i);
    if DollarOpens(rest) {
      NextIsDollar(['$'] + rest, rest);
    }
  }

  lemma {:induction false} QuotedAt(chars: string, i: nat)
    requires i < |chars| && IsQuote(chars[i])
    ensures var e := BodyExtent(chars[i + 1..], chars[i]);
            && i + 1 + e.len + (if e.closed then 1 else 0) <= |chars|
            && NextSegment(chars[i..]) == Quoted(chars[i], chars[i + 1..i + 1 + e.len], e.closed)
  {
    NextAt(chars, i);
    SuffixOf(chars, i + 1, BodyExtent(chars[i + 1..], chars[i]).len);
  }

  lemma KeptSlice(chars: string, a: nat, len: nat, closed: bool)
    requires a + len <= |chars| && (closed || len > 0)
    ensures Kept(chars[a..a + len], closed) == chars[a..a + len + (if closed then 0 else -1)]
  {
  }

  lemma {:induction false} IdentifierHandled(chars: string, i: nat, end: nat, target: TargetDialect)
    requires i < |chars| && IsQuote(chars[i])
    requires var e := BodyExtent(chars[i + 1..], chars[i]);
             end == i + 1 + e.len + (if e.closed then 1 else 0) <= |chars|
    ensures IsLoneQuote(NextSegment(chars[i..])) <==> end < i + 2
    ensures end >= i + 2 ==>
              var q := TargetQuote(target);
              Handled(chars, i, end, [q] + Escape(chars[i + 1..end - 1], q) + [q], target)
  {
    var e := BodyExtent(chars[i + 1..], chars[i]);
    QuotedAt(chars, i);
    if end >= i + 2 {
      KeptSlice(chars, i + 1, e.len, e.closed);
    }
  }

  method CopyString(chars: string, i: nat, ghost target: TargetDialect) returns (end: nat, piece: string)
    requires i < |chars| && chars[i] == '\''
    ensures Handled(chars, i, end, piece, target)
  {
    NextAt(chars, i);
    CutSegment(chars, i);
    end := ScanQuoted(chars, i + 1, '\'');
    piece := chars[i..end];
  }

  method CopyDollar(chars: string, i: nat, ghost target: TargetDialect) returns (end: nat, piece: string)
    requires i < |chars| && chars[i] == '$'
    ensures Handled(chars, i, end, piece, target)
  {
    DollarEndIsSegment(chars, i);
    CutSegment(chars, i);
    if i + 1 < |chars| && (chars[i + 1] == '$' || IsAlphanumeric(chars[i + 1])) {
      end := SkipDollarQuoted(chars, i);
      if end > i + 1 {
        return end, chars[i..end];
      }
    }
    return i + 1, ['$'];
  }

  /** None when the body would be cut out of range. */
  method ConvertIdentifier(chars: string, i: nat, target: TargetDialect) returns (end: nat, piece: Option<string>)
    requires i < |chars| && IsQuote(chars[i])
    ensures piece == None <==> IsLoneQuote(NextSegment(chars[i..]))
    ensures piece.Some? ==> Handled(chars, i, end, piece.value, target)
  {
    end := ScanQuoted(chars, i + 1, chars[i]);
    IdentifierHandled(chars, i, end, target);
    if end - 1 < i + 1 {
      return end, None;
    }
    var identifier := EmitIdentifier(chars[i + 1..end - 1], TargetQuote(target));
    return end, Some(identifier);
  }

  method CopyLineComment(chars: string, i: nat, ghost target: TargetDialect) returns (end: nat, piece: string)
    requires i + 1 < |chars| && chars[i] == '-' && chars[i + 1] == '-'
    ensures Handled(chars, i, end, piece, target)
  {
    NextAt(chars, i);
    CutSegment(chars, i);
    end := ScanLine(chars, i + 2);
    piece := chars[i..end];
  }

  method CopyBlockComment(chars: string, i: nat, ghost target: TargetDialect) returns (end: nat, piece: string)
    requires i + 1 < |chars| && chars[i] == '/' && chars[i + 1] == '*'
    ensures Handled(chars, i, end, piece, target)
  {
    NextAt(chars, i);
    CutSegment(chars, i);
    end := ScanBlock(chars, i + 2);
    piece := chars[i..end];
  }

  lemma {:induction false} PlainAt(chars: string, i: nat, target: TargetDialect)
    requires i < |chars| && chars[i] != '\'' && chars[i] != '$' && !IsQuote(chars[i])
    requires !(chars[i] == '-' && i + 1 < |chars| && chars[i + 1] == '-')
    requires !(chars[i] == '/' && i + 1 < |chars| && chars[i + 1] == '*')
    ensures Handled(chars, i, i + 1, [chars[i]], target)
  {
    NextAt(chars, i);
  }

  lemma {:induction false} LoneQuoteAborts(chars: string, i: nat)
    requires i < |chars| && IsLoneQuote(NextSegment(chars[i..]))
    ensures Aborts(Lex(chars[i..]))
  {
    NextSegmentFits(chars[i..]);
  }

  /**
   Convert identifier quotes for the target. None is the out-of-range slice on a text that ends
   in a lone opening quote.
   */
  method FixQuoting(sql: string, target: TargetDialect) returns (r: Option<string>)
    ensures r == if Aborts(Lex(sql)) then None else Some(Requote(sql, target))
  {
    var chars, n := sql, |sql|;
    var out := "";
    var i := 0;
    assert chars[0..] == chars;
    while i < n
      invariant Pending(chars, i, out, target)
      decreases n - i
    {
      var c := chars[i];
      var end, piece;
      if c == '\'' {
        end, piece := CopyString(chars, i, target);
      } else if c == '$' {
        end, piece := CopyDollar(chars, i, target);
      } else if IsQuote(c) {
        var e, converted := ConvertIdentifier(chars, i, target);
        if converted.None? {
          LoneQuoteAborts(chars, i);
          return None;
        }
        end, piece := e, converted.value;
      } else if c == '-' && i + 1 < n && chars[i + 1] == '-' {
        end, piece := CopyLineComment(chars, i, target);
      } else if c == '/' && i + 1 < n && chars[i + 1] == '*' {
        end, piece := CopyBlockComment(chars, i, target);
      } else {
        PlainAt(chars, i, target);
        end, piece := i + 1, [c];
      }
      Advance(chars, i, end, out, piece, target);
      out := out + piece;
      i := end;
    }
    assert Lex(chars[n..]) == Nil;
    assert out + [] == out;
    return Some(out);
  }
}
