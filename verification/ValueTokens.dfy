/**
 Substitution of quoted values as the re-quoting pass's scanner sees it: that scanner knows
 comments, identifiers and dollar quotes, the substituting one knows only strings.
 */
module ValueTokens {
  import opened Wrappers
  import opened Text
  import opened SqlLexer
  import opened Placeholders
  import opened Substitution
  import Requoting

  /** The digits that start a list of tokens. */
  function Digits(segs: Segments): (d: string)
    ensures AllDigits(d)
  {
    match segs
    case Cons(Plain(c), rest) =>
      if IsDigit(c) then
        assert ([c] + Digits(rest))[1..] == Digits(rest);
        [c] + Digits(rest)
      else []
    case _ => []
  }

  function Size(segs: Segments): nat {
    match segs case Nil => 0 case Cons(_, rest) => 1 + Size(rest)
  }

  function BehindDigits(segs: Segments): (rest: Segments)
    ensures Size(rest) <= Size(segs)
  {
    match segs
    case Cons(Plain(c), rest) => if IsDigit(c) then BehindDigits(rest) else segs
    case _ => segs
  }

  /** The placeholder these tokens start with, and what is behind it. */
  function FirstPlaceholder(segs: Segments): (r: Option<(Piece, Segments)>)
    ensures r.Some? ==> IsPlaceholder(r.value.0) && Size(r.value.1) < Size(segs)
    ensures r.Some? && r.value.0.Numbered? ==> AllDigits(r.value.0.digits)
  {
    match segs
    case Cons(Plain(c), rest) =>
      if c == '?' then Some((Positional, rest))
      else if c == '$' && Digits(rest) != [] then Some((Numbered(Digits(rest)), BehindDigits(rest)))
      else None
    case _ => None
  }

  function ValueFor(p: Piece, replaced: nat, values: seq<string>): string
    requires IsPlaceholder(p) && (p.Numbered? ==> AllDigits(p.digits))
  {
    match LiteralFor(p, replaced, values) case Ok(v) => v case Err(_) => ""
  }

  function ValueToken(value: string): Segment { Str(Escape(value, '\''), true) }

  /** The tokens with each placeholder turned into one string. */
  function FilledTokens(segs: Segments, replaced: nat, values: seq<string>): Segments
    decreases Size(segs)
  {
    match FirstPlaceholder(segs)
    case Some((p, rest)) => Cons(ValueToken(ValueFor(p, replaced, values)), FilledTokens(rest, replaced + 1, values))
    case None =>
      match segs
      case Nil => Nil
      case Cons(seg, rest) => Cons(seg, FilledTokens(rest, replaced, values))
  }

  predicate HasPlaceholder(segs: Segments)
    decreases Size(segs)
  {
    FirstPlaceholder(segs).Some? || (segs.Cons? && HasPlaceholder(segs.tail))
  }

  predicate StartsString(segs: Segments) { segs.Cons? && segs.head.Str? }

  /** A placeholder directly next to a string or to another placeholder. */
  predicate Abuts(segs: Segments)
    decreases Size(segs)
  {
    match FirstPlaceholder(segs)
    case Some((_, rest)) => StartsString(rest) || FirstPlaceholder(rest).Some? || Abuts(rest)
    case None => segs.Cons? && ((segs.head.Str? && FirstPlaceholder(segs.tail).Some?) || Abuts(segs.tail))
  }

  /** The word that starts these tokens. */
  function TagOf(segs: Segments): string {
    match segs
    case Cons(Plain(c), rest) => if IsWord(c) then [c] + TagOf(rest) else []
    case _ => []
  }

  function BehindTag(segs: Segments): (rest: Segments)
    ensures Size(rest) <= Size(segs)
  {
    match segs
    case Cons(Plain(c), rest) => if IsWord(c) then BehindTag(rest) else segs
    case _ => segs
  }

  predicate StartsDollar(segs: Segments) {
    segs.Cons? && FirstPlaceholder(segs).None? && (segs.head == Plain('$') || segs.head.Dollar?)
  }

  /** Behind a `$`, these tokens complete an opening `$tag$`. */
  predicate HalfOpen(segs: Segments) {
    StartsDollar(BehindTag(segs)) && (TagOf(segs) != [] ==> IsAlphanumeric(TagOf(segs)[0]))
  }

  predicate OpenHere(segs: Segments) {
    segs.Cons? && segs.head == Plain('$') && HalfOpen(segs.tail) && HasPlaceholder(segs.tail)
  }

  /** A `$tag$` that nothing closes is left open in front of a placeholder. */
  predicate OpenDollar(segs: Segments)
    decreases Size(segs)
  {
    match FirstPlaceholder(segs)
    case Some((_, rest)) => OpenDollar(rest)
    case None => segs.Cons? && (OpenHere(segs) || OpenDollar(segs.tail))
  }

  /** The tag of the first one. */
  function OpenTag(segs: Segments): string
    requires OpenDollar(segs)
    decreases Size(segs)
  {
    match FirstPlaceholder(segs)
    case Some((_, rest)) => OpenTag(rest)
    case None => if OpenHere(segs) then TagOf(segs.tail) else OpenTag(segs.tail)
  }

  // ------------------------------------------------------------------ the tokens stay tokens

  lemma {:induction false} DigitsText(segs: Segments)
    requires IsTokenization(segs)
    ensures Unlex(segs) == Digits(segs) + Unlex(BehindDigits(segs))
    ensures IsTokenization(BehindDigits(segs))
    ensures !StartsWithDigit(Unlex(BehindDigits(segs)))
  {
    match segs
    case Nil =>
    case Cons(seg, rest) =>
      if seg.Plain? && IsDigit(seg.c) {
        DigitsText(rest);
        Assoc([seg.c], Digits(rest), Unlex(BehindDigits(rest)));
      } else {
        assert Unlex(segs) == [] + Unlex(segs);
      }
  }

  /** A placeholder among the tokens is one for the substituting scanner. */
  lemma {:induction false} PlaceholderText(segs: Segments)
    requires IsTokenization(segs) && FirstPlaceholder(segs).Some?
    ensures var (p, rest) := FirstPlaceholder(segs).value;
            && Unlex(segs) == PieceText(p) + Unlex(rest)
            && PieceFits(p, Unlex(rest))
            && IsTokenization(rest)
  {
    if segs.head == Plain('$') {
      DigitsText(segs.tail);
      Assoc(['$'], Digits(segs.tail), Unlex(BehindDigits(segs.tail)));
    }
  }

  lemma {:induction false} NothingToFill(segs: Segments, replaced: nat, values: seq<string>)
    requires !HasPlaceholder(segs)
    ensures FilledTokens(segs, replaced, values) == segs
  {
    if segs.Cons? {
      NothingToFill(segs.tail, replaced, values);
    }
  }

  /** How a text starts once its placeholders are filled. */
  ghost predicate StartsAlike(segs: Segments, x: string, y: string) {
    && (x == [] <==> y == [])
    && (x != [] ==> y[0] == if FirstPlaceholder(segs).Some? then '\'' else x[0])
    && (x != [] && FirstPlaceholder(segs).Some? ==> x[0] == '?' || x[0] == '$')
    && (StartsWith(x, '\'') <==> StartsString(segs))
  }

  lemma FilledStarts(segs: Segments, replaced: nat, values: seq<string>)
    requires IsTokenization(segs)
    ensures StartsAlike(segs, Unlex(segs), Unlex(FilledTokens(segs, replaced, values)))
  {
  }

  lemma WordsAreNoPlaceholder(c: char, rest: Segments)
    requires IsWord(c)
    ensures FirstPlaceholder(Cons(Plain(c), rest)).None?
  {
  }

  lemma {:induction false} NoTag(segs: Segments, replaced: nat, values: seq<string>)
    requires IsTokenization(segs) && TagOf(segs) == []
    ensures BehindTag(segs) == segs
    ensures var y := Unlex(FilledTokens(segs, replaced, values));
            (y == [] || !IsWord(y[0])) && (StartsWith(y, '$') <==> StartsDollar(segs))
  {
    FilledStarts(segs, replaced, values);
  }

  /** Filling leaves a leading word alone, and what follows it is no word. */
  lemma {:induction false} FilledTag(segs: Segments, replaced: nat, values: seq<string>)
    requires IsTokenization(segs)
    ensures AllWord(TagOf(segs)) && IsTokenization(BehindTag(segs))
    ensures Unlex(FilledTokens(segs, replaced, values))
            == TagOf(segs) + Unlex(FilledTokens(BehindTag(segs), replaced, values))
    ensures var y := Unlex(FilledTokens(BehindTag(segs), replaced, values));
            (y == [] || !IsWord(y[0])) && (StartsWith(y, '$') <==> StartsDollar(BehindTag(segs)))
  {
    if TagOf(segs) == [] {
      NoTag(segs, replaced, values);
      assert [] + Unlex(FilledTokens(segs, replaced, values)) == Unlex(FilledTokens(segs, replaced, values));
    } else {
      TagStep(segs, replaced, values);
      FilledTag(segs.tail, replaced, values);
    }
  }

  lemma {:induction false} TagStep(segs: Segments, replaced: nat, values: seq<string>)
    requires TagOf(segs) != []
    ensures segs.head.Plain? && IsWord(segs.head.c)
    ensures TagOf(segs) == [segs.head.c] + TagOf(segs.tail) && BehindTag(segs) == BehindTag(segs.tail)
    ensures TagOf(segs)[1..] == TagOf(segs.tail)
    ensures FilledTokens(segs, replaced, values) == Cons(segs.head, FilledTokens(segs.tail, replaced, values))
    ensures forall y :: [segs.head.c] + (TagOf(segs.tail) + y) == TagOf(segs) + y
  {
    WordsAreNoPlaceholder(segs.head.c, segs.tail);
  }

  /** Filled tokens behind a `$` complete a `$tag$` exactly when the tokens do. */
  lemma {:induction false} FilledOpens(segs: Segments, replaced: nat, values: seq<string>)
    requires IsTokenization(segs)
    ensures var y := Unlex(FilledTokens(BehindTag(segs), replaced, values));
            DollarOpens(Unlex(FilledTokens(segs, replaced, values)))
            <==> HalfOpen(segs) && Find(Delimiter(TagOf(segs)), y[1..]).Some?
  {
    var tag, y := TagOf(segs), Unlex(FilledTokens(BehindTag(segs), replaced, values));
    FilledTag(segs, replaced, values);
    TagRunOf(tag, y);
    Requoting.OpensBehindTag(tag, y);
    if tag != [] {
      assert (tag + y)[0] == tag[0];
      assert tag[0] != '$';
    } else {
      assert tag + y == y;
    }
  }

  lemma {:induction false} TokenBeforeFilled(segs: Segments, replaced: nat, values: seq<string>)
    requires segs.Cons? && IsTokenization(segs) && !Abuts(segs) && FirstPlaceholder(segs).None? && !OpenHere(segs)
    ensures Fits(segs.head, Unlex(FilledTokens(segs.tail, replaced, values)))
  {
    FilledStarts(segs.tail, replaced, values);
    if segs.head == Plain('$') {
      if HasPlaceholder(segs.tail) {
        FilledOpens(segs.tail, replaced, values);
      } else {
        NothingToFill(segs.tail, replaced, values);
      }
    }
  }

  lemma {:induction false} ValueBeforeFilled(value: string, rest: Segments, replaced: nat, values: seq<string>)
    requires IsTokenization(rest) && !StartsString(rest) && FirstPlaceholder(rest).None?
    ensures Fits(ValueToken(value), Unlex(FilledTokens(rest, replaced, values)))
  {
    FilledStarts(rest, replaced, values);
    Requoting.EscapeDoubles(value, '\'');
  }

  lemma {:induction false} FilledTokenize(segs: Segments, replaced: nat, values: seq<string>)
    requires IsTokenization(segs) && !Abuts(segs) && !OpenDollar(segs)
    ensures IsTokenization(FilledTokens(segs, replaced, values))
    decreases Size(segs)
  {
    match FirstPlaceholder(segs)
    case Some((p, rest)) =>
      PlaceholderText(segs);
      FilledTokenize(rest, replaced + 1, values);
      ValueBeforeFilled(ValueFor(p, replaced, values), rest, replaced + 1, values);
    case None =>
      if segs.Cons? {
        FilledTokenize(segs.tail, replaced, values);
        TokenBeforeFilled(segs, replaced, values);
      }
  }

  lemma {:induction false} AbuttingBreaks(segs: Segments, replaced: nat, values: seq<string>)
    requires IsTokenization(segs) && Abuts(segs)
    ensures !IsTokenization(FilledTokens(segs, replaced, values))
    decreases Size(segs)
  {
    match FirstPlaceholder(segs)
    case Some((_, rest)) =>
      PlaceholderText(segs);
      FilledStarts(rest, replaced + 1, values);
      if Abuts(rest) {
        AbuttingBreaks(rest, replaced + 1, values);
      }
    case None =>
      FilledStarts(segs.tail, replaced, values);
      if Abuts(segs.tail) {
        AbuttingBreaks(segs.tail, replaced, values);
      }
  }

  // ------------------------------------------------------------------ where the placeholders are

  /** A text cut at its placeholders. */
  datatype Layout = End(tail: string) | At(gap: string, p: Piece, rest: Layout)

  /** What fills a place. */
  function ValueText(p: Piece, replaced: nat, values: seq<string>): string
    requires IsPlaceholder(p) && (p.Numbered? ==> AllDigits(p.digits))
  {
    SegmentText(ValueToken(ValueFor(p, replaced, values)))
  }

  function LayoutText(l: Layout): string {
    match l
    case End(tail) => tail
    case At(gap, p, rest) => gap + (PieceText(p) + LayoutText(rest))
  }

  /** The text with a quoted value in each place. */
  function FilledLayout(l: Layout, replaced: nat, values: seq<string>): string
    requires OnlyPlaceholders(l)
    decreases l
  {
    match l
    case End(tail) => tail
    case At(gap, p, rest) => gap + (ValueText(p, replaced, values) + FilledLayout(rest, replaced + 1, values))
  }

  predicate OnlyPlaceholders(l: Layout) {
    match l
    case End(_) => true
    case At(_, p, rest) => IsPlaceholder(p) && (p.Numbered? ==> AllDigits(p.digits)) && OnlyPlaceholders(rest)
  }

  /** Every place is one at which the substituting scanner would see that placeholder. */
  ghost predicate WellPlaced(l: Layout) {
    match l
    case End(_) => true
    case At(_, p, rest) => IsPlaceholder(p) && PieceFits(p, LayoutText(rest)) && WellPlaced(rest)
  }

  function Widened(text: string, l: Layout): Layout {
    match l case End(tail) => End(text + tail) case At(gap, p, rest) => At(text + gap, p, rest)
  }

  lemma {:induction false} WidenedText(text: string, l: Layout, replaced: nat, values: seq<string>)
    ensures LayoutText(Widened(text, l)) == text + LayoutText(l)
    ensures OnlyPlaceholders(l) <==> OnlyPlaceholders(Widened(text, l))
    ensures OnlyPlaceholders(l) ==>
              FilledLayout(Widened(text, l), replaced, values) == text + FilledLayout(l, replaced, values)
    ensures WellPlaced(l) <==> WellPlaced(Widened(text, l))
  {
    if l.At? {
      Assoc(text, l.gap, PieceText(l.p) + LayoutText(l.rest));
      if OnlyPlaceholders(l) {
        Assoc(text, l.gap, ValueText(l.p, replaced, values) + FilledLayout(l.rest, replaced + 1, values));
      }
    }
  }

  /** The places the substituting scanner finds. */
  function ScanLayout(ps: Pieces): Layout {
    match ps
    case Nil => End("")
    case Cons(p, rest) => if IsPlaceholder(p) then At("", p, ScanLayout(rest))
        else Widened(PieceText(p), ScanLayout(rest))
  }

  /** The places among the tokens. */
  function TokenLayout(segs: Segments): Layout
    decreases Size(segs)
  {
    match FirstPlaceholder(segs)
    case Some((p, rest)) => At("", p, TokenLayout(rest))
    case None =>
      match segs
      case Nil => End("")
      case Cons(seg, rest) => Widened(SegmentText(seg), TokenLayout(rest))
  }

  /** The substituting scanner and the re-quoting one see the same placeholders. */
  predicate SamePlaces(sql: string) { ScanLayout(Scan(sql)) == TokenLayout(Lex(sql)) }

  /** A place in front of a layout, and text in front of one. */
  lemma {:induction false} PlacedInFront(p: Piece, l: Layout)
    requires WellPlaced(l) && OnlyPlaceholders(l)
    requires PieceFits(p, LayoutText(l)) && (p.Numbered? ==> AllDigits(p.digits))
    ensures var m := if IsPlaceholder(p) then At("", p, l) else Widened(PieceText(p), l);
            LayoutText(m) == PieceText(p) + LayoutText(l) && WellPlaced(m) && OnlyPlaceholders(m)
  {
    if IsPlaceholder(p) {
      assert "" + (PieceText(p) + LayoutText(l)) == PieceText(p) + LayoutText(l);
    } else {
      WidenedText(PieceText(p), l, 0, []);
    }
  }

  lemma {:induction false} ScanLayoutPlaced(ps: Pieces)
    requires IsScan(ps) && NumbersAreDigits(ps)
    ensures LayoutText(ScanLayout(ps)) == Unscan(ps) && WellPlaced(ScanLayout(ps)) && OnlyPlaceholders(ScanLayout(ps))
  {
    if ps.Cons? {
      ScanLayoutPlaced(ps.tail);
      PlacedInFront(ps.head, ScanLayout(ps.tail));
    }
  }

  lemma {:induction false} ScanLayoutFilled(ps: Pieces, replaced: nat, values: seq<string>)
    requires NumbersAreDigits(ps) && InRange(ps, replaced, values)
    ensures OnlyPlaceholders(ScanLayout(ps))
    ensures FilledLayout(ScanLayout(ps), replaced, values) == Unscan(FilledPieces(ps, replaced, values))
  {
    match ps
    case Nil =>
    case Cons(p, rest) =>
      if IsPlaceholder(p) {
        ScanLayoutFilled(rest, replaced + 1, values);
        var token := ValueText(p, replaced, values);
        var behind := Unscan(FilledPieces(rest, replaced + 1, values));
        assert [] + (token + behind) == token + behind;
      } else {
        ScanLayoutFilled(rest, replaced, values);
        WidenedText(PieceText(p), ScanLayout(rest), replaced, values);
      }
  }

  lemma {:induction false} TokenLayoutPlaced(segs: Segments, replaced: nat, values: seq<string>)
    requires IsTokenization(segs)
    ensures LayoutText(TokenLayout(segs))
            == Unlex(segs) && WellPlaced(TokenLayout(segs)) && OnlyPlaceholders(TokenLayout(segs))
    ensures FilledLayout(TokenLayout(segs), replaced, values) == Unlex(FilledTokens(segs, replaced, values))
    decreases Size(segs)
  {
    match FirstPlaceholder(segs)
    case Some((p, rest)) =>
      PlaceholderText(segs);
      TokenLayoutPlaced(rest, replaced + 1, values);
      assert [] + (PieceText(p) + Unlex(rest)) == PieceText(p) + Unlex(rest);
      var token := ValueText(p, replaced, values);
      var behind := Unlex(FilledTokens(rest, replaced + 1, values));
      assert [] + (token + behind) == token + behind;
    case None =>
      if segs.Cons? {
        TokenLayoutPlaced(segs.tail, replaced, values);
        WidenedText(SegmentText(segs.head), TokenLayout(segs.tail), replaced, values);
      }
  }

  lemma CharBehind(a: string, b: string)
    requires b != []
    ensures (a + b)[|a|] == b[0]
  {
  }

  lemma PlaceStarts(p: Piece)
    requires IsPlaceholder(p)
    ensures PieceText(p) != [] && PieceText(p)[0] != '\''
  {
  }

  /** What two layouts of one text have at the end of the shorter first gap, before and after filling. */
  lemma {:induction false} PlaceDiffers(gap: string, p: Piece, rest: string, other: string, filled: string, x: string)
    requires IsPlaceholder(p) && |gap| < |other|
    requires gap + (PieceText(p) + rest) == other + x
    requires StartsWith(filled, '\'')
    ensures forall y :: gap + filled != other + y
  {
    PlaceStarts(p);
    CharBehind(gap, PieceText(p) + rest);
    CharBehind(gap, filled);
    forall y ensures gap + filled != other + y {
      assert (other + y)[|gap|] == other[|gap|] == (other + x)[|gap|];
    }
  }

  /** Filling the same text in different places gives different texts. */
  lemma {:induction false} PlacesShow(a: Layout, b: Layout, replaced: nat, values: seq<string>)
    requires WellPlaced(a) && WellPlaced(b) && OnlyPlaceholders(a) && OnlyPlaceholders(b)
    requires LayoutText(a) == LayoutText(b)
    requires FilledLayout(a, replaced, values) == FilledLayout(b, replaced, values)
    ensures a == b
    decreases a
  {
    match (a, b)
    case (End(_), End(_)) =>
    case (At(gap, p, rest), End(tail)) => GapEnds(gap, p, rest, tail, replaced, values);
    case (End(tail), At(gap, p, rest)) => GapEnds(gap, p, rest, tail, replaced, values);
    case (At(g, p, r), At(h, q, s)) =>
      var v, w := ValueText(p, replaced, values), ValueText(q, replaced, values);
      var x, y := FilledLayout(r, replaced + 1, values), FilledLayout(s, replaced + 1, values);
      if |g| < |h| {
        PlaceDiffers(g, p, LayoutText(r), h, v + x, PieceText(q) + LayoutText(s));
      } else if |h| < |g| {
        PlaceDiffers(h, q, LayoutText(s), g, w + y, PieceText(p) + LayoutText(r));
      } else {
        SamePrefix(g, PieceText(p) + LayoutText(r), h, PieceText(q) + LayoutText(s));
        NextPieceOf(p, LayoutText(r));
        NextPieceOf(q, LayoutText(s));
        SamePrefix(PieceText(p), LayoutText(r), PieceText(q), LayoutText(s));
        SamePrefix(g, v + x, h, w + y);
        SamePrefix(v, x, w, y);
        PlacesShow(r, s, replaced + 1, values);
      }
  }

  lemma {:induction false} SamePrefix(a: string, x: string, b: string, y: string)
    requires a + x == b + y && |a| == |b|
    ensures a == b && x == y
  {
    assert (a + x)[..|a|] == a && (b + y)[..|b|] == b;
    assert (a + x)[|a|..] == x && (b + y)[|b|..] == y;
  }

  /** A place inside what the other layout has as its last gap. */
  lemma {:induction false} GapEnds(gap: string, p: Piece, rest: Layout, tail: string, replaced: nat,
                                   values: seq<string>)
    requires OnlyPlaceholders(At(gap, p, rest)) && gap + (PieceText(p) + LayoutText(rest)) == tail
    ensures FilledLayout(At(gap, p, rest), replaced, values) != tail
  {
    PlaceStarts(p);
    var v := ValueText(p, replaced, values) + FilledLayout(rest, replaced + 1, values);
    assert tail + [] == tail;
    assert |gap| < |tail|;
    PlaceDiffers(gap, p, LayoutText(rest), tail, v, []);
    assert gap + v != tail + [];
  }

  // ------------------------------------------------------------------ an open dollar quote

  /** Every placeholder among the tokens is in range. */
  predicate TokensInRange(segs: Segments, replaced: nat, values: seq<string>)
    decreases Size(segs)
  {
    match FirstPlaceholder(segs)
    case Some((p, rest)) => LiteralFor(p, replaced, values).Ok? && TokensInRange(rest, replaced + 1, values)
    case None => segs.Nil? || TokensInRange(segs.tail, replaced, values)
  }

  ghost predicate Ready(segs: Segments, replaced: nat, values: seq<string>) {
    IsTokenization(segs) && TokensInRange(segs, replaced, values)
  }

  predicate LayoutInRange(l: Layout, replaced: nat, values: seq<string>)
    requires OnlyPlaceholders(l)
  {
    l.End? || (LiteralFor(l.p, replaced, values).Ok? && LayoutInRange(l.rest, replaced + 1, values))
  }

  lemma WidenedInRange(text: string, l: Layout, replaced: nat, values: seq<string>)
    requires OnlyPlaceholders(l)
    ensures OnlyPlaceholders(Widened(text, l))
    ensures LayoutInRange(Widened(text, l), replaced, values) <==> LayoutInRange(l, replaced, values)
  {
  }

  lemma {:induction false} ScanInRange(ps: Pieces, replaced: nat, values: seq<string>)
    requires NumbersAreDigits(ps) && InRange(ps, replaced, values)
    ensures OnlyPlaceholders(ScanLayout(ps)) && LayoutInRange(ScanLayout(ps), replaced, values)
  {
    match ps
    case Nil =>
    case Cons(p, rest) =>
      ScanInRange(rest, if IsPlaceholder(p) then replaced + 1 else replaced, values);
      if !IsPlaceholder(p) {
        WidenedInRange(PieceText(p), ScanLayout(rest), replaced, values);
      }
  }

  lemma {:induction false} LayoutTokensInRange(segs: Segments, replaced: nat, values: seq<string>)
    requires OnlyPlaceholders(TokenLayout(segs)) && LayoutInRange(TokenLayout(segs), replaced, values)
    ensures TokensInRange(segs, replaced, values)
    decreases Size(segs)
  {
    match FirstPlaceholder(segs)
    case Some((_, rest)) => LayoutTokensInRange(rest, replaced + 1, values);
    case None =>
      if segs.Cons? {
        WidenedText(SegmentText(segs.head), TokenLayout(segs.tail), replaced, values);
        WidenedInRange(SegmentText(segs.head), TokenLayout(segs.tail), replaced, values);
        LayoutTokensInRange(segs.tail, replaced, values);
      }
  }

  ghost predicate AllAre(values: seq<string>, v: string) { forall i :: 0 <= i < |values| ==> values[i] == v }

  lemma ReadyTail(segs: Segments, replaced: nat, values: seq<string>)
    requires Ready(segs, replaced, values) && segs.Cons? && FirstPlaceholder(segs).None?
    ensures Ready(segs.tail, replaced, values)
  {
  }

  lemma {:induction false} ReadyBehind(segs: Segments, replaced: nat, values: seq<string>, v: string)
    requires Ready(segs, replaced, values) && FirstPlaceholder(segs).Some? && AllAre(values, v)
    ensures var (p, rest) := FirstPlaceholder(segs).value;
            Ready(rest, replaced + 1, values) && ValueFor(p, replaced, values) == v
  {
    PlaceholderText(segs);
  }

  lemma OccursBehind(p: string, a: string, b: string, k: nat)
    requires OccursAt(p, b, k)
    ensures OccursAt(p, a + b, |a| + k)
  {
  }

  lemma {:induction false} TokenHoldsValue(v: string, more: string)
    requires '\'' !in v
    ensures Find(v, SegmentText(ValueToken(v)) + more).Some?
  {
    Requoting.EscapeTwice(v, '\'', '\'');
    assert ("'" + (v + "'")) + more == "'" + (v + ("'" + more));
    OccursBehind(v, "'", v + ("'" + more), 0);
    FindIsFirst(v, "'" + (v + ("'" + more)));
  }

  lemma {:induction false} FoundBehind(p: string, a: string, b: string)
    requires Find(p, b).Some?
    ensures Find(p, a + b).Some?
  {
    FindIsFirst(p, b);
    OccursBehind(p, a, b, Find(p, b).value);
    FindIsFirst(p, a + b);
  }

  lemma {:induction false} FillsValue(segs: Segments, replaced: nat, values: seq<string>, v: string)
    requires Ready(segs, replaced, values) && FirstPlaceholder(segs).Some? && AllAre(values, v) && '\'' !in v
    ensures Find(v, Unlex(FilledTokens(segs, replaced, values))).Some?
  {
    var rest := FirstPlaceholder(segs).value.1;
    ReadyBehind(segs, replaced, values, v);
    TokenHoldsValue(v, Unlex(FilledTokens(rest, replaced + 1, values)));
  }

  lemma {:induction false} KeepsValue(segs: Segments, replaced: nat, values: seq<string>, v: string)
    requires segs.Cons? && FirstPlaceholder(segs).None?
    requires Find(v, Unlex(FilledTokens(segs.tail, replaced, values))).Some?
    ensures Find(v, Unlex(FilledTokens(segs, replaced, values))).Some?
  {
    FoundBehind(v, SegmentText(segs.head), Unlex(FilledTokens(segs.tail, replaced, values)));
  }

  /** A value that every placeholder takes occurs in the filled text. */
  lemma {:induction false} HoldsValue(segs: Segments, replaced: nat, values: seq<string>, v: string)
    requires Ready(segs, replaced, values) && HasPlaceholder(segs) && AllAre(values, v) && '\'' !in v
    ensures Find(v, Unlex(FilledTokens(segs, replaced, values))).Some?
    decreases Size(segs)
  {
    if FirstPlaceholder(segs).Some? {
      FillsValue(segs, replaced, values, v);
    } else {
      ReadyTail(segs, replaced, values);
      HoldsValue(segs.tail, replaced, values, v);
      KeepsValue(segs, replaced, values, v);
    }
  }

  lemma {:induction false} BehindTagReady(segs: Segments, replaced: nat, values: seq<string>)
    requires Ready(segs, replaced, values) && HasPlaceholder(segs)
    ensures Ready(BehindTag(segs), replaced, values) && HasPlaceholder(BehindTag(segs))
  {
    if segs.Cons? && segs.head.Plain? && IsWord(segs.head.c) {
      WordsAreNoPlaceholder(segs.head.c, segs.tail);
      ReadyTail(segs, replaced, values);
      BehindTagReady(segs.tail, replaced, values);
    }
  }

  lemma {:induction false} TagHasNo(tag: string, c: char)
    requires AllWord(tag) && !IsWord(c) && c != '$'
    ensures c !in Delimiter(tag)
  {
    if tag == [] {
      assert Delimiter(tag) == "$$";
    } else {
      TagHasNo(tag[1..], c);
      assert tag == [tag[0]] + tag[1..];
      assert forall x :: x in tag[1..] ==> x in Delimiter(tag[1..]);
    }
  }

  /** Behind the `$` that completes `$tag$`, the value is found. */
  lemma {:induction false} ValueBehindTag(b: Segments, replaced: nat, values: seq<string>, v: string)
    requires Ready(b, replaced, values) && StartsDollar(b) && HasPlaceholder(b) && AllAre(values, v) && '\'' !in v
    ensures Find(v, Unlex(FilledTokens(b, replaced, values))[1..]).Some?
  {
    ReadyTail(b, replaced, values);
    HoldsValue(b.tail, replaced, values, v);
    Requoting.SegmentTextStarts(b.head);
    var text, more := SegmentText(b.head), Unlex(FilledTokens(b.tail, replaced, values));
    assert (text + more)[1..] == text[1..] + more;
    FoundBehind(v, text[1..], more);
  }

  /** The value `$tag$` closes what `$tag$` leaves open. */
  lemma {:induction false} ValueCloses(segs: Segments, replaced: nat, values: seq<string>)
    requires Ready(segs, replaced, values) && HalfOpen(segs) && HasPlaceholder(segs)
    requires AllAre(values, Delimiter(TagOf(segs)))
    ensures DollarOpens(Unlex(FilledTokens(segs, replaced, values)))
  {
    FilledTag(segs, replaced, values);
    FilledOpens(segs, replaced, values);
    TagHasNo(TagOf(segs), '\'');
    BehindTagReady(segs, replaced, values);
    ValueBehindTag(BehindTag(segs), replaced, values, Delimiter(TagOf(segs)));
  }

  lemma {:induction false} OpenDollarBreaks(segs: Segments, replaced: nat, values: seq<string>)
    requires Ready(segs, replaced, values) && OpenDollar(segs) && AllAre(values, Delimiter(OpenTag(segs)))
    ensures !IsTokenization(FilledTokens(segs, replaced, values))
    decreases Size(segs)
  {
    match FirstPlaceholder(segs)
    case Some((_, rest)) =>
      ReadyBehind(segs, replaced, values, Delimiter(OpenTag(segs)));
      OpenDollarBreaks(rest, replaced + 1, values);
    case None =>
      ReadyTail(segs, replaced, values);
      if OpenHere(segs) {
        ValueCloses(segs.tail, replaced, values);
      } else {
        OpenDollarBreaks(segs.tail, replaced, values);
      }
  }

  // ------------------------------------------------------------------ the output's tokens

  /** The output for these values has the input's tokens, with each placeholder turned into one string. */
  ghost predicate TokensKept(sql: string, values: seq<string>) {
    && InRange(Scan(sql), 0, QuoteAll(values))
    && Lex(Replaced(Scan(sql), 0, QuoteAll(values))) == FilledTokens(Lex(sql), 0, values)
  }

  lemma {:induction false} TokensKeptIff(sql: string, values: seq<string>)
    requires InRange(Scan(sql), 0, values)
    ensures TokensKept(sql, values) <==> SamePlaces(sql) && IsTokenization(FilledTokens(Lex(sql), 0, values))
  {
    var ps, segs := Scan(sql), Lex(sql);
    LexIsTokenization(sql);
    ScanIsScan(sql);
    ScanLayoutPlaced(ps);
    FilledText(ps, 0, values);
    ScanLayoutFilled(ps, 0, values);
    TokenLayoutPlaced(segs, 0, values);
    LexIsTokenization(Replaced(ps, 0, QuoteAll(values)));
    if TokensKept(sql, values) {
      PlacesShow(ScanLayout(ps), TokenLayout(segs), 0, values);
    } else if SamePlaces(sql) && IsTokenization(FilledTokens(segs, 0, values)) {
      TokenizationIsLexed(FilledTokens(segs, 0, values));
    }
  }

  lemma {:induction false} RangeByCount(ps: Pieces, replaced: nat, a: seq<string>, b: seq<string>)
    requires NumbersAreDigits(ps) && |a| == |b|
    ensures InRange(ps, replaced, a) <==> InRange(ps, replaced, b)
  {
    if ps.Cons? {
      RangeByCount(ps.tail, replaced, a, b);
      RangeByCount(ps.tail, replaced + 1, a, b);
    }
  }

  /** In range for the pieces is in range for the tokens, if both see the same placeholders. */
  lemma {:induction false} SamePlacesReady(sql: string, values: seq<string>)
    requires InRange(Scan(sql), 0, values) && SamePlaces(sql)
    ensures Ready(Lex(sql), 0, values)
  {
    LexIsTokenization(sql);
    ScanInRange(Scan(sql), 0, values);
    LayoutTokensInRange(Lex(sql), 0, values);
  }

  /**
   With quoted values the output has the input's tokens, strings, comments, identifiers and dollar
   quotes included, with each placeholder turned into one string, for all values there can be,
   exactly when both scanners see the same placeholders, none of these touches a string or another
   one, and no `$tag$` is left open in front of one.
   */
  lemma {:induction false} ValuesBecomeTokens(sql: string, n: nat)
    requires InRange(Scan(sql), 0, Nulls(n))
    ensures (forall values: seq<string> :: |values| == n ==> TokensKept(sql, values))
            <==> SamePlaces(sql) && !Abuts(Lex(sql)) && !OpenDollar(Lex(sql))
  {
    LexIsTokenization(sql);
    TokensKeptIff(sql, Nulls(n));
    if !SamePlaces(sql) {
    } else if Abuts(Lex(sql)) {
      AbuttingBreaks(Lex(sql), 0, Nulls(n));
    } else if OpenDollar(Lex(sql)) {
      var values := seq(n, _ => Delimiter(OpenTag(Lex(sql))));
      RangeByCount(Scan(sql), 0, values, Nulls(n));
      SamePlacesReady(sql, values);
      OpenDollarBreaks(Lex(sql), 0, values);
      TokensKeptIff(sql, values);
    } else {
      forall values: seq<string> | |values| == n ensures TokensKept(sql, values) {
        RangeByCount(Scan(sql), 0, values, Nulls(n));
        FilledTokenize(Lex(sql), 0, values);
        TokensKeptIff(sql, values);
      }
    }
  }

  // ------------------------------------------------------------------ inside comments and identifiers

  /** Nothing in `w`, in front of `rest`, looks like a string or a placeholder. */
  predicate Quiet(w: string, rest: string) {
    w == [] ||
    (&& w[0] != '\'' && w[0] != '?'
     && (w[0] == '$' ==> !StartsWithDigit(w[1..] + rest))
     && Quiet(w[1..], rest))
  }

  /** The output for a text, as pieces put together. */
  ghost function Output(s: string, replaced: nat, values: seq<string>): string
    requires InRange(Scan(s), replaced, values)
  {
    Unscan(FilledPieces(Scan(s), replaced, values))
  }

  lemma {:induction false} OutputStep(p: Piece, rest: string, replaced: nat, values: seq<string>)
    requires PieceFits(p, rest) && InRange(Scan(PieceText(p) + rest), replaced, values)
    ensures p.Numbered? ==> AllDigits(p.digits)
    ensures IsPlaceholder(p) ==>
              && InRange(Scan(rest), replaced + 1, values)
              && Output(PieceText(p) + rest, replaced, values)
                 == SegmentText(ValueToken(ValueFor(p, replaced, values))) + Output(rest, replaced + 1, values)
    ensures !IsPlaceholder(p) ==>
              && InRange(Scan(rest), replaced, values)
              && Output(PieceText(p) + rest, replaced, values) == PieceText(p) + Output(rest, replaced, values)
  {
    ScanStep(p, rest);
  }

  lemma {:induction false} OutputQuiet(w: string, rest: string, replaced: nat, values: seq<string>)
    requires Quiet(w, rest) && InRange(Scan(w + rest), replaced, values)
    ensures InRange(Scan(rest), replaced, values)
    ensures Output(w + rest, replaced, values) == w + Output(rest, replaced, values)
  {
    if w == [] {
      assert w + rest == rest;
    } else {
      HeadTail(w, rest);
      OutputStep(Char(w[0]), w[1..] + rest, replaced, values);
      OutputQuiet(w[1..], rest, replaced, values);
      HeadTail(w, Output(rest, replaced, values));
    }
  }

  predicate NoMarks(s: string) { s == [] || (s[0] !in {'\'', '?', '$'} && NoMarks(s[1..])) }

  lemma {:induction false} NoMarksQuiet(s: string, rest: string)
    requires NoMarks(s)
    ensures Quiet(s, rest) && '\'' !in s
  {
    if s != [] {
      NoMarksQuiet(s[1..], rest);
      assert s == [s[0]] + s[1..];
    }
  }

  /** A `?` inside an identifier is taken for a placeholder. */
  lemma {:induction false} IdentifierIsFilled(q: char, a: string, b: string, value: string)
    requires IsQuote(q) && NoMarks(a) && NoMarks(b)
    ensures var sql := ([q] + a) + ("?" + (b + [q]));
            && InRange(Scan(sql), 0, [value])
            && Output(sql, 0, [value]) == ([q] + a) + (QuoteStringLiteral(value) + (b + [q]))
  {
    var tail := b + [q];
    assert (tail + []) == tail;
    NoMarksQuiet(a, "?" + tail);
    assert ([q] + a)[1..] == a;
    NoMarksTail(b, q);
    NoMarksQuiet(tail, []);
    assert Scan([]) == Nil;
    QuietScans(tail, [], 1, [value]);
    ScanStep(Positional, tail);
    assert LiteralFor(Positional, 0, [value]) == Ok(value);
    assert InRange(Scan("?" + tail), 0, [value]);
    QuietScans([q] + a, "?" + tail, 0, [value]);
    OutputQuiet([q] + a, "?" + tail, 0, [value]);
    OutputStep(Positional, tail, 0, [value]);
    OutputQuiet(tail, [], 1, [value]);
  }

  lemma {:induction false} NoMarksTail(b: string, q: char)
    requires NoMarks(b) && IsQuote(q)
    ensures NoMarks(b + [q])
  {
    if b == [] {
      assert b + [q] == [q] && [q][1..] == [];
    } else {
      NoMarksTail(b[1..], q);
      assert (b + [q])[1..] == b[1..] + [q];
    }
  }

  lemma {:induction false} QuietScans(w: string, rest: string, replaced: nat, values: seq<string>)
    requires Quiet(w, rest) && InRange(Scan(rest), replaced, values)
    ensures InRange(Scan(w + rest), replaced, values)
  {
    if w == [] {
      assert w + rest == rest;
    } else {
      HeadTail(w, rest);
      QuietScans(w[1..], rest, replaced, values);
      ScanStep(Char(w[0]), w[1..] + rest);
    }
  }

  /** A `'` inside a comment starts a string for the substitution: the placeholder behind it is left in. */
  lemma {:induction false} ApostropheInComment(a: string, b: string, values: seq<string>)
    requires NoMarks(a) && '\'' !in b
    ensures var sql := ("--" + a) + ("'" + (b + "\n?"));
            InRange(Scan(sql), 0, values) && Output(sql, 0, values) == sql
  {
    var body := b + "\n?";
    var string_ := Literal(body, false);
    FreeIsDoubled(body, '\'');
    assert PieceText(string_) == "'" + body by { assert body + "" == body; }
    ScanStep(string_, []);
    assert PieceText(string_) + [] == "'" + body;
    assert Scan([]) == Nil;
    NoMarksQuiet(a, "'" + body);
    assert ("--" + a)[1..] == "-" + a && ("-" + a)[1..] == a;
    assert Quiet("-" + a, "'" + body);
    QuietScans("--" + a, "'" + body, 0, values);
    OutputQuiet("--" + a, "'" + body, 0, values);
    OutputStep(string_, [], 0, values);
  }

  lemma {:induction false} FreeIsDoubled(s: string, q: char)
    requires q !in s
    ensures Doubled(s, q)
  {
    if s != [] {
      FreeIsDoubled(s[1..], q);
    }
  }
}
