/**
 Placeholder substitution. `$n` takes literal n, `?` takes the literal at the count of
 placeholders replaced so far; only single-quoted strings are skipped.
 */
module Placeholders {
  import opened Wrappers
  import opened Text
  import opened SqlLexer
  import Quoting

  datatype Piece =
    | Char(c: char)
    | Literal(body: string, closed: bool)  // 'body'
    | Numbered(digits: string)             // $digits
    | Positional                           // ?

  type Pieces = List<Piece>

  predicate IsPlaceholder(p: Piece) { p.Numbered? || p.Positional? }

  function PieceText(p: Piece): string {
    match p
    case Char(c) => [c]
    case Literal(body, closed) => "'" + (body + (if closed then "'" else ""))
    case Numbered(digits) => ['$'] + digits
    case Positional => "?"
  }

  function Unscan(ps: Pieces): string {
    match ps
    case Nil => []
    case Cons(p, rest) => PieceText(p) + Unscan(rest)
  }

  // ------------------------------------------------------------------ scanning

  predicate StartsWithDigit(s: string) { s != [] && IsDigit(s[0]) }

  /** How many digits `s` starts with. */
  function DigitCount(s: string): (n: nat)
    ensures n <= |s|
  {
    if StartsWithDigit(s) then 1 + DigitCount(s[1..]) else 0
  }

  lemma {:induction false} DigitCountSplits(s: string)
    ensures AllDigits(s[..DigitCount(s)]) && !StartsWithDigit(s[DigitCount(s)..])
  {
    if StartsWithDigit(s) {
      var n := DigitCount(s[1..]);
      DigitCountSplits(s[1..]);
      assert s[..n + 1][1..] == s[1..][..n];
      assert s[n + 1..] == s[1..][n..];
    }
  }

  lemma {:induction false} DigitCountOf(digits: string, rest: string)
    requires AllDigits(digits) && !StartsWithDigit(rest)
    ensures DigitCount(digits + rest) == |digits|
  {
    if digits == [] {
      assert digits + rest == rest;
    } else {
      DigitCountOf(digits[1..], rest);
      assert (digits + rest)[1..] == digits[1..] + rest;
    }
  }

  function NextPiece(s: string): Piece
    requires s != []
  {
    var c, rest := s[0], s[1..];
    if c == '\'' then
      var e := BodyExtent(rest, '\'');
      Literal(rest[..e.len], e.closed)
    else if c == '$' && StartsWithDigit(rest) then Numbered(rest[..DigitCount(rest)])
    else if c == '?' then Positional
    else Char(c)
  }

  /** `p` is exactly the piece that starts a text continuing with `rest`. */
  ghost predicate PieceFits(p: Piece, rest: string) {
    match p
    case Char(c) => c != '\'' && c != '?' && (c == '$' ==> !StartsWithDigit(rest))
    case Literal(body, closed) =>
      Doubled(body, '\'') && (if closed then !StartsWith(rest, '\'') else rest == [])
    case Numbered(digits) => digits != [] && AllDigits(digits) && !StartsWithDigit(rest)
    case Positional => true
  }

  ghost predicate IsScan(ps: Pieces) {
    match ps
    case Nil => true
    case Cons(p, rest) => PieceFits(p, Unscan(rest)) && IsScan(rest)
  }

  ghost predicate StartsScan(p: Piece, s: string) {
    var text := PieceText(p);
    text != [] && text <= s && PieceFits(p, s[|text|..])
  }

  lemma {:induction false} StartsAs(p: Piece, rest: string, s: string)
    requires s == PieceText(p) + rest && PieceFits(p, rest) && PieceText(p) != []
    ensures StartsScan(p, s)
  {
    assert s[|PieceText(p)|..] == rest;
  }

  lemma {:induction false} LiteralStarts(s: string)
    requires StartsWith(s, '\'')
    ensures StartsScan(NextPiece(s), s)
  {
    var body, close, rest := SplitBody(s[1..], '\'');
    assert s == "'" + s[1..];
    Assoc("'", body + close, rest);
    StartsAs(NextPiece(s), rest, s);
  }

  lemma {:induction false} NumberedStarts(s: string)
    requires StartsWith(s, '$') && StartsWithDigit(s[1..])
    ensures StartsScan(NextPiece(s), s)
  {
    var after := s[1..];
    var n := DigitCount(after);
    DigitCountSplits(after);
    assert s == ['$'] + after && after == after[..n] + after[n..];
    assert s[n + 1..] == after[n..];
    assert s[..n + 1] == ['$'] + after[..n];
  }

  lemma {:induction false} NextPieceFits(s: string)
    requires s != []
    ensures StartsScan(NextPiece(s), s)
  {
    if s[0] == '\'' {
      LiteralStarts(s);
    } else if s[0] == '$' && StartsWithDigit(s[1..]) {
      NumberedStarts(s);
    }
  }

  function Scan(s: string): (ps: Pieces)
    ensures NumbersAreDigits(ps)
    decreases |s|
  {
    if s == [] then Nil
    else
      NextPieceFits(s);
      var p := NextPiece(s);
      Cons(p, Scan(s[|PieceText(p)|..]))
  }

  lemma {:induction false} ScanIsScan(s: string)
    ensures Unscan(Scan(s)) == s && IsScan(Scan(s))
    decreases |s|
  {
    if s != [] {
      NextPieceFits(s);
      var n := |PieceText(NextPiece(s))|;
      ScanIsScan(s[n..]);
      assert s == s[..n] + s[n..];
    }
  }

  lemma {:induction false} NextPieceOf(p: Piece, rest: string)
    requires PieceFits(p, rest)
    ensures NextPiece(PieceText(p) + rest) == p
  {
    var s := PieceText(p) + rest;
    match p
    case Literal(body, closed) =>
      var close := if closed then "'" else "";
      Assoc("'", body + close, rest);
      Assoc(body, close, rest);
      var tail := close + rest;
      assert s[1..] == body + tail;
      assert closed ==> tail[1..] == rest;
      BodyExtentOf(body, '\'', tail);
      assert (body + tail)[..|body|] == body;
    case Numbered(digits) =>
      assert s[1..] == digits + rest;
      DigitCountOf(digits, rest);
      assert (digits + rest)[..|digits|] == digits;
      assert s[1..][0] == digits[0];
    case _ =>
      assert s[1..] == rest;
  }

  lemma {:induction false} ScanStep(p: Piece, rest: string)
    requires PieceFits(p, rest)
    ensures Scan(PieceText(p) + rest) == Cons(p, Scan(rest))
  {
    var text := PieceText(p);
    NextPieceOf(p, rest);
    NextPieceFits(text + rest);
    assert (text + rest)[|text|..] == rest;
  }

  lemma {:induction false} ScanIsUnique(ps: Pieces)
    requires IsScan(ps)
    ensures Scan(Unscan(ps)) == ps
  {
    if ps.Cons? {
      ScanIsUnique(ps.tail);
      ScanStep(ps.head, Unscan(ps.tail));
    }
  }

  // ------------------------------------------------------------------ which literal goes where

  /** The number after a `$`; one that does not fit the machine word counts as 1. */
  function Index(digits: string): nat
    requires AllDigits(digits)
  {
    if DigitsValue(digits) > USIZE_MAX then 1 else DigitsValue(digits)
  }

  datatype Failure =
    | NotEnough(requested: nat, provided: nat)
    | ZeroIndex  // `$0`: subtracting one underflows

  /** The literal for a placeholder reached after `replaced` others. */
  function LiteralFor(p: Piece, replaced: nat, literals: seq<string>): Result<string, Failure>
    requires IsPlaceholder(p) && (p.Numbered? ==> AllDigits(p.digits))
  {
    if p.Numbered? && Index(p.digits) == 0 then Err(ZeroIndex)
    else
      var idx := if p.Numbered? then Index(p.digits) - 1 else replaced;
      if idx < |literals| then Ok(literals[idx]) else Err(NotEnough(idx, |literals|))
  }

  predicate NumbersAreDigits(ps: Pieces) {
    match ps
    case Nil => true
    case Cons(p, rest) => (p.Numbered? ==> AllDigits(p.digits)) && NumbersAreDigits(rest)
  }

  /** Every placeholder's index is in range. */
  predicate InRange(ps: Pieces, replaced: nat, literals: seq<string>)
    requires NumbersAreDigits(ps)
  {
    match ps
    case Nil => true
    case Cons(p, rest) =>
      if IsPlaceholder(p) then LiteralFor(p, replaced, literals).Ok? && InRange(rest, replaced + 1, literals)
      else InRange(rest, replaced, literals)
  }

  /** Each placeholder replaced by its literal, everything else as it is. */
  function Replaced(ps: Pieces, replaced: nat, literals: seq<string>): string
    requires NumbersAreDigits(ps) && InRange(ps, replaced, literals)
  {
    match ps
    case Nil => []
    case Cons(p, rest) =>
      if IsPlaceholder(p) then LiteralFor(p, replaced, literals).value + Replaced(rest, replaced + 1, literals)
      else PieceText(p) + Replaced(rest, replaced, literals)
  }

  function Count(ps: Pieces): nat {
    match ps
    case Nil => 0
    case Cons(p, rest) => (if IsPlaceholder(p) then 1 else 0) + Count(rest)
  }

  /** The failure at the first placeholder that is out of range. */
  function FirstFailure(ps: Pieces, replaced: nat, literals: seq<string>): Failure
    requires NumbersAreDigits(ps) && !InRange(ps, replaced, literals)
  {
    if IsPlaceholder(ps.head) then
      match LiteralFor(ps.head, replaced, literals)
      case Err(e) => e
      case Ok(_) => FirstFailure(ps.tail, replaced + 1, literals)
    else FirstFailure(ps.tail, replaced, literals)
  }

  /**
   Substitution is pointwise: around any placeholder, the text is that of the pieces before it,
   the literal its own number or ordinal selects, and that of the pieces after it.
   */
  lemma {:induction false} SubstitutionIsPointwise(before: Pieces, p: Piece, after: Pieces, replaced: nat,
                                                   literals: seq<string>)
    requires NumbersAreDigits(Append(before, Cons(p, after)))
    ensures NumbersAreDigits(before) && NumbersAreDigits(Cons(p, after))
    ensures InRange(Append(before, Cons(p, after)), replaced, literals)
            <==> InRange(before, replaced, literals) && InRange(Cons(p, after), replaced + Count(before), literals)
    ensures InRange(Append(before, Cons(p, after)), replaced, literals) ==>
              Replaced(Append(before, Cons(p, after)), replaced, literals)
              == Replaced(before, replaced, literals) + Replaced(Cons(p, after), replaced + Count(before), literals)
  {
    match before
    case Nil =>
    case Cons(q, rest) =>
      var next := if IsPlaceholder(q) then replaced + 1 else replaced;
      SubstitutionIsPointwise(rest, p, after, next, literals);
      if InRange(Append(before, Cons(p, after)), replaced, literals) {
        Assoc(if IsPlaceholder(q) then LiteralFor(q, replaced, literals).value else PieceText(q),
              Replaced(rest, next, literals), Replaced(Cons(p, after), next + Count(rest), literals));
      }
  }

  // ------------------------------------------------------------------ the pass

  function Run(ps: Pieces, replaced: nat, literals: seq<string>): Result<string, Failure>
    requires NumbersAreDigits(ps)
  {
    if InRange(ps, replaced, literals) then Ok(Replaced(ps, replaced, literals))
    else Err(FirstFailure(ps, replaced, literals))
  }

  function Prefixed(out: string, r: Result<string, Failure>): Result<string, Failure> {
    match r case Ok(text) => Ok(out + text) case Err(e) => Err(e)
  }

  lemma {:induction false} Kept(p: Piece, rest: string, out: string, replaced: nat, literals: seq<string>)
    requires !IsPlaceholder(p)
    ensures Prefixed(out, Run(Cons(p, Scan(rest)), replaced, literals))
            == Prefixed(out + PieceText(p), Run(Scan(rest), replaced, literals))
  {
    if InRange(Scan(rest), replaced, literals) {
      Assoc(out, PieceText(p), Replaced(Scan(rest), replaced, literals));
    }
  }

  lemma {:induction false} Filled(p: Piece, rest: string, out: string, replaced: nat, literals: seq<string>)
    requires IsPlaceholder(p) && (p.Numbered? ==> AllDigits(p.digits))
    ensures var lit := LiteralFor(p, replaced, literals);
            Prefixed(out, Run(Cons(p, Scan(rest)), replaced, literals))
            == match lit
               case Err(e) => Err(e)
               case Ok(text) => Prefixed(out + text, Run(Scan(rest), replaced + 1, literals))
  {
    var lit := LiteralFor(p, replaced, literals);
    if lit.Ok? && InRange(Scan(rest), replaced + 1, literals) {
      Assoc(out, lit.value, Replaced(Scan(rest), replaced + 1, literals));
    }
  }

  // ------------------------------------------------------------------ the rules, spelled out

  /** What a text becomes when `replaced` placeholders came before it. */
  function Result(text: string, replaced: nat, literals: seq<string>): Result<string, Failure> {
    Run(Scan(text), replaced, literals)
  }

  /** `$n` takes the n-th literal, whatever came before it; one that does not fit the machine word takes the first. */
  lemma {:induction false} NumberedRule(n: nat, tail: string, replaced: nat, literals: seq<string>)
    requires !StartsWithDigit(tail)
    ensures var k := if n > 0xFFFF_FFFF_FFFF_FFFF then 1 else n;
            Result("$" + Decimal(n) + tail, replaced, literals)
            == if k == 0 then Err(ZeroIndex)
               else if k > |literals| then Err(NotEnough(k - 1, |literals|))
               else Prefixed(literals[k - 1], Result(tail, replaced + 1, literals))
  {
    DecimalIsRead(n);
    var p := Numbered(Decimal(n));
    ScanStep(p, tail);
    Filled(p, tail, "", replaced, literals);
    FromNothing(Cons(p, Scan(tail)), replaced, literals);
  }

  /** `?` takes the literal at the count of the placeholders before it, numbered ones included. */
  lemma {:induction false} PositionalRule(tail: string, replaced: nat, literals: seq<string>)
    ensures Result("?" + tail, replaced, literals)
            == if replaced >= |literals| then Err(NotEnough(replaced, |literals|))
               else Prefixed(literals[replaced], Result(tail, replaced + 1, literals))
  {
    ScanStep(Positional, tail);
    Filled(Positional, tail, "", replaced, literals);
    FromNothing(Cons(Positional, Scan(tail)), replaced, literals);
  }

  /** A string is copied, and placeholders in it are not touched. */
  lemma {:induction false} StringRule(body: string, tail: string, replaced: nat, literals: seq<string>)
    requires '\'' !in body && !StartsWith(tail, '\'')
    ensures Result("'" + (body + "'") + tail, replaced, literals)
            == Prefixed("'" + (body + "'"), Result(tail, replaced, literals))
  {
    var p := Literal(body, true);
    NoQuoteDoubled(body, '\'');
    ScanStep(p, tail);
    Kept(p, tail, "", replaced, literals);
    FromNothing(Cons(p, Scan(tail)), replaced, literals);
  }

  /** So is any character that starts neither a string nor a placeholder. */
  lemma {:induction false} CharacterRule(c: char, tail: string, replaced: nat, literals: seq<string>)
    requires c != '\'' && c != '?' && (c == '$' ==> !StartsWithDigit(tail))
    ensures Result([c] + tail, replaced, literals) == Prefixed([c], Result(tail, replaced, literals))
  {
    var p := Char(c);
    ScanStep(p, tail);
    Kept(p, tail, "", replaced, literals);
    FromNothing(Cons(p, Scan(tail)), replaced, literals);
  }

  lemma {:induction false} FromNothing(ps: Pieces, replaced: nat, literals: seq<string>)
    requires NumbersAreDigits(ps)
    ensures Prefixed("", Run(ps, replaced, literals)) == Run(ps, replaced, literals)
  {
    if InRange(ps, replaced, literals) {
      var text := Replaced(ps, replaced, literals);
      assert "" + text == text;
    }
  }

  // ------------------------------------------------------------------ the same, in a loop

  method TakeDigits(chars: string, start: nat) returns (num: string, i: nat)
    requires start <= |chars|
    ensures i == start + DigitCount(chars[start..]) <= |chars|
    ensures num == chars[start..i]
  {
    num, i := "", start;
    while i < |chars| && IsDigit(chars[i])
      invariant start <= i <= |chars| && num == chars[start..i]
      invariant DigitCount(chars[start..]) == i - start + DigitCount(chars[i..])
    {
      Quoting.NextAt(chars, i);
      num := num + [chars[i]];
      i := i + 1;
    }
  }

  /** The piece at `i` is `p`, and ends at `end`. */
  ghost predicate PieceAt(chars: string, i: nat, p: Piece, end: nat) {
    && i < end <= |chars|
    && PieceText(p) == chars[i..end]
    && Scan(chars[i..]) == Cons(p, Scan(chars[end..]))
  }

  lemma {:induction false} CutPiece(chars: string, i: nat)
    requires i < |chars|
    ensures var p := NextPiece(chars[i..]);
            PieceAt(chars, i, p, i + |PieceText(p)|)
  {
    NextPieceFits(chars[i..]);
    Quoting.SuffixOf(chars, i, |PieceText(NextPiece(chars[i..]))|);
  }

  /** The result, seen from position `i` with `out` emitted and `positional` placeholders replaced. */
  ghost function ResultFrom(sql: string, i: nat, out: string, positional: nat, literals: seq<string>)
    : Result<string, Failure>
    requires i <= |sql|
  {
    Prefixed(out, Run(Scan(sql[i..]), positional, literals))
  }

  ghost function AfterFill(sql: string, end: nat, out: string, lit: Result<string, Failure>, positional: nat,
                           literals: seq<string>)
    : Result<string, Failure>
    requires end <= |sql|
  {
    match lit
    case Err(e) => Err(e)
    case Ok(text) => ResultFrom(sql, end, out + text, positional + 1, literals)
  }

  lemma {:induction false} KeepPiece(sql: string, i: nat, p: Piece, end: nat, out: string, positional: nat,
                                     literals: seq<string>)
    requires PieceAt(sql, i, p, end) && !IsPlaceholder(p)
    ensures ResultFrom(sql, i, out, positional, literals)
            == ResultFrom(sql, end, out + sql[i..end], positional, literals)
  {
    Kept(p, sql[end..], out, positional, literals);
  }

  lemma {:induction false} FillPiece(sql: string, i: nat, p: Piece, end: nat, out: string, positional: nat,
                                     literals: seq<string>)
    requires PieceAt(sql, i, p, end) && IsPlaceholder(p) && (p.Numbered? ==> AllDigits(p.digits))
    ensures ResultFrom(sql, i, out, positional, literals)
            == AfterFill(sql, end, out, LiteralFor(p, positional, literals), positional, literals)
  {
    Filled(p, sql[end..], out, positional, literals);
  }

  lemma {:induction false} LiteralLength(chars: string, i: nat, end: nat)
    requires i < |chars| && chars[i] == '\''
    requires var e := BodyExtent(chars[i + 1..], '\''); end == i + 1 + e.len + (if e.closed then 1 else 0) <= |chars|
    ensures var p := NextPiece(chars[i..]); p.Literal? && i + |PieceText(p)| == end
  {
    assert chars[i..][1..] == chars[i + 1..];
  }

  lemma {:induction false} StringAt(chars: string, i: nat, end: nat) returns (p: Piece)
    requires i < |chars| && chars[i] == '\''
    requires var e := BodyExtent(chars[i + 1..], '\''); end == i + 1 + e.len + (if e.closed then 1 else 0) <= |chars|
    ensures p.Literal? && PieceAt(chars, i, p, end)
  {
    p := NextPiece(chars[i..]);
    LiteralLength(chars, i, end);
    CutPiece(chars, i);
  }

  lemma {:induction false} NextIsNumbered(chars: string, i: nat)
    requires i < |chars| && chars[i] == '$' && 0 < DigitCount(chars[i + 1..])
    ensures var digits := chars[i + 1..][..DigitCount(chars[i + 1..])];
            NextPiece(chars[i..]) == Numbered(digits) && AllDigits(digits)
  {
    Quoting.NextAt(chars, i);
    DigitCountSplits(chars[i + 1..]);
  }

  lemma {:induction false} NumberAt(chars: string, i: nat, end: nat)
    requires i < |chars| && chars[i] == '$' && end == i + 1 + DigitCount(chars[i + 1..]) && i + 1 < end <= |chars|
    ensures AllDigits(chars[i + 1..end])
    ensures PieceAt(chars, i, Numbered(chars[i + 1..end]), end)
  {
    NextIsNumbered(chars, i);
    Quoting.SuffixOf(chars, i + 1, end - (i + 1));
    CutPiece(chars, i);
  }

  lemma {:induction false} CharAt(chars: string, i: nat)
    requires i < |chars| && chars[i] != '\''
    requires chars[i] == '$' ==> DigitCount(chars[i + 1..]) == 0
    ensures PieceAt(chars, i, if chars[i] == '?' then Positional else Char(chars[i]), i + 1)
  {
    Quoting.NextAt(chars, i);
    CutPiece(chars, i);
  }

  lemma {:induction false} NothingLeft(sql: string, out: string, positional: nat, literals: seq<string>)
    ensures ResultFrom(sql, |sql|, out, positional, literals) == Ok(out)
  {
    assert Scan(sql[|sql|..]) == Nil;
    assert out + [] == out;
  }

  lemma {:induction false} AllLeft(sql: string, literals: seq<string>)
    ensures ResultFrom(sql, 0, "", 0, literals) == Run(Scan(sql), 0, literals)
  {
    assert sql[0..] == sql;
    assert InRange(Scan(sql), 0, literals) ==>
        "" + Replaced(Scan(sql), 0, literals) == Replaced(Scan(sql), 0, literals);
  }

  method LiteralAt(literals: seq<string>, idx: nat) returns (r: Result<string, Failure>)
    ensures r == if idx < |literals| then Ok(literals[idx]) else Err(NotEnough(idx, |literals|))
  {
    if idx < |literals| {
      return Ok(literals[idx]);
    }
    return Err(NotEnough(idx, |literals|));
  }

  /** Push the string that starts at `i`, quotes included. */
  method TakeString(sql: string, i: nat) returns (end: nat, text: string, ghost p: Piece)
    requires i < |sql| && sql[i] == '\''
    ensures p.Literal? && PieceAt(sql, i, p, end) && text == sql[i..end]
  {
    end := Quoting.ScanQuoted(sql, i + 1, '\'');
    p := StringAt(sql, i, end);
    text := sql[i..end];
  }

  method TakeNumbered(sql: string, i: nat, literals: seq<string>)
    returns (end: nat, text: Result<string, Failure>, filled: bool, ghost p: Piece)
    requires i < |sql| && sql[i] == '$'
    ensures PieceAt(sql, i, p, end) && filled == IsPlaceholder(p) && (filled ==> p.Numbered? && AllDigits(p.digits))
    ensures text == if filled then LiteralFor(p, 0, literals) else Ok(['$'])
    ensures !filled ==> end == i + 1
  {
    var num;
    num, end := TakeDigits(sql, i + 1);
    if num == "" {
      CharAt(sql, i);
      return end, Ok(['$']), false, Char('$');
    }
    NumberAt(sql, i, end);
    var n := Index(num);
    if n == 0 {
      return end, Err(ZeroIndex), true, Numbered(num);
    }
    text := LiteralAt(literals, n - 1);
    return end, text, true, Numbered(num);
  }

  /** One turn of the scan: the piece at `i` (ghost), where it ends, and the text that replaces it. */
  method NextText(sql: string, i: nat, positional: nat, literals: seq<string>)
    returns (end: nat, text: Result<string, Failure>, filled: bool, ghost p: Piece)
    requires i < |sql|
    ensures PieceAt(sql, i, p, end) && filled == IsPlaceholder(p) && (p.Numbered? ==> AllDigits(p.digits))
    ensures text == if filled then LiteralFor(p, positional, literals) else Ok(sql[i..end])
  {
    var c := sql[i];
    if c == '\'' {
      var taken;
      end, taken, p := TakeString(sql, i);
      return end, Ok(taken), false, p;
    } else if c == '$' {
      end, text, filled, p := TakeNumbered(sql, i, literals);
    } else if c == '?' {
      CharAt(sql, i);
      text := LiteralAt(literals, positional);
      return i + 1, text, true, Positional;
    } else {
      CharAt(sql, i);
      return i + 1, Ok([c]), false, Char(c);
    }
  }

  method SubstitutePlaceholders(sql: string, literals: seq<string>) returns (r: Result<string, Failure>)
    ensures r == Run(Scan(sql), 0, literals)
  {
    var out := "";
    var i, positional := 0, 0;
    AllLeft(sql, literals);
    while i < |sql|
      invariant i <= |sql|
      invariant Run(Scan(sql), 0, literals) == ResultFrom(sql, i, out, positional, literals)
    {
      var end, text, filled, p := NextText(sql, i, positional, literals);
      if filled {
        FillPiece(sql, i, p, end, out, positional, literals);
      } else {
        KeepPiece(sql, i, p, end, out, positional, literals);
      }
      if text.Err? {
        return Err(text.error);
      }
      out := out + text.value;
      positional := if filled then positional + 1 else positional;
      i := end;
    }
    NothingLeft(sql, out, positional, literals);
    return Ok(out);
  }
}
