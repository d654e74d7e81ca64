/**
 What substitution of quoted values does to the lexical structure, and why the schema probe's
 substitution of NULLs succeeds.
 */
module Substitution {
  import opened Wrappers
  import opened Text
  import opened SqlLexer
  import opened Placeholders
  import Requoting

  // ------------------------------------------------------------------ quoted values

  function QuoteStringLiteral(value: string): string {
    "'" + (Escape(value, '\'') + "'")
  }

  function QuoteAll(values: seq<string>): (r: seq<string>)
    ensures |r| == |values|
    ensures forall i :: 0 <= i < |values| ==> r[i] == QuoteStringLiteral(values[i])
  {
    if values == [] then [] else [QuoteStringLiteral(values[0])] + QuoteAll(values[1..])
  }

  /** The input's pieces with each placeholder replaced by one string. */
  function FilledPieces(ps: Pieces, replaced: nat, values: seq<string>): Pieces
    requires NumbersAreDigits(ps) && InRange(ps, replaced, values)
  {
    match ps
    case Nil => Nil
    case Cons(p, rest) =>
      if IsPlaceholder(p) then
        Cons(Literal(Escape(LiteralFor(p, replaced, values).value, '\''), true),
            FilledPieces(rest, replaced + 1, values))
      else Cons(p, FilledPieces(rest, replaced, values))
  }

  /** A placeholder directly next to a string or to another placeholder. */
  predicate Abutting(ps: Pieces) {
    match ps
    case Cons(a, Cons(b, _)) =>
      || (IsPlaceholder(a) && (IsPlaceholder(b) || b.Literal?))
      || (a.Literal? && IsPlaceholder(b))
      || Abutting(ps.tail)
    case _ => false
  }

  lemma {:induction false} QuotingKeepsRange(ps: Pieces, replaced: nat, values: seq<string>)
    requires NumbersAreDigits(ps)
    ensures InRange(ps, replaced, QuoteAll(values)) <==> InRange(ps, replaced, values)
  {
    if ps.Cons? {
      QuotingKeepsRange(ps.tail, replaced, values);
      QuotingKeepsRange(ps.tail, replaced + 1, values);
    }
  }

  lemma {:induction false} FilledText(ps: Pieces, replaced: nat, values: seq<string>)
    requires NumbersAreDigits(ps) && InRange(ps, replaced, values)
    ensures InRange(ps, replaced, QuoteAll(values))
    ensures Replaced(ps, replaced, QuoteAll(values)) == Unscan(FilledPieces(ps, replaced, values))
  {
    QuotingKeepsRange(ps, replaced, values);
    if ps.Cons? {
      FilledText(ps.tail, if IsPlaceholder(ps.head) then replaced + 1 else replaced, values);
    }
  }

  /** The first character after filling: a quote for a placeholder, else what it was. */
  lemma FilledStart(ps: Pieces, replaced: nat, values: seq<string>)
    requires IsScan(ps) && NumbersAreDigits(ps) && InRange(ps, replaced, values)
    ensures var x, y := Unscan(ps), Unscan(FilledPieces(ps, replaced, values));
            && (ps == Nil ==> x == [] && y == [])
            && (ps.Cons? ==> x != [] && y != [] && y[0] == if IsPlaceholder(ps.head) then '\'' else x[0])
    ensures ps.Cons? ==> (StartsWith(Unscan(ps), '\'') <==> ps.head.Literal?)
  {
  }

  lemma {:induction false} FilledIsScan(ps: Pieces, replaced: nat, values: seq<string>)
    requires IsScan(ps) && NumbersAreDigits(ps) && InRange(ps, replaced, values)
    ensures IsScan(FilledPieces(ps, replaced, values)) <==> !Abutting(ps)
  {
    if ps.Cons? {
      var p, next := ps.head, if IsPlaceholder(ps.head) then replaced + 1 else replaced;
      FilledIsScan(ps.tail, next, values);
      FilledStart(ps.tail, next, values);
      if IsPlaceholder(p) {
        Requoting.EscapeDoubles(LiteralFor(p, replaced, values).value, '\'');
      }
    }
  }

  /**
   With quoted values the output scans to the input's pieces, each placeholder turned into one
   string, exactly when no placeholder touches a string or another placeholder.
   */
  lemma {:induction false} SubstitutionKeepsPieces(sql: string, values: seq<string>)
    requires InRange(Scan(sql), 0, values)
    ensures InRange(Scan(sql), 0, QuoteAll(values))
    ensures Scan(Replaced(Scan(sql), 0, QuoteAll(values))) == FilledPieces(Scan(sql), 0, values)
            <==> !Abutting(Scan(sql))
  {
    var ps := Scan(sql);
    ScanIsScan(sql);
    FilledText(ps, 0, values);
    FilledIsScan(ps, 0, values);
    var filled := FilledPieces(ps, 0, values);
    ScanIsScan(Unscan(filled));
    if !Abutting(ps) {
      ScanIsUnique(filled);
    }
  }

  /** What the strings of a text denote, in order. */
  function Strings(ps: Pieces): List<string> {
    match ps
    case Nil => Nil
    case Cons(Literal(body, _), rest) => Cons(Requoting.Undouble(body, '\''), Strings(rest))
    case Cons(_, rest) => Strings(rest)
  }

  /** ... when each placeholder stands for its value. */
  function StringsAndValues(ps: Pieces, replaced: nat, values: seq<string>): List<string>
    requires NumbersAreDigits(ps) && InRange(ps, replaced, values)
  {
    match ps
    case Nil => Nil
    case Cons(p, rest) =>
      if IsPlaceholder(p) then Cons(LiteralFor(p, replaced, values).value, StringsAndValues(rest, replaced + 1, values))
      else if p.Literal? then Cons(Requoting.Undouble(p.body, '\''), StringsAndValues(rest, replaced, values))
      else StringsAndValues(rest, replaced, values)
  }

  lemma {:induction false} FilledStrings(ps: Pieces, replaced: nat, values: seq<string>)
    requires NumbersAreDigits(ps) && InRange(ps, replaced, values)
    ensures Strings(FilledPieces(ps, replaced, values)) == StringsAndValues(ps, replaced, values)
  {
    if ps.Cons? {
      FilledStrings(ps.tail, if IsPlaceholder(ps.head) then replaced + 1 else replaced, values);
      if IsPlaceholder(ps.head) {
        Requoting.UndoubleEscape(LiteralFor(ps.head, replaced, values).value, '\'');
      }
    }
  }

  /** Whatever a value contains, the backend reads back exactly that value, in its place. */
  lemma {:induction false} SubstitutedValuesAreReadBack(sql: string, values: seq<string>)
    requires InRange(Scan(sql), 0, values) && !Abutting(Scan(sql))
    ensures InRange(Scan(sql), 0, QuoteAll(values))
    ensures Strings(Scan(Replaced(Scan(sql), 0, QuoteAll(values)))) == StringsAndValues(Scan(sql), 0, values)
  {
    SubstitutionKeepsPieces(sql, values);
    FilledStrings(Scan(sql), 0, values);
  }

  // ------------------------------------------------------------------ the schema probe

  /** The highest `$n` that fits the machine word, counting those inside strings too. */
  function HighestNumber(s: string): nat
    decreases |s|
  {
    if s == [] then 0
    else if s[0] == '$' && StartsWithDigit(s[1..]) then
      var n := DigitCount(s[1..]);
      DigitCountSplits(s[1..]);
      var v := DigitsValue(s[1..][..n]);
      Max(if v <= USIZE_MAX then v else 0, HighestNumber(s[1..][n..]))
    else HighestNumber(s[1..])
  }

  /** Digits in front of a text do not count, so a suffix never has a higher number. */
  lemma {:induction false} DigitsDoNotCount(s: string)
    ensures HighestNumber(s[DigitCount(s)..]) == HighestNumber(s)
  {
    if StartsWithDigit(s) {
      DigitsDoNotCount(s[1..]);
      assert s[1..][DigitCount(s[1..])..] == s[DigitCount(s)..];
    }
  }

  lemma {:induction false} SuffixIsLower(s: string, k: nat)
    requires k <= |s|
    ensures HighestNumber(s[k..]) <= HighestNumber(s)
  {
    if k > 0 {
      SuffixIsLower(s[1..], k - 1);
      assert s[1..][k - 1..] == s[k..];
      DigitsDoNotCount(s[1..]);
    }
  }

  /** At `i` stands a `$` with the digits of `n` behind it, strings or not. */
  predicate HasNumber(s: string, i: nat, n: nat) {
    && i < |s| && s[i] == '$' && StartsWithDigit(s[i + 1..])
    && AllDigits(s[i + 1..][..DigitCount(s[i + 1..])])
    && DigitsValue(s[i + 1..][..DigitCount(s[i + 1..])]) == n
  }

  /** No number that fits the machine word is higher. */
  lemma {:induction false} HighestIsBound(s: string, i: nat, n: nat)
    requires HasNumber(s, i, n) && n <= USIZE_MAX
    ensures n <= HighestNumber(s)
  {
    SuffixIsLower(s, i);
    assert s[i..][1..] == s[i + 1..];
  }

  /** It stands somewhere in the text, unless it is 0. */
  lemma {:induction false} HighestIsFound(s: string) returns (i: nat)
    requires HighestNumber(s) > 0
    ensures HighestNumber(s) <= USIZE_MAX && HasNumber(s, i, HighestNumber(s))
    decreases |s|
  {
    var rest := s[1..];
    var n := DigitCount(rest);
    if s[0] == '$' && StartsWithDigit(rest) {
      DigitCountSplits(rest);
      if HasNumber(s, 0, HighestNumber(s)) && HighestNumber(s) <= USIZE_MAX {
        return 0;
      }
      i := HighestIsFound(rest[n..]);
      assert rest[n..][i + 1..] == s[i + n + 2..];
      i := i + n + 1;
    } else {
      i := HighestIsFound(rest);
      assert rest[i + 1..] == s[i + 2..];
      i := i + 1;
    }
  }

  /** What can still go wrong when `n` literals are supplied. */
  predicate ProbeSafe(ps: Pieces, replaced: nat, n: nat)
    requires NumbersAreDigits(ps)
  {
    match ps
    case Nil => true
    case Cons(Numbered(digits), rest) =>
      && DigitsValue(digits) != 0
      && (DigitsValue(digits) > USIZE_MAX ==> n > 0)
      && ProbeSafe(rest, replaced + 1, n)
    case Cons(Positional, rest) => replaced < n && ProbeSafe(rest, replaced + 1, n)
    case Cons(_, rest) => ProbeSafe(rest, replaced, n)
  }

  lemma {:induction false} HighestBounds(ps: Pieces, replaced: nat, literals: seq<string>)
    requires IsScan(ps) && NumbersAreDigits(ps) && HighestNumber(Unscan(ps)) <= |literals|
    ensures InRange(ps, replaced, literals) <==> ProbeSafe(ps, replaced, |literals|)
  {
    if ps.Cons? {
      var p, rest := ps.head, Unscan(ps.tail);
      var text := PieceText(p) + rest;
      assert text[|PieceText(p)|..] == rest;
      SuffixIsLower(text, |PieceText(p)|);
      HighestBounds(ps.tail, if IsPlaceholder(p) then replaced + 1 else replaced, literals);
      if p.Numbered? {
        NumberedCounts(p.digits, rest);
      }
    }
  }

  lemma {:induction false} NumberedCounts(digits: string, rest: string)
    requires digits != [] && AllDigits(digits) && !StartsWithDigit(rest)
    ensures DigitsValue(digits) <= USIZE_MAX ==> DigitsValue(digits) <= HighestNumber((['$'] + digits) + rest)
  {
    var s := (['$'] + digits) + rest;
    assert s[1..] == digits + rest;
    DigitCountOf(digits, rest);
    assert (digits + rest)[..|digits|] == digits;
    assert (digits + rest)[0] == digits[0];
  }

  function Nulls(n: nat): (r: seq<string>)
    ensures |r| == n
  {
    if n == 0 then [] else ["NULL"] + Nulls(n - 1)
  }

  /**
   Substituting as many NULLs as the highest `$n` of the text succeeds exactly when there is no
   `$0`, every `?` comes after fewer placeholders than that, and an overflowing `$n` finds a
   first literal. The scan that finds the highest number does not skip strings, the one that
   substitutes does; the bound holds all the same.
   */
  lemma {:induction false} ProbeSubstitutes(sql: string)
    ensures InRange(Scan(sql), 0, Nulls(HighestNumber(sql))) <==> ProbeSafe(Scan(sql), 0, HighestNumber(sql))
  {
    ScanIsScan(sql);
    HighestBounds(Scan(sql), 0, Nulls(HighestNumber(sql)));
  }

  // ------------------------------------------------------------------ the byte scanner

  /** The UTF-8 encoding of a scalar value. */
  function Utf8(c: char): (b: seq<nat>)
    ensures 1 <= |b| <= 4
    ensures if c as int < 0x80 then b == [c as int] else forall i :: 0 <= i < |b| ==> 0x80 <= b[i] < 0x100
  {
    var v := c as int;
    if v < 0x80 then [v]
    else if v < 0x800 then [0xC0 + v / 0x40, 0x80 + v % 0x40]
    else if v < 0x1_0000 then [0xE0 + v / 0x1000, 0x80 + v / 0x40 % 0x40, 0x80 + v % 0x40]
    else [0xF0 + v / 0x4_0000, 0x80 + v / 0x1000 % 0x40, 0x80 + v / 0x40 % 0x40, 0x80 + v % 0x40]
  }

  function Utf8All(s: string): seq<nat> {
    if s == [] then [] else Utf8(s[0]) + Utf8All(s[1..])
  }

  predicate StartsWithDigitByte(b: seq<nat>) { b != [] && 0x30 <= b[0] <= 0x39 }

  function DigitBytes(b: seq<nat>): (n: nat)
    ensures n <= |b|
  {
    if StartsWithDigitByte(b) then 1 + DigitBytes(b[1..]) else 0
  }

  /** The value of the digits that start `b`. */
  function BytesValue(acc: nat, b: seq<nat>): nat
    decreases |b|
  {
    if StartsWithDigitByte(b) then BytesValue(10 * acc + (b[0] - 0x30), b[1..]) else acc
  }

  /** The highest `$n` that fits the machine word, over bytes. */
  function HighestInBytes(b: seq<nat>): nat
    decreases |b|
  {
    if b == [] then 0
    else if b[0] == 0x24 && StartsWithDigitByte(b[1..]) then
      var v := BytesValue(0, b[1..]);
      Max(if v <= USIZE_MAX then v else 0, HighestInBytes(b[1..][DigitBytes(b[1..])..]))
    else HighestInBytes(b[1..])
  }

  lemma {:induction false} Utf8Start(s: string)
    requires s != []
    ensures var b := Utf8All(s);
            && b != []
            && b[|Utf8(s[0])|..] == Utf8All(s[1..])
            && (s[0] as int < 0x80 ==> b[0] == s[0] as int && b[1..] == Utf8All(s[1..]))
            && (s[0] as int >= 0x80 ==> b[0] >= 0x80)
  {
    var b := Utf8(s[0]) + Utf8All(s[1..]);
    assert b[|Utf8(s[0])|..] == Utf8All(s[1..]);
  }

  lemma {:induction false} Utf8Digits(s: string)
    ensures StartsWithDigitByte(Utf8All(s)) <==> StartsWithDigit(s)
  {
    if s != [] {
      Utf8Start(s);
    }
  }

  lemma {:induction false} Utf8Number(acc: nat, s: string)
    ensures var n, b := DigitCount(s), Utf8All(s);
            && DigitBytes(b) == n && b[n..] == Utf8All(s[n..])
            && AllDigits(s[..n]) && BytesValue(acc, b) == FoldDigits(acc, s[..n])
    decreases |s|
  {
    DigitCountSplits(s);
    Utf8Digits(s);
    if StartsWithDigit(s) {
      var n, b := DigitCount(s), Utf8All(s);
      Utf8Start(s);
      Utf8Number(10 * acc + (s[0] as int - '0' as int), s[1..]);
      assert s[1..][..n - 1] == s[..n][1..];
      assert s[1..][n - 1..] == s[n..];
      assert b[1..][n - 1..] == b[n..];
    } else {
      assert s[..0] == "";
    }
  }

  /** Bytes of 0x80 and above are never a `$` or a digit. */
  lemma {:induction false} HighBytesSkipped(high: seq<nat>, b: seq<nat>)
    requires forall i :: 0 <= i < |high| ==> 0x80 <= high[i]
    ensures HighestInBytes(high + b) == HighestInBytes(b)
  {
    if high == [] {
      assert high + b == b;
    } else {
      assert (high + b)[1..] == high[1..] + b;
      HighBytesSkipped(high[1..], b);
    }
  }

  /** Scanning bytes finds the same numbers as scanning characters. */
  lemma {:induction false} BytesAgree(s: string)
    ensures HighestInBytes(Utf8All(s)) == HighestNumber(s)
    decreases |s|
  {
    if s != [] {
      Utf8Start(s);
      if s[0] == '$' && StartsWithDigit(s[1..]) {
        Utf8Digits(s[1..]);
        Utf8Number(0, s[1..]);
        BytesAgree(s[1..][DigitCount(s[1..])..]);
      } else {
        BytesAgree(s[1..]);
        if s[0] as int < 0x80 {
          Utf8Digits(s[1..]);
        } else {
          HighBytesSkipped(Utf8(s[0]), Utf8All(s[1..]));
        }
      }
    }
  }

  lemma {:induction false} HighestStep(bytes: seq<nat>, i: nat)
    requires i < |bytes|
    ensures var rest := bytes[i + 1..];
            var n := DigitBytes(rest);
            HighestInBytes(bytes[i..]) ==
            if bytes[i] == 0x24 && n > 0
            then Max(if BytesValue(0, rest) <= USIZE_MAX then BytesValue(0, rest) else 0,
                     HighestInBytes(bytes[i + 1 + n..]))
            else HighestInBytes(rest)
  {
    assert bytes[i + 1..][DigitBytes(bytes[i + 1..])..] == bytes[i + 1 + DigitBytes(bytes[i + 1..])..];
  }

  ghost function HighestFrom(bytes: seq<nat>, i: nat): nat
    requires i <= |bytes|
  {
    HighestInBytes(bytes[i..])
  }

  /** Where the scan goes on after `i`, and the number it passes (0 when none that fits). */
  method PassNumber(bytes: seq<nat>, i: nat) returns (k: nat, v: nat)
    requires i < |bytes|
    ensures i < k <= |bytes| && HighestFrom(bytes, i) == Max(v, HighestFrom(bytes, k))
  {
    HighestStep(bytes, i);
    if bytes[i] == 0x24 {
      var parsed, end := ParseDigits(bytes, i + 1);
      if end > i + 1 {
        return end, if parsed <= USIZE_MAX then parsed else 0;
      }
    }
    return i + 1, 0;
  }

  /** Highest `$n` index appearing in `sql`, 0 when there is none. */
  method MaxPositionalPlaceholder(sql: string) returns (max: nat)
    ensures max == HighestNumber(sql)
  {
    var bytes := Utf8All(sql);
    var i := 0;
    max := 0;
    assert bytes[0..] == bytes;
    while i < |bytes|
      invariant i <= |bytes| && Max(max, HighestFrom(bytes, i)) == HighestInBytes(bytes)
    {
      var k, v := PassNumber(bytes, i);
      max := Max(max, v);
      i := k;
    }
    BytesAgree(sql);
  }

  /** Advance over the digits at `start`, and parse them. */
  method ParseDigits(bytes: seq<nat>, start: nat) returns (v: nat, k: nat)
    requires start <= |bytes|
    ensures k == start + DigitBytes(bytes[start..]) <= |bytes| && v == BytesValue(0, bytes[start..])
  {
    k, v := start, 0;
    while k < |bytes| && 0x30 <= bytes[k] <= 0x39
      invariant start <= k <= |bytes|
      invariant DigitBytes(bytes[start..]) == k - start + DigitBytes(bytes[k..])
      invariant BytesValue(0, bytes[start..]) == BytesValue(v, bytes[k..])
    {
      v := 10 * v + (bytes[k] - 0x30);
      k := k + 1;
    }
  }
}
