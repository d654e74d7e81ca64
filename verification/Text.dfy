/** Strings as sequences of Unicode scalar values, and the searches the scanners share. */
module Text {
  import opened Wrappers

  predicate IsDigit(c: char) { '0' <= c <= '9' }

  predicate IsAsciiAlphanumeric(c: char) {
    IsDigit(c) || 'a' <= c <= 'z' || 'A' <= c <= 'Z'
  }

  ghost predicate ExtendsAscii(s: set<char>) {
    forall c: char :: c as int < 128 ==> (c in s <==> IsAsciiAlphanumeric(c))
  }

  type CharClass = s: set<char> | ExtendsAscii(s) witness set c: char | IsAsciiAlphanumeric(c)

  // Unicode's alphanumeric class: some extension of the ASCII one, otherwise unconstrained.
  const ALPHANUMERIC: CharClass

  predicate IsAlphanumeric(c: char)
    ensures c as int < 128 ==> (IsAlphanumeric(c) <==> IsAsciiAlphanumeric(c))
  {
    c in ALPHANUMERIC
  }

  predicate IsAsciiWhitespace(c: char) { c == ' ' || '\U{9}' <= c <= '\r' }

  ghost predicate ExtendsAsciiWhitespace(s: set<char>) {
    forall c: char :: c as int < 128 ==> (c in s <==> IsAsciiWhitespace(c))
  }

  type WhitespaceClass = s: set<char> | ExtendsAsciiWhitespace(s) witness set c: char | IsAsciiWhitespace(c)

  // Unicode's whitespace class, in the same way.
  const WHITESPACE: WhitespaceClass

  // No character is in both classes.
  const SPACES: set<char> := WHITESPACE - ALPHANUMERIC

  lemma {:induction false} SpaceClass(c: char)
    ensures c as int < 128 ==> (c in SPACES <==> IsAsciiWhitespace(c))
    ensures IsWord(c) ==> c !in SPACES
  {
    assert c as int < 128 ==> (c in WHITESPACE <==> IsAsciiWhitespace(c));
  }

  predicate IsWord(c: char) { IsAlphanumeric(c) || c == '_' }

  predicate IsQuote(c: char) { c == '"' || c == '`' }

  predicate AllDigits(s: string) {
    s == [] || (IsDigit(s[0]) && AllDigits(s[1..]))
  }

  const USIZE_MAX := 0xFFFF_FFFF_FFFF_FFFF

  function DigitsValue(digits: string): nat
    requires AllDigits(digits)
  {
    FoldDigits(0, digits)
  }

  function FoldDigits(acc: nat, digits: string): nat
    requires AllDigits(digits)
    decreases |digits|
  {
    if digits == [] then acc
    else FoldDigits(10 * acc + (digits[0] as int - '0' as int), digits[1..])
  }

  /** A number as it is written. */
  function Decimal(n: nat): string {
    if n < 10 then ['0' + n as char] else Decimal(n / 10) + ['0' + (n % 10) as char]
  }

  lemma {:induction false} FoldLast(acc: nat, digits: string, d: char)
    requires AllDigits(digits) && IsDigit(d)
    ensures AllDigits(digits + [d])
    ensures FoldDigits(acc, digits + [d]) == 10 * FoldDigits(acc, digits) + (d as int - '0' as int)
    decreases |digits|
  {
    if digits == [] {
      assert [d][1..] == [];
    } else {
      FoldLast(10 * acc + (digits[0] as int - '0' as int), digits[1..], d);
      assert (digits + [d])[1..] == digits[1..] + [d];
    }
  }

  /** Reading what was written. */
  lemma {:induction false} DecimalIsRead(n: nat)
    ensures AllDigits(Decimal(n)) && Decimal(n) != [] && DigitsValue(Decimal(n)) == n
  {
    if n < 10 {
      assert Decimal(n) == ['0' + n as char] && Decimal(n)[1..] == [];
      assert FoldDigits(0, Decimal(n)) == FoldDigits(n, []);
    } else {
      DecimalIsRead(n / 10);
      FoldLast(0, Decimal(n / 10), '0' + (n % 10) as char);
    }
  }

  /** What follows the last dot. */
  function LastComponent(s: string): string {
    if s == [] then []
    else if '.' in s[1..] then LastComponent(s[1..])
    else if s[0] == '.' then s[1..]
    else s
  }

  predicate AllWord(s: string) { s == [] || (IsWord(s[0]) && AllWord(s[1..])) }

  /** Double every `q` in `body`. */
  function Escape(body: string, q: char): string {
    if body == [] then []
    else (if body[0] == q then [q, q] else [body[0]]) + Escape(body[1..], q)
  }

  lemma Assoc(a: string, b: string, c: string)
    ensures (a + b) + c == a + (b + c)
  {
  }

  lemma {:induction false} AssocAll(a: string, b: string, c: string, d: string)
    ensures (a + (b + c)) + d == a + (b + (c + d))
  {
    Assoc(a, b + c, d);
    Assoc(b, c, d);
  }

  lemma HeadTail(w: string, s: string)
    requires w != []
    ensures w + s == [w[0]] + (w[1..] + s)
  {
  }

  function TrimStart(s: string, cs: set<char>): (r: string)
    ensures r == [] || r[0] !in cs
  {
    if s != [] && s[0] in cs then TrimStart(s[1..], cs) else s
  }

  function TrimEnd(s: string, cs: set<char>): (r: string)
    ensures r <= s
    ensures r == [] || r[|r| - 1] !in cs
  {
    if s != [] && s[|s| - 1] in cs then TrimEnd(s[..|s| - 1], cs) else s
  }

  function Trim(s: string, cs: set<char>): string { TrimStart(TrimEnd(s, cs), cs) }

  function UpperChar(c: char): char {
    if 'a' <= c <= 'z' then (c as int - 32) as char else c
  }

  function Upper(s: string): (r: string)
    ensures |r| == |s|
    ensures forall i :: 0 <= i < |s| ==> r[i] == UpperChar(s[i])
  {
    if s == [] then [] else [UpperChar(s[0])] + Upper(s[1..])
  }

  /** `p` occurs in `s` at position `k`. */
  predicate OccursAt(p: string, s: string, k: int) {
    0 <= k && k + |p| <= |s| && forall i {:trigger p[i]} :: 0 <= i < |p| ==> s[k + i] == p[i]
  }

  /** The first position at which `p` occurs in `s`. */
  function Find(p: string, s: string): (r: Option<nat>)
    ensures r.Some? ==> r.value + |p| <= |s|
  {
    if p <= s then
      Some(0)
    else if s == [] then
      None
    else
      match Find(p, s[1..])
      case Some(k) => Some(k + 1)
      case None => None
  }

  /** `r` is the first position at which `p` occurs in `s`, or None. */
  ghost predicate IsFirst(p: string, s: string, r: Option<nat>) {
    match r
    case Some(k) => OccursAt(p, s, k) && forall j :: 0 <= j < k ==> !OccursAt(p, s, j)
    case None => forall j :: !OccursAt(p, s, j)
  }

  lemma {:induction false} FirstInTail(p: string, s: string, r: Option<nat>)
    requires s != [] && !OccursAt(p, s, 0) && IsFirst(p, s[1..], r)
    ensures IsFirst(p, s, match r case Some(k) => Some(k + 1) case None => None)
  {
    forall k | 0 < k ensures OccursAt(p, s, k) <==> OccursAt(p, s[1..], k - 1) {
    }
  }

  lemma {:induction false} FindIsFirst(p: string, s: string)
    ensures IsFirst(p, s, Find(p, s))
  {
    if p <= s {
    } else if s == [] {
    } else {
      FindIsFirst(p, s[1..]);
      FirstInTail(p, s, Find(p, s[1..]));
    }
  }

  lemma {:induction false} FirstIsFound(p: string, s: string, r: Option<nat>)
    requires IsFirst(p, s, r)
    ensures Find(p, s) == r
  {
    FindIsFirst(p, s);
  }
}
