/** The text form of byte strings, and a decoder that shows it loses nothing. */
module Bytea {
  import opened Wrappers

  type Byte = b: int | 0 <= b < 256

  function OctalDigit(d: int): char
    requires 0 <= d < 8
  {
    '0' + d as char
  }

  /** Two backslashes and three octal digits. */
  function Octal(b: Byte): string {
    ['\\', '\\', OctalDigit(b / 64), OctalDigit(b / 8 % 8), OctalDigit(b % 8)]
  }

  function EscapeByte(b: Byte): string {
    if b == 0x00 then ['\\', '\\', '0', '0', '0']
    else if b == 0x27 then ['\'', '\'']
    else if b == 0x5c then ['\\', '\\', '\\', '\\']
    else if b == 0x0a then ['\\', '\\', '0', '1', '2']
    else if b == 0x0d then ['\\', '\\', '0', '1', '5']
    else if b == 0x08 then ['\\', '\\', 'b']
    else if b == 0x09 then ['\\', '\\', 't']
    else if b < 0x20 || b >= 0x7f then Octal(b)
    else [b as char]
  }

  function EscapeAll(bytes: seq<Byte>): string {
    if bytes == [] then [] else EscapeByte(bytes[0]) + EscapeAll(bytes[1..])
  }

  method EscapeBytea(bytes: seq<Byte>) returns (s: string)
    ensures s == EscapeAll(bytes)
  {
    s := "";
    assert bytes[0..] == bytes;
    for i := 0 to |bytes|
      invariant EscapeAll(bytes) == s + EscapeAll(bytes[i..])
    {
      assert bytes[i..][1..] == bytes[i + 1..];
      s := s + EscapeByte(bytes[i]);
    }
    assert bytes[|bytes|..] == [];
  }

  // ------------------------------------------------------------------ decoding

  predicate IsOctalDigit(c: char) { '0' <= c <= '7' }

  function DigitValue(c: char): int
    requires IsOctalDigit(c)
  {
    c as int - '0' as int
  }

  /** The byte at the start of `s`, and how many characters it takes. */
  function DecodeByte(s: string): Option<(Byte, nat)> {
    if s == [] then None
    else if s[0] == '\'' then
      if |s| >= 2 && s[1] == '\'' then Some((0x27, 2)) else None
    else if s[0] != '\\' then
      if s[0] as int < 256 then Some((s[0] as int, 1)) else None
    else if |s| < 3 || s[1] != '\\' then None
    else if s[2] == '\\' then
      if |s| >= 4 && s[3] == '\\' then Some((0x5c, 4)) else None
    else if s[2] == 'b' then Some((0x08, 3))
    else if s[2] == 't' then Some((0x09, 3))
    else if |s| >= 5 && IsOctalDigit(s[2]) && IsOctalDigit(s[3]) && IsOctalDigit(s[4]) then
      var v := 64 * DigitValue(s[2]) + 8 * DigitValue(s[3]) + DigitValue(s[4]);
      if v < 256 then Some((v, 5)) else None
    else None
  }

  function Decode(s: string): Option<seq<Byte>>
    decreases |s|
  {
    if s == [] then Some([])
    else
      match DecodeByte(s)
      case None => None
      case Some((b, n)) =>
        if n > |s| || n == 0 then None
        else
          match Decode(s[n..])
          case None => None
          case Some(rest) => Some([b] + rest)
  }

  lemma {:induction false} OctalDecodes(b: Byte, rest: string)
    ensures DecodeByte(Octal(b) + rest) == Some((b, 5))
  {
    var s := Octal(b) + rest;
    assert b / 8 / 8 == b / 64;
    assert s[2] == OctalDigit(b / 64) && s[3] == OctalDigit(b / 8 % 8) && s[4] == OctalDigit(b % 8);
  }

  /** Escapes are prefix-free: whatever follows, the decoder takes exactly one byte back. */
  lemma {:induction false} EscapeByteDecodes(b: Byte, rest: string)
    ensures DecodeByte(EscapeByte(b) + rest) == Some((b, |EscapeByte(b)|))
  {
    var s := EscapeByte(b) + rest;
    assert forall i :: 0 <= i < |EscapeByte(b)| ==> s[i] == EscapeByte(b)[i];
    if EscapeByte(b) == Octal(b) {
      OctalDecodes(b, rest);
    }
  }

  lemma {:induction false} EscapeDecodes(bytes: seq<Byte>)
    ensures Decode(EscapeAll(bytes)) == Some(bytes)
  {
    if bytes != [] {
      var e, rest := EscapeByte(bytes[0]), EscapeAll(bytes[1..]);
      EscapeDecodes(bytes[1..]);
      EscapeByteDecodes(bytes[0], rest);
      assert (e + rest)[|e|..] == rest && |e| > 0;
      assert [bytes[0]] + bytes[1..] == bytes;
    }
  }

  /** Different byte strings have different texts. */
  lemma {:induction false} EscapeIsInjective(a: seq<Byte>, b: seq<Byte>)
    requires EscapeAll(a) == EscapeAll(b)
    ensures a == b
  {
    EscapeDecodes(a);
    EscapeDecodes(b);
  }

  predicate IsPrintable(s: string) {
    forall i :: 0 <= i < |s| ==> 0x20 <= s[i] as int < 0x7f
  }

  /** Every character of the text is printable ASCII. */
  lemma {:induction false} EscapeIsPrintable(bytes: seq<Byte>)
    ensures IsPrintable(EscapeAll(bytes))
  {
    if bytes != [] {
      EscapeIsPrintable(bytes[1..]);
      assert IsPrintable(EscapeByte(bytes[0]));
    }
  }
}
