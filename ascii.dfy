/** Single-byte ASCII text, the character classes the generator tests for,
    ASCII case mapping, and the fixed character sets of generator.go.

    The model restricts every string to ASCII: there the byte and rune views
    of a Go string coincide, and no character range can run past 127. */
module Ascii {

  /** A character that fits in 7 bits. */
  type AsciiChar = c: char | c as int < 128 witness 'a'

  /** Text as the generator handles it. */
  type String = seq<AsciiChar>

  datatype Option<T> = None | Some(value: T)

  predicate IsLower(c: AsciiChar) { 'a' <= c <= 'z' }
  predicate IsUpper(c: AsciiChar) { 'A' <= c <= 'Z' }
  predicate IsDigit(c: AsciiChar) { '0' <= c <= '9' }
  predicate IsLetter(c: AsciiChar) { IsLower(c) || IsUpper(c) }

  /** ASCII lower-casing of one character (strings.ToLower on ASCII). */
  function LowerChar(c: AsciiChar): (r: AsciiChar)
    ensures IsUpper(c) ==> IsLower(r) && r as int == c as int + 32
    ensures !IsUpper(c) ==> r == c
  {
    if IsUpper(c) then (c as int + 32) as char else c
  }

  /** ASCII upper-casing of one character (strings.ToUpper on ASCII). */
  function UpperChar(c: AsciiChar): (r: AsciiChar)
    ensures IsLower(c) ==> IsUpper(r) && r as int == c as int - 32
    ensures !IsLower(c) ==> r == c
  {
    if IsLower(c) then (c as int - 32) as char else c
  }

  function Lower(s: String): (r: String)
    ensures |r| == |s| && forall i :: 0 <= i < |s| ==> r[i] == LowerChar(s[i])
  {
    seq(|s|, i requires 0 <= i < |s| => LowerChar(s[i]))
  }

  function Upper(s: String): (r: String)
    ensures |r| == |s| && forall i :: 0 <= i < |s| ==> r[i] == UpperChar(s[i])
  {
    seq(|s|, i requires 0 <= i < |s| => UpperChar(s[i]))
  }

  lemma LowerIdempotent(s: String)
    ensures Lower(Lower(s)) == Lower(s)
  {
  }

  const LowerChars: String := "abcdefghijklmnopqrstuvwxyz"
  const UpperChars: String := "ABCDEFGHIJKLMNOPQRSTUVWXYZ"
  const DigitChars: String := "0123456789"
  const SpecChars: String := "!@#_-$"
  const CommonChars: String := LowerChars + UpperChars + DigitChars + SpecChars

  /** Every character of `s` belongs to `charset`. */
  predicate AllFrom(s: String, charset: String)
  {
    forall i :: 0 <= i < |s| ==> s[i] in charset
  }

  /** `s` has no character twice. */
  predicate Distinct(s: String)
  {
    forall i, j :: 0 <= i < j < |s| ==> s[i] != s[j]
  }
}
