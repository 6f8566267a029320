/** The compiled form of a pattern: `RegexSegment` of generator.go.

    The Go struct carries all five fields at once and every consumer decides
    what a segment is by testing them in one fixed order: alternatives first,
    then non-empty literal text, then a non-empty charset, and otherwise the
    segment is empty. The model keeps the record and names that decision
    `KindOf`, so a group literal that a quantifier gave bounds to, or an
    alternation with leftover bounds, is represented exactly as in Go. */
module Segments {
  import opened Ascii

  datatype RegexSegment = RegexSegment(
    charset: String,
    literal: String,
    variants: seq<RegexSegment>,
    min: int,
    max: int)

  /** What a segment stands for, in the order the source tests its fields. */
  datatype Kind = Alternation | Literal | CharClass | Empty

  function KindOf(s: RegexSegment): (k: Kind)
    ensures k == Alternation <==> |s.variants| > 0
    ensures k == Literal <==> |s.variants| == 0 && s.literal != []
    ensures k == CharClass <==> |s.variants| == 0 && s.literal == [] && s.charset != []
  {
    if |s.variants| > 0 then Alternation
    else if s.literal != [] then Literal
    else if s.charset != [] then CharClass
    else Empty
  }

  /** A bracket expression before any quantifier: one character of `charset`. */
  function CharsetSegment(charset: String): RegexSegment
  {
    RegexSegment(charset, [], [], 1, 1)
  }

  /** Literal text; the source builds these with Min = Max = 0. */
  function LiteralSegment(text: String): RegexSegment
  {
    RegexSegment([], text, [], 0, 0)
  }

  /** An alternation; the source builds these with Min = Max = 0. */
  function AlternationSegment(variants: seq<RegexSegment>): RegexSegment
  {
    RegexSegment([], [], variants, 0, 0)
  }

  /** Number of ASCII letters in `s`. */
  function Letters(s: String): (n: nat)
    ensures n <= |s|
  {
    if s == [] then 0 else (if IsLetter(s[0]) then 1 else 0) + Letters(s[1..])
  }

  /** Whether seed text may be injected into a segment: literal text always,
      a charset when letters make up strictly more than half of it. The Go
      test `letters > len(charset)/2` with truncating division is the same
      as `2 * letters > len(charset)`. */
  function IsWordLike(s: RegexSegment): (r: bool)
    ensures r <==> s.literal != [] || 2 * Letters(s.charset) > |s.charset|
  {
    if s.literal != [] then true
    else if s.charset == [] then false
    else Letters(s.charset) > |s.charset| / 2
  }

  /** The strings a segment stands for: one of the alternatives, the literal
      text, a run of `min` to `max` characters of the charset, or nothing. */
  ghost predicate Matches(s: RegexSegment, w: String)
    decreases s
  {
    match KindOf(s)
    case Alternation => exists k :: 0 <= k < |s.variants| && Matches(s.variants[k], w)
    case Literal => w == s.literal
    case CharClass => s.min <= |w| <= s.max && AllFrom(w, s.charset)
    case Empty => w == []
  }
}
