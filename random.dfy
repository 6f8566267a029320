/** The random string generators of generator.go that draw from one charset
    or a fixed pattern: generateWithCharset, getRandomChar,
    GenerateRandomFromSet, GenerateVaried, GenerateByBlockPattern and
    RandomizeCase.

    `crypto/rand` is replaced by a `RandomSource` that answers each
    `rand.Int(rand.Reader, n)` from a tape of arbitrary numbers. Every
    contract below holds for every tape, which is to say whatever the
    random draws are. */
module Random {
  import opened Ascii

  /** A source of draws: the k-th draw below n is the k-th tape entry modulo
      n, and 0 once the tape is used up. */
  class RandomSource {
    var tape: seq<nat>

    constructor (tape: seq<nat>)
      ensures this.tape == tape
    {
      this.tape := tape;
    }

    /** `rand.Int(rand.Reader, big.NewInt(n))`, which panics unless n > 0. */
    method Below(n: nat) returns (r: nat)
      requires n > 0
      modifies this
      ensures r < n
      ensures old(tape) == [] ==> r == 0 && tape == []
      ensures old(tape) != [] ==> r == old(tape)[0] % n && tape == old(tape)[1..]
    {
      if tape == [] {
        r := 0;
      } else {
        r := tape[0] % n;
        tape := tape[1..];
      }
    }
  }

  /** The length generateWithCharset settles on: minLen, or a draw from
      minLen to maxLen when that range has more than one value. */
  predicate LengthIn(n: int, minLen: int, maxLen: int)
  {
    if maxLen <= minLen then n == minLen else minLen <= n <= maxLen
  }

  /** generateWithCharset, with None for a panic. The length is minLen, or
      a draw from minLen to maxLen when that range has more than one value;
      `make` panics when that length is negative, and a draw from an empty
      charset makes `rand.Int` panic. So a non-negative minLen over a
      charset that can be drawn from never panics, and a negative minLen
      with maxLen <= minLen always does. The error result of `rand.Int` is
      not modelled. */
  method GenerateWithCharset(minLen: int, maxLen: int, charset: String, rng: RandomSource)
    returns (res: Option<String>)
    modifies rng
    ensures res.Some? ==> LengthIn(|res.value|, minLen, maxLen) && AllFrom(res.value, charset)
    ensures res.None? ==> minLen < 0 || charset == []
    ensures 0 <= minLen && (charset != [] || (minLen == 0 && maxLen <= 0)) ==> res.Some?
    ensures maxLen <= minLen < 0 ==> res.None?
  {
    var length := minLen;
    if maxLen > minLen {
      var n := rng.Below(maxLen - minLen + 1);
      length := minLen + n;
    }
    if length < 0 {
      return None;
    }
    var w: String := [];
    for i := 0 to length
      invariant |w| == i && AllFrom(w, charset)
    {
      if charset == [] {
        return None;
      }
      var idx := rng.Below(|charset|);
      w := w + [charset[idx]];
    }
    res := Some(w);
  }

  /** getRandomChar: one character of the charset, as a string. */
  method GetRandomChar(charset: String, rng: RandomSource) returns (res: String)
    requires charset != []
    modifies rng
    ensures |res| == 1 && res[0] in charset
  {
    var idx := rng.Below(|charset|);
    res := [charset[idx]];
  }

  /** GenerateRandomFromSet: generateWithCharset over the common charset,
      which panics (None) only for a negative minLen. */
  method GenerateRandomFromSet(minLen: int, maxLen: int, rng: RandomSource) returns (res: Option<String>)
    modifies rng
    ensures res.Some? ==> LengthIn(|res.value|, minLen, maxLen) && AllFrom(res.value, CommonChars)
    ensures res.None? ==> minLen < 0
    ensures minLen >= 0 ==> res.Some?
    ensures maxLen <= minLen < 0 ==> res.None?
  {
    res := GenerateWithCharset(minLen, maxLen, CommonChars, rng);
  }

  /** The six styles GenerateVaried picks from. */
  const Styles: seq<String> := [
    LowerChars,
    DigitChars,
    LowerChars + DigitChars,
    UpperChars + DigitChars,
    LowerChars + UpperChars + DigitChars,
    CommonChars
  ]

  /** Every style draws from the common charset. */
  lemma StylesCommon(k: nat, c: AsciiChar)
    requires k < |Styles| && c in Styles[k]
    ensures c in CommonChars
  {
    assert CommonChars == LowerChars + UpperChars + DigitChars + SpecChars;
  }

  /** GenerateVaried: one randomly chosen style, then generateWithCharset;
      it panics (None) only for a negative minLen. */
  method GenerateVaried(minLen: int, maxLen: int, rng: RandomSource) returns (res: Option<String>)
    modifies rng
    ensures res.Some? ==> LengthIn(|res.value|, minLen, maxLen)
    ensures res.Some? ==> exists k :: 0 <= k < |Styles| && AllFrom(res.value, Styles[k])
    ensures res.Some? ==> AllFrom(res.value, CommonChars)
    ensures res.None? ==> minLen < 0
    ensures minLen >= 0 ==> res.Some?
    ensures maxLen <= minLen < 0 ==> res.None?
  {
    var n := rng.Below(|Styles|);
    assert Styles[n] != [] by {
      assert |Styles[n]| >= |DigitChars| == 10;
    }
    res := GenerateWithCharset(minLen, maxLen, Styles[n], rng);
    if res.Some? {
      var w := res.value;
      forall i | 0 <= i < |w| ensures w[i] in CommonChars {
        StylesCommon(n, w[i]);
      }
    }
  }

  /** The classes of the four positions of a block: lower, upper, digit,
      special. */
  const BlockClasses: seq<String> := [LowerChars, UpperChars, DigitChars, SpecChars]

  /** A block pattern: whole blocks of four, each position from its class. */
  predicate BlockShaped(s: String)
  {
    |s| % 4 == 0 && forall i :: 0 <= i < |s| ==> s[i] in BlockClasses[i % 4]
  }

  /** One more block keeps the pattern. */
  lemma BlockAppend(s: String, a: String, b: String, c: String, d: String)
    requires BlockShaped(s)
    requires |a| == 1 && a[0] in LowerChars && |b| == 1 && b[0] in UpperChars
    requires |c| == 1 && c[0] in DigitChars && |d| == 1 && d[0] in SpecChars
    ensures BlockShaped(s + a + b + c + d) && |s + a + b + c + d| == |s| + 4
  {
    var t := s + a + b + c + d;
    forall k | 0 <= k < |t| ensures t[k] in BlockClasses[k % 4] {
      if k < |s| {
        assert t[k] == s[k];
      } else {
        assert k - |s| == k % 4;
      }
    }
  }

  /** GenerateByBlockPattern: a drawn number of blocks from minBlocks to
      maxBlocks (none when that number is negative), each a lower-case
      letter, an upper-case letter, a digit and a special character. */
  method GenerateByBlockPattern(minBlocks: int, maxBlocks: int, rng: RandomSource)
    returns (res: String)
    modifies rng
    ensures BlockShaped(res)
    ensures exists n :: LengthIn(n, minBlocks, maxBlocks) && |res| == 4 * (if n < 0 then 0 else n)
  {
    var numBlocks := minBlocks;
    if maxBlocks > minBlocks {
      var n := rng.Below(maxBlocks - minBlocks + 1);
      numBlocks := minBlocks + n;
    }
    res := [];
    var i := 0;
    while i < numBlocks
      invariant 0 <= i <= (if numBlocks < 0 then 0 else numBlocks)
      invariant |res| == 4 * i && BlockShaped(res)
    {
      var a := GetRandomChar(LowerChars, rng);
      var b := GetRandomChar(UpperChars, rng);
      var c := GetRandomChar(DigitChars, rng);
      var d := GetRandomChar(SpecChars, rng);
      BlockAppend(res, a, b, c, d);
      res := res + a + b + c + d;
      i := i + 1;
    }
    assert LengthIn(numBlocks, minBlocks, maxBlocks);
  }

  /** Upper-casing the first character and lower-casing the rest: the
      "title case" of RandomizeCase. */
  function TitleCase(s: String): (r: String)
    ensures |r| == |s|
  {
    if s == [] then s else Upper(s[..1]) + Lower(s[1..])
  }

  lemma LowerOfUpperChar(c: AsciiChar)
    ensures LowerChar(UpperChar(c)) == LowerChar(c)
  {
  }

  /** Changing the case of letters leaves the lower-cased form alone. */
  lemma CaseForms(s: String)
    ensures Lower(Upper(s)) == Lower(s)
    ensures Lower(Lower(s)) == Lower(s)
    ensures Lower(TitleCase(s)) == Lower(s)
  {
    assert Lower(Upper(s)) == Lower(s) by {
      forall i | 0 <= i < |s| ensures Lower(Upper(s))[i] == Lower(s)[i] {
        LowerOfUpperChar(s[i]);
      }
    }
    assert Lower(TitleCase(s)) == Lower(s) by {
      if s != [] {
        var t := TitleCase(s);
        forall i | 0 <= i < |s| ensures Lower(t)[i] == Lower(s)[i] {
          if i == 0 {
            LowerOfUpperChar(s[0]);
          } else {
            assert t[i] == Lower(s[1..])[i - 1];
          }
        }
      }
    }
  }

  /** RandomizeCase: all lower (draw 0-2), title case (3-5), all upper (6),
      or each letter upper or lower by a coin flip (7-9). Only the case of
      letters changes. */
  method RandomizeCase(s: String, rng: RandomSource) returns (r: String)
    modifies rng
    ensures |r| == |s| && Lower(r) == Lower(s)
    ensures forall i :: 0 <= i < |s| && !IsLetter(s[i]) ==> r[i] == s[i]
  {
    CaseForms(s);
    var n := rng.Below(10);
    if n < 3 {
      return Lower(s);
    }
    if n < 6 {
      if |s| > 0 {
        return TitleCase(s);
      }
      return s;
    }
    if n < 7 {
      return Upper(s);
    }
    r := s;
    for i := 0 to |s|
      invariant |r| == |s|
      invariant forall k :: 0 <= k < |s| ==> LowerChar(r[k]) == LowerChar(s[k])
      invariant forall k :: 0 <= k < |s| && !IsLetter(s[k]) ==> r[k] == s[k]
    {
      if IsLetter(r[i]) {
        var flip := rng.Below(2);
        if flip == 0 {
          r := r[i := UpperChar(r[i])];
          LowerOfUpperChar(s[i]);
        } else {
          r := r[i := LowerChar(r[i])];
        }
      }
    }
  }
}
