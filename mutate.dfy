/** Mutate of generator.go: one to three random edits of a seed word from a
    fixed menu of eleven (case toggles, digits and years and common endings
    appended, an underscore inserted, leetspeak, padding), then padding or
    truncation into the length range, retried while the result equals the
    seed. */
module Mutation {
  import opened Ascii
  import opened Random

  /** The endings of strategy 2. */
  const Suffixes: seq<String> := [
    "123", "2010", "2011", "2012", "2013", "2014", "2015", "2016", "2017", "2018", "2019",
    "2020", "2021", "2022", "2023", "2024", "2025", "2026", "3125", "5213", "!", "!!", "@", "1"
  ]

  /** The years of strategy 9. */
  const Years: seq<String> := [
    "1998", "1999", "2000", "2001", "2002", "2003", "2004", "2005", "2006", "2007", "2008", "2009", "2010"
  ]

  /** The paddings of strategy 10, put on both sides. */
  const Pads: seq<String> := ["---", "___", "...", "!!!"]

  /** The leetspeak substitutions of strategy 4. */
  const Leet: map<AsciiChar, AsciiChar> := map['a' := '4', 'e' := '3', 'i' := '1', 'o' := '0', 's' := '5', 't' := '7']

  /** The number of strategies. */
  const Strategies := 11

  /** A lower-case letter becomes upper case and vice versa. */
  function ToggleCase(c: AsciiChar): (r: AsciiChar)
    ensures LowerChar(r) == LowerChar(c)
    ensures IsLetter(c) ==> r != c
    ensures !IsLetter(c) ==> r == c
  {
    if IsLower(c) then UpperChar(c) else if IsUpper(c) then LowerChar(c) else c
  }

  /** What strategy `strategy` may turn `mut` into, whatever its draws are. */
  ghost predicate MutationOf(strategy: nat, mut: String, r: String)
  {
    if strategy == 0 then
      |r| == |mut| && forall i :: 0 <= i < |mut| ==> r[i] == mut[i] || r[i] == ToggleCase(mut[i])
    else if strategy == 1 then
      |r| == |mut| + 1 && r[0] in DigitChars && r[1..] == mut
    else if strategy == 2 then
      exists k :: 0 <= k < |Suffixes| && r == mut + Suffixes[k]
    else if strategy == 3 then
      |r| == |mut| + 1 && exists p :: 0 <= p <= |mut| && r[p] == '_' && r[..p] == mut[..p] && r[p + 1..] == mut[p..]
    else if strategy == 4 then
      |r| == |mut| && forall i :: 0 <= i < |mut| ==> r[i] == mut[i] || (mut[i] in Leet && r[i] == Leet[mut[i]])
    else if strategy == 5 then
      r == (if mut != [] && IsLower(mut[0]) then mut[0 := UpperChar(mut[0])] else mut)
    else if strategy == 6 then
      |r| == |mut| + 1 && r[..|mut|] == mut && r[|mut|] in DigitChars
    else if strategy == 7 then
      if |mut| <= 1 then r == mut else exists p :: 1 <= p < |mut| && r == mut[p := UpperChar(mut[p])]
    else if strategy == 8 then
      |r| == |mut| + 2 && r[..|mut|] == mut && r[|mut|] in DigitChars && r[|mut| + 1] in SpecChars
    else if strategy == 9 then
      exists k :: 0 <= k < |Years| && r == mut + Years[k]
    else if strategy == 10 then
      exists k :: 0 <= k < |Pads| && r == Pads[k] + mut + Pads[k]
    else
      r == mut
  }

  /** Strategy 0: each character, letter or not, draws a number below 10,
      and a letter whose draw is below 2 has its case toggled. */
  method ToggleSome(mut: String, rng: RandomSource) returns (r: String)
    modifies rng
    ensures MutationOf(0, mut, r)
  {
    r := mut;
    for j := 0 to |mut|
      invariant |r| == |mut|
      invariant forall i :: 0 <= i < |mut| ==> r[i] == mut[i] || r[i] == ToggleCase(mut[i])
      invariant forall i :: j <= i < |mut| ==> r[i] == mut[i]
    {
      var c := rng.Below(10);
      if c < 2 {
        r := r[j := ToggleCase(r[j])];
      }
    }
  }

  /** Strategy 4: each character with a leetspeak substitute draws a number
      below 10 and is substituted when it is below 5. */
  method LeetSome(mut: String, rng: RandomSource) returns (r: String)
    modifies rng
    ensures MutationOf(4, mut, r)
  {
    r := mut;
    for j := 0 to |mut|
      invariant |r| == |mut|
      invariant forall i :: 0 <= i < |mut| ==> r[i] == mut[i] || (mut[i] in Leet && r[i] == Leet[mut[i]])
      invariant forall i :: j <= i < |mut| ==> r[i] == mut[i]
    {
      if r[j] in Leet {
        var c := rng.Below(10);
        if c < 5 {
          r := r[j := Leet[r[j]]];
        }
      }
    }
  }

  /** Strategy 3: an underscore at a drawn position from 0 to |mut|. */
  method InsertUnderscore(mut: String, rng: RandomSource) returns (r: String)
    modifies rng
    ensures MutationOf(3, mut, r)
  {
    var p := rng.Below(|mut| + 1);
    r := mut[..p] + ['_'] + mut[p..];
    assert r[p] == '_' && r[..p] == mut[..p] && r[p + 1..] == mut[p..];
  }

  /** Strategy 7: a drawn position other than the first is upper-cased when
      it holds a lower-case letter. */
  method CapitalizeInner(mut: String, rng: RandomSource) returns (r: String)
    modifies rng
    ensures MutationOf(7, mut, r)
  {
    r := mut;
    if |mut| > 1 {
      var pos := rng.Below(|mut| - 1);
      var idx := pos + 1;
      if IsLower(mut[idx]) {
        r := mut[idx := UpperChar(mut[idx])];
      } else {
        assert r == mut[idx := UpperChar(mut[idx])];
      }
    }
  }

  /** One edit, chosen by `strategy` (a draw below 11). */
  method ApplyMutation(mut: String, strategy: nat, rng: RandomSource) returns (r: String)
    requires strategy < Strategies
    modifies rng
    ensures MutationOf(strategy, mut, r)
  {
    if strategy == 0 {
      r := ToggleSome(mut, rng);
    } else if strategy == 1 {
      var n := rng.Below(|DigitChars|);
      r := [DigitChars[n]] + mut;
    } else if strategy == 2 {
      var k := rng.Below(|Suffixes|);
      r := mut + Suffixes[k];
    } else if strategy == 3 {
      r := InsertUnderscore(mut, rng);
    } else if strategy == 4 {
      r := LeetSome(mut, rng);
    } else if strategy == 5 {
      r := mut;
      if |mut| > 0 && IsLower(mut[0]) {
        r := mut[0 := UpperChar(mut[0])];
      }
    } else if strategy == 6 {
      var n := rng.Below(|DigitChars|);
      r := mut + [DigitChars[n]];
    } else if strategy == 7 {
      r := CapitalizeInner(mut, rng);
    } else if strategy == 8 {
      var d := rng.Below(|DigitChars|);
      var s := rng.Below(|SpecChars|);
      r := mut + [DigitChars[d], SpecChars[s]];
    } else if strategy == 9 {
      var k := rng.Below(|Years|);
      r := mut + Years[k];
    } else {
      var k := rng.Below(|Pads|);
      r := Pads[k] + mut + Pads[k];
    }
  }

  /** Every edit keeps all of the word's length and adds at most six
      characters (three of padding on each side). */
  lemma MutationGrowth(strategy: nat, mut: String, r: String)
    requires MutationOf(strategy, mut, r)
    ensures |mut| <= |r| <= |mut| + 6
  {
    if strategy == 2 {
      var k :| 0 <= k < |Suffixes| && r == mut + Suffixes[k];
      assert |Suffixes[k]| <= 4;
    } else if strategy == 9 {
      var k :| 0 <= k < |Years| && r == mut + Years[k];
      assert |Years[k]| == 4;
    } else if strategy == 10 {
      var k :| 0 <= k < |Pads| && r == Pads[k] + mut + Pads[k];
      assert |Pads[k]| == 3;
    }
  }

  /** The case edits (strategies 0, 5 and 7) leave the lower-cased word
      alone. */
  lemma CaseEditsKeepLowerForm(strategy: nat, mut: String, r: String)
    requires strategy in {0, 5, 7} && MutationOf(strategy, mut, r)
    ensures Lower(r) == Lower(mut)
  {
    if strategy == 7 && |mut| > 1 {
      var p :| 1 <= p < |mut| && r == mut[p := UpperChar(mut[p])];
      assert LowerChar(UpperChar(mut[p])) == LowerChar(mut[p]);
    } else if strategy == 5 && mut != [] && IsLower(mut[0]) {
      assert LowerChar(UpperChar(mut[0])) == LowerChar(mut[0]);
    }
    forall i | 0 <= i < |mut| ensures Lower(r)[i] == Lower(mut)[i] {
      if strategy == 0 {
        assert r[i] == mut[i] || r[i] == ToggleCase(mut[i]);
      }
    }
  }

  /** Removing the inserted underscore gives the word back. */
  lemma UnderscoreRemovable(mut: String, r: String)
    requires MutationOf(3, mut, r)
    ensures exists p :: 0 <= p < |r| && r[p] == '_' && r[..p] + r[p + 1..] == mut
  {
    var p :| 0 <= p <= |mut| && r[p] == '_' && r[..p] == mut[..p] && r[p + 1..] == mut[p..];
    assert mut == mut[..p] + mut[p..];
  }

  /** A chain of edits: `states[k + 1]` is `states[k]` after strategy
      `strategies[k]`. */
  ghost predicate Chain(strategies: seq<nat>, states: seq<String>)
  {
    |states| == |strategies| + 1
    && forall k :: 0 <= k < |strategies| ==>
         strategies[k] < Strategies && MutationOf(strategies[k], states[k], states[k + 1])
  }

  /** A chain of n edits adds between 0 and 6n characters. */
  lemma {:induction false} ChainGrowth(strategies: seq<nat>, states: seq<String>)
    requires Chain(strategies, states)
    ensures |states[0]| <= |states[|strategies|]| <= |states[0]| + 6 * |strategies|
    decreases |strategies|
  {
    var n := |strategies|;
    if n > 0 {
      assert Chain(strategies[..n - 1], states[..n]);
      ChainGrowth(strategies[..n - 1], states[..n]);
      MutationGrowth(strategies[n - 1], states[n - 1], states[n]);
    }
  }

  /** The length fix-up: `mut` padded with `extra` common characters up to
      minLen, then, when that is longer than maxLen, cut to maxLen from the
      front or from the back. */
  ghost predicate Fitted(mut: String, extra: String, minLen: int, maxLen: int, r: String)
  {
    var p := mut + extra;
    && AllFrom(extra, CommonChars)
    && |extra| == (if |mut| < minLen then minLen - |mut| else 0)
    && |r| == (if |p| > maxLen then maxLen else |p|)
    && (r == p[..|r|] || r == p[|p| - |r|..])
  }

  /** The fix-up after the edits of Mutate. Slicing to a negative maxLen
      panics, hence the precondition. */
  method FitLength(mut: String, minLen: int, maxLen: int, rng: RandomSource)
    returns (res: String, extra: String)
    requires maxLen >= 0
    modifies rng
    ensures Fitted(mut, extra, minLen, maxLen, res)
  {
    res := mut;
    extra := [];
    if |res| < minLen {
      var fill := GenerateWithCharset(minLen - |res|, minLen - |res|, CommonChars, rng);
      extra := fill.value;
      res := res + extra;
    }
    assert res == mut + extra;
    if |res| > maxLen {
      var side := rng.Below(2);
      if side == 0 {
        res := res[..maxLen];
      } else {
        res := res[|res| - maxLen..];
      }
    }
  }

  /** The length promise: within [minLen, maxLen] when that range is not
      empty, exactly minLen when padding was needed, exactly maxLen when
      cutting was, and the word itself when it already fits. */
  lemma FittedLength(mut: String, extra: String, minLen: int, maxLen: int, r: String)
    requires Fitted(mut, extra, minLen, maxLen, r) && maxLen >= 0
    ensures |r| <= maxLen
    ensures minLen <= maxLen ==> minLen <= |r|
    ensures |mut| < minLen <= maxLen ==> |r| == minLen && r[..|mut|] == mut
    ensures |mut| > maxLen ==> |r| == maxLen
    ensures minLen <= |mut| <= maxLen ==> r == mut
  {
    var p := mut + extra;
    if |mut| < minLen <= maxLen {
      assert r == p && p[..|mut|] == mut;
    }
    if minLen <= |mut| <= maxLen {
      assert extra == [] && p == mut;
    }
  }

  /** One attempt of Mutate on a non-empty seed: one to three edits, then
      the length fix-up. */
  method MutateOnce(seed: String, minLen: int, maxLen: int, rng: RandomSource)
    returns (res: String, ghost strategies: seq<nat>, ghost states: seq<String>, ghost extra: String)
    requires maxLen >= 0
    modifies rng
    ensures 1 <= |strategies| <= 3 && Chain(strategies, states) && states[0] == seed
    ensures Fitted(states[|strategies|], extra, minLen, maxLen, res)
  {
    var numMuts := rng.Below(3);
    var mut := seed;
    strategies, states := [], [seed];
    for i := 0 to numMuts + 1
      invariant |strategies| == i && Chain(strategies, states) && states[0] == seed
      invariant states[i] == mut
    {
      var strategy := rng.Below(Strategies);
      var next := ApplyMutation(mut, strategy, rng);
      strategies, states := strategies + [strategy], states + [next];
      mut := next;
    }
    res, extra := FitLength(mut, minLen, maxLen, rng);
  }

  /** Mutate. An empty seed gives GenerateRandomFromSet's word. Otherwise
      the attempt is repeated while it gives the seed back; the source
      recurses without bound, the model makes at most `fuel` attempts and
      gives None when they all failed. A successful attempt is one to three
      edits of the seed followed by the length fix-up, which the ghost
      results record. A negative maxLen makes the slicing panic. For an
      empty seed, None stands for GenerateRandomFromSet's panic on a
      negative minLen. */
  method Mutate(seed: String, minLen: int, maxLen: int, fuel: nat, rng: RandomSource)
    returns (res: Option<String>, ghost strategies: seq<nat>, ghost states: seq<String>, ghost extra: String)
    requires seed != [] ==> maxLen >= 0
    modifies rng
    ensures seed == [] && res.Some? ==> LengthIn(|res.value|, minLen, maxLen) && AllFrom(res.value, CommonChars)
    ensures seed == [] ==> (res.None? ==> minLen < 0) && (minLen >= 0 ==> res.Some?)
    ensures seed == [] && maxLen <= minLen < 0 ==> res.None?
    ensures seed != [] && res.Some? ==>
              res.value != seed && |res.value| <= maxLen && (minLen <= maxLen ==> minLen <= |res.value|)
    ensures seed != [] && res.Some? ==>
              && 1 <= |strategies| <= 3 && Chain(strategies, states) && states[0] == seed
              && Fitted(states[|strategies|], extra, minLen, maxLen, res.value)
  {
    strategies, states, extra := [], [seed], [];
    if seed == [] {
      res := GenerateRandomFromSet(minLen, maxLen, rng);
      return;
    }
    var attempts := 0;
    while attempts < fuel
      invariant attempts <= fuel
    {
      var r;
      r, strategies, states, extra := MutateOnce(seed, minLen, maxLen, rng);
      FittedLength(states[|strategies|], extra, minLen, maxLen, r);
      if r != seed {
        return Some(r), strategies, states, extra;
      }
      attempts := attempts + 1;
    }
    return None, strategies, states, extra;
  }
}
