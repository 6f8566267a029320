/** CalculateComplexity of generator.go: a strength score that starts at the
    length and adds bonuses for habits and character classes. */
module Complexity {
  import opened Ascii

  predicate HasUpper(p: String)
  {
    exists i :: 0 <= i < |p| && IsUpper(p[i])
  }

  predicate HasLower(p: String)
  {
    exists i :: 0 <= i < |p| && IsLower(p[i])
  }

  predicate HasDigit(p: String)
  {
    exists i :: 0 <= i < |p| && IsDigit(p[i])
  }

  /** A character that is neither a letter nor a digit. */
  predicate IsOther(c: AsciiChar)
  {
    !IsLetter(c) && !IsDigit(c)
  }

  predicate HasOther(p: String)
  {
    exists i :: 0 <= i < |p| && IsOther(p[i])
  }

  /** The score, stated as a sum: the length, +1 when the first character is
      upper case, +1 when the last one is a digit, +5 when both cases occur,
      +5 when a digit occurs, +10 when any other character occurs. */
  function Score(p: String): int
  {
    |p|
    + (if |p| > 0 && IsUpper(p[0]) then 1 else 0)
    + (if |p| > 0 && IsDigit(p[|p| - 1]) then 1 else 0)
    + (if HasUpper(p) && HasLower(p) then 5 else 0)
    + (if HasDigit(p) then 5 else 0)
    + (if HasOther(p) then 10 else 0)
  }

  /** The single pass of the source: one flag per class, and the two
      positional bonuses as they are met. */
  method CalculateComplexity(p: String) returns (score: int)
    ensures score == Score(p)
  {
    score := |p|;
    var hasUpper, hasLower, hasDigit, hasSpec := false, false, false, false;
    for i := 0 to |p|
      invariant hasUpper <==> HasUpper(p[..i])
      invariant hasLower <==> HasLower(p[..i])
      invariant hasDigit <==> HasDigit(p[..i])
      invariant hasSpec <==> HasOther(p[..i])
      invariant score == |p| + (if i > 0 && IsUpper(p[0]) then 1 else 0)
                             + (if i == |p| && i > 0 && IsDigit(p[|p| - 1]) then 1 else 0)
    {
      assert p[..i + 1] == p[..i] + [p[i]];
      var r := p[i];
      if IsUpper(r) {
        hasUpper := true;
        if i == 0 {
          score := score + 1;
        }
      } else if IsLower(r) {
        hasLower := true;
      } else if IsDigit(r) {
        hasDigit := true;
        if i == |p| - 1 {
          score := score + 1;
        }
      } else {
        hasSpec := true;
      }
    }
    assert p[..|p|] == p;
    if hasUpper && hasLower {
      score := score + 5;
    }
    if hasDigit {
      score := score + 5;
    }
    if hasSpec {
      score := score + 10;
    }
  }

  /** The score is at least the length and at most 22 more; the empty
      string scores 0. */
  lemma ScoreBounds(p: String)
    ensures |p| <= Score(p) <= |p| + 22
    ensures p == [] <==> Score(p) == 0
  {
  }

  /** Appending a character keeps every class the word already has, and
      the first character of a non-empty word. */
  lemma AppendKeepsClasses(p: String, c: AsciiChar)
    ensures HasUpper(p) ==> HasUpper(p + [c])
    ensures HasLower(p) ==> HasLower(p + [c])
    ensures HasDigit(p) ==> HasDigit(p + [c])
    ensures HasOther(p) ==> HasOther(p + [c])
    ensures (p + [c])[|p|] == c && (|p| > 0 ==> (p + [c])[0] == p[0])
  {
    var q := p + [c];
    if HasUpper(p) {
      var i :| 0 <= i < |p| && IsUpper(p[i]);
      assert q[i] == p[i];
    }
    if HasLower(p) {
      var i :| 0 <= i < |p| && IsLower(p[i]);
      assert q[i] == p[i];
    }
    if HasDigit(p) {
      var i :| 0 <= i < |p| && IsDigit(p[i]);
      assert q[i] == p[i];
    }
    if HasOther(p) {
      var i :| 0 <= i < |p| && IsOther(p[i]);
      assert q[i] == p[i];
    }
  }

  /** Appending a digit raises the score by at least one, whatever the
      word. */
  lemma DigitAppendRaises(p: String, c: AsciiChar)
    requires IsDigit(c)
    ensures Score(p + [c]) >= Score(p) + 1
  {
    AppendKeepsClasses(p, c);
    var q := p + [c];
    assert HasDigit(q) by {
      assert IsDigit(q[|p|]);
    }
  }

  /** Appending a character that is neither a letter nor a digit never
      lowers the score: the length gained makes up for a lost trailing-digit
      bonus. */
  lemma OtherAppendKeeps(p: String, c: AsciiChar)
    requires IsOther(c)
    ensures Score(p + [c]) >= Score(p)
  {
    AppendKeepsClasses(p, c);
    var q := p + [c];
    assert HasOther(q) by {
      assert IsOther(q[|p|]);
    }
  }

  /** Appending a character of a class the word did not have yet raises the
      score by more than the length gained. */
  lemma NewClassRaises(p: String, c: AsciiChar)
    requires |p| > 0
    requires (IsDigit(c) && !HasDigit(p)) || (IsOther(c) && !HasOther(p))
    ensures Score(p + [c]) > Score(p) + 1
  {
    AppendKeepsClasses(p, c);
    var q := p + [c];
    if IsDigit(c) {
      assert IsDigit(q[|p|]);
    } else {
      assert IsOther(q[|p|]);
    }
  }

  /** Lower-case letters alone score just the length. */
  lemma LowerOnlyScoresLength(p: String)
    requires forall i :: 0 <= i < |p| ==> IsLower(p[i])
    ensures Score(p) == |p|
  {
  }

  /** Any word of the same length as an all-lower-case word, mixed case
      included, scores at least as much. */
  lemma MixedCaseKeeps(p: String, q: String)
    requires forall i :: 0 <= i < |p| ==> IsLower(p[i])
    requires |q| == |p|
    ensures Score(q) >= Score(p)
  {
    LowerOnlyScoresLength(p);
    ScoreBounds(q);
  }

  /** A capital first letter, lower case and a trailing digit:
      9 + 1 + 1 + 5 + 5. */
  lemma ScoreExample(p: String)
    requires p == "Password1"
    ensures Score(p) == 21
  {
    assert IsUpper(p[0]) && IsLower(p[1]) && IsDigit(p[8]);
    assert !HasOther(p) by {
      forall i | 0 <= i < |p| ensures !IsOther(p[i]) {
      }
    }
  }
}
