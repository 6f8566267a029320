/** similarity.go: trigram similarity in the manner of PostgreSQL's pg_trgm.
    Both words are lower-cased, padded with two spaces in front and one
    behind, cut into all their three-character windows, and scored by the
    Jaccard index of the two window sets. The score is an exact `real`
    here; the float64 rounding of the source is not modelled. */
module Similarity {
  import opened Ascii

  /** The padding of getTrigrams. */
  function Padded(s: String): (p: String)
    ensures |p| == |s| + 3
  {
    "  " + s + " "
  }

  /** The three characters from index i. */
  function Window(p: String, i: nat): (w: String)
    requires i + 3 <= |p|
    ensures |w| == 3
  {
    p[i..i + 3]
  }

  /** The windows starting below n. */
  function Windows(p: String, n: nat): (t: set<String>)
    requires n + 2 <= |p|
  {
    if n == 0 then {} else Windows(p, n - 1) + {Window(p, n - 1)}
  }

  /** The windows are exactly the three-character slices starting below n,
      and there are at most n of them. */
  lemma {:induction false} WindowsMembers(p: String, n: nat, w: String)
    requires n + 2 <= |p|
    ensures w in Windows(p, n) <==> exists i :: 0 <= i < n && Window(p, i) == w
    ensures |Windows(p, n)| <= n
  {
    if n > 0 {
      WindowsMembers(p, n - 1, w);
    }
  }

  lemma {:induction false} WindowsFirst(p: String, n: nat)
    requires 0 < n && n + 2 <= |p|
    ensures Window(p, 0) in Windows(p, n)
  {
    if n > 1 {
      WindowsFirst(p, n - 1);
    }
  }

  /** The trigram set of getTrigrams. */
  function Trigrams(s: String): set<String>
  {
    Windows(Padded(s), |s| + 1)
  }

  /** A trigram set is never empty (it always holds two spaces and the first
      character, or three spaces for ""), has at most |s| + 1 elements, and
      holds exactly the windows of the padded word. */
  lemma TrigramsShape(s: String)
    ensures 1 <= |Trigrams(s)| <= |s| + 1
    ensures forall w :: w in Trigrams(s) <==> exists i :: 0 <= i <= |s| && Window(Padded(s), i) == w
  {
    var p := Padded(s);
    WindowsFirst(p, |s| + 1);
    WindowsMembers(p, |s| + 1, Window(p, 0));
    forall w ensures w in Trigrams(s) <==> exists i :: 0 <= i <= |s| && Window(p, i) == w {
      WindowsMembers(p, |s| + 1, w);
    }
  }

  /** Every trigram has three characters. */
  lemma TrigramsHaveThree(s: String, w: String)
    requires w in Trigrams(s)
    ensures |w| == 3
  {
    TrigramsShape(s);
  }

  /** getTrigrams, inserting each window into a set in turn. */
  method GetTrigrams(s: String) returns (t: set<String>)
    ensures t == Trigrams(s)
  {
    var padded := "  " + s + " ";
    t := {};
    for i := 0 to |padded| - 2
      invariant t == Windows(padded, i)
    {
      t := t + {Window(padded, i)};
    }
  }

  /** The Jaccard index of two non-empty sets: shared elements over all
      elements. */
  function Jaccard(a: set<String>, b: set<String>): (r: real)
    requires a != {} && b != {}
  {
    |a * b| as real / |a + b| as real
  }

  /** TrigramSimilarity: 1 for words equal after lower-casing, otherwise
      the Jaccard index of their trigram sets. */
  function Score(s1: String, s2: String): real
  {
    var a, b := Lower(s1), Lower(s2);
    if a == b then 1.0
    else
      TrigramsShape(a);
      TrigramsShape(b);
      Jaccard(Trigrams(a), Trigrams(b))
  }

  /** The count TrigramSimilarity computes: common trigrams, over |A| + |B| - common. */
  lemma ScoreFormula(s1: String, s2: String)
    requires Lower(s1) != Lower(s2)
    ensures var a, b := Trigrams(Lower(s1)), Trigrams(Lower(s2));
            var common := |a * b|;
            |a| + |b| - common >= 1
            && Score(s1, s2) == common as real / (|a| + |b| - common) as real
  {
    var a, b := Trigrams(Lower(s1)), Trigrams(Lower(s2));
    TrigramsShape(Lower(s1));
    assert |a + b| + |a * b| == |a| + |b|;
    SubsetCard(a, a + b);
  }

  lemma JaccardRange(a: set<String>, b: set<String>)
    requires a != {} && b != {}
    ensures 0.0 <= Jaccard(a, b) <= 1.0
    ensures Jaccard(a, b) == 1.0 <==> a == b
  {
    SubsetCard(a * b, a + b);
    SubsetCard(a, a + b);
    var c, u := |a * b| as real, |a + b| as real;
    assert Jaccard(a, b) == c / u;
    RatioBounds(c, u);
    if a == b {
      assert a * b == a + b;
    }
    if c / u == 1.0 {
      SubsetSameSize(a * b, a + b);
      assert a == b by {
        assert a <= a + b && b <= a + b;
      }
    }
  }

  /** A ratio of a part to a positive whole lies in [0, 1] and is 1 only
      when the part is the whole. */
  lemma RatioBounds(c: real, u: real)
    requires 0.0 <= c <= u && 0.0 < u
    ensures 0.0 <= c / u <= 1.0
    ensures c / u == 1.0 ==> c == u
  {
    assert c == (c / u) * u;
  }

  lemma {:induction false} SubsetCard(x: set<String>, y: set<String>)
    requires x <= y
    ensures |x| <= |y|
    decreases |x|
  {
    if x != {} {
      var e :| e in x;
      SubsetCard(x - {e}, y - {e});
    }
  }

  /** A subset as large as its superset is all of it. */
  lemma SubsetSameSize(x: set<String>, y: set<String>)
    requires x <= y && |x| == |y|
    ensures x == y
  {
    if x != y {
      var e :| e in y && e !in x;
      SubsetCard(x, y - {e});
    }
  }

  /** The score lies in [0, 1]. */
  lemma ScoreRange(s1: String, s2: String)
    ensures 0.0 <= Score(s1, s2) <= 1.0
  {
    var a, b := Lower(s1), Lower(s2);
    if a != b {
      TrigramsShape(a);
      TrigramsShape(b);
      JaccardRange(Trigrams(a), Trigrams(b));
    }
  }

  /** The score does not depend on the order of the words. */
  lemma ScoreSymmetric(s1: String, s2: String)
    ensures Score(s1, s2) == Score(s2, s1)
  {
    var a, b := Trigrams(Lower(s1)), Trigrams(Lower(s2));
    assert a * b == b * a && a + b == b + a;
  }

  /** Words equal after lower-casing score 1, and the score sees only the
      lower-cased words. */
  lemma ScoreIgnoresCase(s1: String, s2: String)
    ensures Lower(s1) == Lower(s2) ==> Score(s1, s2) == 1.0
    ensures Score(s1, s2) == Score(Lower(s1), Lower(s2))
  {
    LowerIdempotent(s1);
    LowerIdempotent(s2);
  }

  /** The loop counting the trigrams of one set that are in the other. */
  method CountCommon(t1: set<String>, t2: set<String>) returns (common: nat)
    ensures common == |t1 * t2|
  {
    common := 0;
    var rest := t1;
    while rest != {}
      invariant rest <= t1
      invariant common == |(t1 - rest) * t2|
      decreases |rest|
    {
      var w :| w in rest;
      CountStep(t1, t2, rest, w);
      if w in t2 {
        common := common + 1;
      }
      rest := rest - {w};
    }
    assert t1 - rest == t1;
  }

  /** Moving one trigram from the unseen to the seen part adds one common
      trigram exactly when the other set holds it. */
  lemma CountStep(t1: set<String>, t2: set<String>, rest: set<String>, w: String)
    requires rest <= t1 && w in rest
    ensures |(t1 - (rest - {w})) * t2| == |(t1 - rest) * t2| + (if w in t2 then 1 else 0)
  {
    var seen := (t1 - rest) * t2;
    if w in t2 {
      assert (t1 - (rest - {w})) * t2 == seen + {w};
    } else {
      assert (t1 - (rest - {w})) * t2 == seen;
    }
  }

  /** The imperative original. The branches for empty trigram sets cannot be
      taken, since no trigram set is empty. */
  method TrigramSimilarity(s1: String, s2: String) returns (score: real)
    ensures score == Score(s1, s2)
  {
    var a := Lower(s1);
    var b := Lower(s2);
    if a == b {
      return 1.0;
    }
    var t1 := GetTrigrams(a);
    var t2 := GetTrigrams(b);
    TrigramsShape(a);
    TrigramsShape(b);
    if |t1| == 0 && |t2| == 0 {
      assert false;
    }
    if |t1| == 0 || |t2| == 0 {
      assert false;
    }
    var common := CountCommon(t1, t2);
    ScoreFormula(s1, s2);
    var union := |t1| + |t2| - common;
    score := common as real / union as real;
  }
}
