/** Mixed-radix counting, the arithmetic behind every exhaustive enumerator
    of generator.go. An index vector picks one entry per position; the
    enumerators step it like an odometer, the rightmost position fastest,
    carrying to the left on overflow.

    `Tuples(choices)` lists every pick in exactly that order, `Rank` is the
    position of an index vector in that list, and `Bumped` is the vector the
    carry loop leaves behind. */
module Odometer {

  /** Every way of taking one element from each position, first position
      slowest and last position fastest. */
  function Tuples<T>(choices: seq<seq<T>>): (r: seq<seq<T>>)
    decreases |choices|
  {
    if |choices| == 0 then [[]] else Blocks(choices[0], Tuples(choices[1..]))
  }

  /** For each head in order, that head in front of every tail. */
  function Blocks<T>(heads: seq<T>, tails: seq<seq<T>>): (r: seq<seq<T>>)
    ensures |r| == |heads| * |tails|
  {
    if heads == [] then [] else Prefixed(heads[0], tails) + Blocks(heads[1..], tails)
  }

  function Prefixed<T>(h: T, tails: seq<seq<T>>): (r: seq<seq<T>>)
    ensures |r| == |tails| && forall j :: 0 <= j < |tails| ==> r[j] == [h] + tails[j]
  {
    seq(|tails|, j requires 0 <= j < |tails| => [h] + tails[j])
  }

  /** The product of the sizes of the positions. */
  function Count<T>(choices: seq<seq<T>>): nat
  {
    if |choices| == 0 then 1 else |choices[0]| * Count(choices[1..])
  }

  /** `idx` addresses one element of every position. */
  predicate InRange<T>(idx: seq<int>, choices: seq<seq<T>>)
  {
    |idx| == |choices| && forall k :: 0 <= k < |idx| ==> 0 <= idx[k] < |choices[k]|
  }

  /** The elements `idx` addresses. */
  function Select<T>(choices: seq<seq<T>>, idx: seq<int>): (r: seq<T>)
    requires InRange(idx, choices)
    ensures |r| == |idx| && forall k :: 0 <= k < |idx| ==> r[k] == choices[k][idx[k]]
  {
    seq(|idx|, k requires 0 <= k < |idx| => choices[k][idx[k]])
  }

  /** The position of `idx` in the odometer order, first position most
      significant. */
  function Rank<T>(idx: seq<int>, choices: seq<seq<T>>): nat
    requires InRange(idx, choices)
    decreases |idx|
  {
    if |idx| == 0 then 0 else idx[0] * Count(choices[1..]) + Rank(idx[1..], choices[1..])
  }

  function Zeros(n: nat): (z: seq<int>)
    ensures |z| == n && forall k :: 0 <= k < n ==> z[k] == 0
  {
    seq(n, _ => 0)
  }

  /** The vector the carry loop leaves when it stops at position `i`: the
      positions left of `i` untouched, position `i` one higher, every position
      right of it reset to zero. */
  function Bumped(o: seq<int>, i: nat): (b: seq<int>)
    requires i < |o|
    ensures |b| == |o|
  {
    o[..i] + [o[i] + 1] + Zeros(|o| - 1 - i)
  }

  /** Every position is at its last entry: the carry runs off the left end. */
  predicate AtLast<T>(o: seq<int>, choices: seq<seq<T>>)
  {
    |o| == |choices| && forall k :: 0 <= k < |o| ==> o[k] == |choices[k]| - 1
  }

  lemma {:induction false} TuplesLength<T>(choices: seq<seq<T>>)
    ensures |Tuples(choices)| == Count(choices)
    decreases |choices|
  {
    if |choices| > 0 {
      TuplesLength(choices[1..]);
    }
  }

  lemma {:induction false} BlocksAt<T>(heads: seq<T>, tails: seq<seq<T>>, j: nat, r: nat)
    requires j < |heads| && r < |tails|
    ensures j * |tails| + r < |Blocks(heads, tails)|
    ensures Blocks(heads, tails)[j * |tails| + r] == [heads[j]] + tails[r]
    decreases j
  {
    if j > 0 {
      BlocksAt(heads[1..], tails, j - 1, r);
      MulPred(j, |tails|);
    }
  }

  lemma MulPred(j: nat, n: nat)
    requires j > 0
    ensures j * n == n + (j - 1) * n
  {
  }

  lemma {:induction false} RankBound<T>(idx: seq<int>, choices: seq<seq<T>>)
    requires InRange(idx, choices)
    ensures Rank(idx, choices) < Count(choices)
    decreases |idx|
  {
    if |idx| > 0 {
      var c := Count(choices[1..]);
      RankBound(idx[1..], choices[1..]);
      assert idx[0] * c + Rank(idx[1..], choices[1..]) < idx[0] * c + c == (idx[0] + 1) * c;
      assert (idx[0] + 1) * c <= |choices[0]| * c;
    }
  }

  /** The odometer order lists the picks by rank: the entry at `Rank(idx)` is
      exactly what `idx` selects. */
  lemma {:induction false} TuplesAt<T>(idx: seq<int>, choices: seq<seq<T>>)
    requires InRange(idx, choices)
    ensures Rank(idx, choices) < |Tuples(choices)|
    ensures Tuples(choices)[Rank(idx, choices)] == Select(choices, idx)
    decreases |idx|
  {
    TuplesLength(choices);
    RankBound(idx, choices);
    if |idx| > 0 {
      var rest := choices[1..];
      TuplesLength(rest);
      RankBound(idx[1..], rest);
      TuplesAt(idx[1..], rest);
      BlocksAt(choices[0], Tuples(rest), idx[0], Rank(idx[1..], rest));
      assert Select(choices, idx) == [choices[0][idx[0]]] + Select(rest, idx[1..]);
    }
  }

  /** An all-zero vector has rank 0. */
  lemma {:induction false} RankZeros<T>(choices: seq<seq<T>>)
    requires InRange(Zeros(|choices|), choices)
    ensures Rank(Zeros(|choices|), choices) == 0
    decreases |choices|
  {
    if |choices| > 0 {
      assert Zeros(|choices|)[1..] == Zeros(|choices| - 1);
      RankZeros(choices[1..]);
    }
  }

  /** The vector with every position at its last entry is the last of all. */
  lemma {:induction false} RankAtLast<T>(o: seq<int>, choices: seq<seq<T>>)
    requires AtLast(o, choices) && InRange(o, choices)
    ensures Rank(o, choices) + 1 == Count(choices)
    decreases |o|
  {
    if |o| > 0 {
      var c := Count(choices[1..]);
      RankAtLast(o[1..], choices[1..]);
      assert (|choices[0]| - 1) * c + c == |choices[0]| * c;
    }
  }

  /** One step of the carry loop moves exactly one place along the order. */
  lemma {:induction false} RankStep<T>(o: seq<int>, choices: seq<seq<T>>, i: nat)
    requires InRange(o, choices) && i < |o| && o[i] + 1 < |choices[i]|
    requires forall k :: i < k < |o| ==> o[k] == |choices[k]| - 1
    ensures InRange(Bumped(o, i), choices)
    ensures Rank(Bumped(o, i), choices) == Rank(o, choices) + 1
    decreases i
  {
    var b := Bumped(o, i);
    var rest := choices[1..];
    var c := Count(rest);
    assert InRange(b, choices) by {
      forall k | 0 <= k < |b| ensures 0 <= b[k] < |choices[k]| {
        if k < i { assert b[k] == o[k]; }
        else if k == i { assert b[k] == o[i] + 1; }
        else { assert b[k] == 0; }
      }
    }
    if i == 0 {
      assert b[1..] == Zeros(|rest|);
      RankZeros(rest);
      assert AtLast(o[1..], rest);
      RankAtLast(o[1..], rest);
      assert (o[0] + 1) * c == o[0] * c + c;
    } else {
      assert b[1..] == Bumped(o[1..], i - 1);
      RankStep(o[1..], rest, i - 1);
    }
  }

  /** The odometer order contains exactly the well-formed picks. */
  lemma {:induction false} TuplesMembers<T>(choices: seq<seq<T>>, w: seq<T>)
    ensures w in Tuples(choices) <==>
              |w| == |choices| && forall k :: 0 <= k < |w| ==> w[k] in choices[k]
    decreases |choices|
  {
    if |choices| > 0 {
      var rest := choices[1..];
      if w in Tuples(choices) {
        BlocksMembers(choices[0], Tuples(rest), w);
        TuplesMembers(rest, w[1..]);
        forall k | 0 <= k < |w| ensures w[k] in choices[k] {
          if k > 0 { assert w[k] == w[1..][k - 1]; }
        }
      }
      if |w| == |choices| && forall k :: 0 <= k < |w| ==> w[k] in choices[k] {
        assert forall k :: 0 <= k < |w[1..]| ==> w[1..][k] in rest[k] by {
          forall k | 0 <= k < |w[1..]| ensures w[1..][k] in rest[k] {
            assert w[1..][k] == w[k + 1];
          }
        }
        TuplesMembers(rest, w[1..]);
        BlocksMembers(choices[0], Tuples(rest), w);
        assert w == [w[0]] + w[1..];
      }
    }
  }

  lemma {:induction false} BlocksMembers<T>(heads: seq<T>, tails: seq<seq<T>>, w: seq<T>)
    ensures w in Blocks(heads, tails) <==> |w| > 0 && w[0] in heads && w[1..] in tails
    decreases |heads|
  {
    if heads != [] {
      BlocksMembers(heads[1..], tails, w);
      if w in Prefixed(heads[0], tails) {
        var j :| 0 <= j < |tails| && Prefixed(heads[0], tails)[j] == w;
        assert w[1..] == tails[j];
      }
      if |w| > 0 && w[0] == heads[0] && w[1..] in tails {
        var j :| 0 <= j < |tails| && tails[j] == w[1..];
        assert Prefixed(heads[0], tails)[j] == w;
      }
    }
  }

  /** `n` copies of `x`. */
  function Repeat<T>(x: T, n: nat): (r: seq<T>)
    ensures |r| == n && forall k :: 0 <= k < n ==> r[k] == x
  {
    seq(n, _ => x)
  }

  /** The concatenation of a sequence of sequences, in order. */
  function Flatten<T>(xs: seq<seq<T>>): (r: seq<T>)
  {
    if xs == [] then [] else Flatten(xs[..|xs| - 1]) + xs[|xs| - 1]
  }

  /** An element of a concatenation comes from one of its parts, and every
      element of every part is in it. */
  lemma {:induction false} FlattenMembers<T>(xs: seq<seq<T>>, x: T)
    ensures x in Flatten(xs) <==> exists k :: 0 <= k < |xs| && x in xs[k]
    decreases |xs|
  {
    if xs != [] {
      var init := xs[..|xs| - 1];
      FlattenMembers(init, x);
      if exists k :: 0 <= k < |init| && x in init[k] {
        var k :| 0 <= k < |init| && x in init[k];
        assert xs[k] == init[k];
      }
      if exists k :: 0 <= k < |xs| && x in xs[k] {
        var k :| 0 <= k < |xs| && x in xs[k];
        if k < |init| { assert init[k] == xs[k]; }
      }
    }
  }
}
