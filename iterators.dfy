/** The two stateful brute-force enumerators of generator.go:
    `SequentialIterator` (one charset, growing length) and
    `PatternedSequentialIterator` (one charset per position, fixed length).

    Each object's abstract state is `Remaining()`: the outputs its future
    calls of `Next` still produce, in order. `Next` returns the head of that
    list and drops it, or reports exhaustion when it is empty. */
module Iterators {
  import opened Ascii
  import opened Odometer

  /** Every string of length `n` over `charset`, in odometer order. */
  function Words(charset: String, n: nat): seq<String>
  {
    Tuples(Repeat(charset, n))
  }

  /** Every string of every length from `lo` to `hi`, shortest first. */
  function Lengths(charset: String, lo: nat, hi: int): seq<String>
    decreases hi - lo
  {
    if lo > hi then [] else Words(charset, lo) + Lengths(charset, lo + 1, hi)
  }

  /** What a SequentialIterator built with (charset, minLen, maxLen) yields
      when minLen > 0: every string of length minLen, then of each further
      length up to maxLen. */
  function Enumeration(charset: String, minLen: nat, maxLen: int): seq<String>
  {
    Words(charset, minLen) + Lengths(charset, minLen + 1, maxLen)
  }

  function Pow(b: nat, e: nat): nat
  {
    if e == 0 then 1 else b * Pow(b, e - 1)
  }

  /** There are |charset|^n strings of length n, each built from the charset. */
  lemma {:induction false} WordsMembers(charset: String, n: nat, w: String)
    ensures |Words(charset, n)| == Pow(|charset|, n)
    ensures w in Words(charset, n) <==> |w| == n && AllFrom(w, charset)
  {
    WordsCount(charset, n);
    TuplesMembers(Repeat(charset, n), w);
  }

  lemma {:induction false} WordsCount(charset: String, n: nat)
    ensures |Words(charset, n)| == Pow(|charset|, n)
  {
    TuplesLength(Repeat(charset, n));
    CountRepeat(charset, n);
  }

  lemma {:induction false} CountRepeat(charset: String, n: nat)
    ensures Count(Repeat(charset, n)) == Pow(|charset|, n)
  {
    if n > 0 {
      assert Repeat(charset, n)[1..] == Repeat(charset, n - 1);
      CountRepeat(charset, n - 1);
    }
  }

  /** The strings of lengths lo..hi are exactly the strings over the charset
      whose length lies in that range. */
  lemma {:induction false} LengthsMembers(charset: String, lo: nat, hi: int, w: String)
    ensures w in Lengths(charset, lo, hi) <==> lo <= |w| <= hi && AllFrom(w, charset)
    decreases hi - lo
  {
    if lo <= hi {
      WordsMembers(charset, lo, w);
      LengthsMembers(charset, lo + 1, hi, w);
    }
  }

  /** Lengths never decrease along the enumeration: shortest first. */
  lemma {:induction false} LengthsShortestFirst(charset: String, lo: nat, hi: int, i: nat, j: nat)
    requires i < j < |Lengths(charset, lo, hi)|
    ensures |Lengths(charset, lo, hi)[i]| <= |Lengths(charset, lo, hi)[j]|
    decreases hi - lo
  {
    var l := Lengths(charset, lo, hi);
    var w := Words(charset, lo);
    var rest := Lengths(charset, lo + 1, hi);
    assert l == w + rest;
    if j < |w| {
      WordsMembers(charset, lo, l[i]);
      WordsMembers(charset, lo, l[j]);
    } else if i < |w| {
      WordsMembers(charset, lo, l[i]);
      assert l[j] == rest[j - |w|];
      LengthsMembers(charset, lo + 1, hi, l[j]);
    } else {
      LengthsShortestFirst(charset, lo + 1, hi, i - |w|, j - |w|);
    }
  }

  /** The enumeration over "ab" with lengths 1 to 2: a, b, aa, ab, ba,
      bb. */
  lemma EnumerationAb()
    ensures Enumeration("ab", 1, 2) == ["a", "b", "aa", "ab", "ba", "bb"]
  {
    var cs: String := "ab";
    var one: seq<String> := [[]];
    assert Repeat(cs, 0) == [];
    assert Repeat(cs, 1)[1..] == Repeat(cs, 0);
    assert Repeat(cs, 2)[1..] == Repeat(cs, 1);
    assert Tuples(Repeat(cs, 0)) == one;
    assert Prefixed('a', one)[0] == "a";
    assert Prefixed('b', one)[0] == "b";
    assert Blocks(cs[1..][1..], one) == [];
    assert Blocks(cs[1..], one) == ["b"];
    assert Words(cs, 1) == Blocks(cs, one) == ["a", "b"];
    var two: seq<String> := ["a", "b"];
    assert Prefixed('a', two)[0] == "aa" && Prefixed('a', two)[1] == "ab";
    assert Prefixed('b', two)[0] == "ba" && Prefixed('b', two)[1] == "bb";
    assert Blocks(cs[1..][1..], two) == [];
    assert Blocks(cs[1..], two) == ["ba", "bb"];
    assert Words(cs, 2) == Blocks(cs, two) == ["aa", "ab", "ba", "bb"];
    assert Lengths(cs, 3, 2) == [];
    assert Lengths(cs, 2, 2) == Words(cs, 2);
  }

  /** Dropping the head of an output list whose first block is not yet
      exhausted. */
  lemma DropHead(w: seq<String>, r: nat, rest: seq<String>)
    requires r < |w|
    ensures (w[r..] + rest)[0] == w[r]
    ensures (w[r..] + rest)[1..] == w[r + 1..] + rest
  {
  }

  /** Dropping the last entry of the first block. */
  lemma DropLast(w: seq<String>, r: nat, rest: seq<String>)
    requires r + 1 == |w|
    ensures (w[r..] + rest)[0] == w[r]
    ensures (w[r..] + rest)[1..] == rest
  {
    assert w[r..] == [w[r]];
  }

  /** The outputs still to come from index vector `idx`: the rest of its
      length from `idx` on, then every longer length up to maxLen; nothing
      once the enumeration is over. */
  ghost function Pending(charset: String, maxLen: int, done: bool, idx: seq<int>): seq<String>
    requires InRange(idx, Repeat(charset, |idx|))
  {
    if done then []
    else
      var choices := Repeat(charset, |idx|);
      TuplesAt(idx, choices);
      Words(charset, |idx|)[Rank(idx, choices)..] + Lengths(charset, |idx| + 1, maxLen)
  }

  /** A step within the current length: the head of what is pending is the
      string `idx` addresses, and the next vector leaves the rest. */
  lemma PendingStep(charset: String, maxLen: int, idx: seq<int>, next: seq<int>)
    requires InRange(idx, Repeat(charset, |idx|)) && |next| == |idx|
    requires InRange(next, Repeat(charset, |idx|))
    requires Rank(next, Repeat(charset, |idx|)) == Rank(idx, Repeat(charset, |idx|)) + 1
    ensures Pending(charset, maxLen, false, idx) != []
    ensures Pending(charset, maxLen, false, idx)[0] == Select(Repeat(charset, |idx|), idx)
    ensures Pending(charset, maxLen, false, next) == Pending(charset, maxLen, false, idx)[1..]
  {
    var choices := Repeat(charset, |idx|);
    TuplesAt(idx, choices);
    TuplesAt(next, choices);
    DropHead(Words(charset, |idx|), Rank(idx, choices), Lengths(charset, |idx| + 1, maxLen));
  }

  /** The last string of a length: what follows is the first string of the
      next length, or nothing once maxLen is reached. */
  lemma PendingWrap(charset: String, maxLen: int, idx: seq<int>)
    requires |charset| > 0 && InRange(idx, Repeat(charset, |idx|))
    requires Rank(idx, Repeat(charset, |idx|)) + 1 == Count(Repeat(charset, |idx|))
    ensures Pending(charset, maxLen, false, idx) != []
    ensures Pending(charset, maxLen, false, idx)[0] == Select(Repeat(charset, |idx|), idx)
    ensures InRange(Zeros(|idx| + 1), Repeat(charset, |idx| + 1))
    ensures |idx| < maxLen ==>
              Pending(charset, maxLen, false, Zeros(|idx| + 1)) == Pending(charset, maxLen, false, idx)[1..]
    ensures |idx| >= maxLen ==> Pending(charset, maxLen, false, idx)[1..] == []
  {
    var n := |idx|;
    var choices := Repeat(charset, n);
    TuplesAt(idx, choices);
    TuplesLength(choices);
    DropLast(Words(charset, n), Rank(idx, choices), Lengths(charset, n + 1, maxLen));
    RankZeros(Repeat(charset, n + 1));
    assert Words(charset, n + 1)[0..] == Words(charset, n + 1);
  }

  /** Odometer over one charset whose length grows from minLen to maxLen. */
  class SequentialIterator {
    const charset: String
    const minLen: nat
    const maxLen: int
    var indices: array<int>
    var done: bool

    ghost predicate Valid()
      reads this, indices
    {
      && (indices.Length > 0 ==> |charset| > 0)
      && (indices.Length == minLen || minLen < indices.Length <= maxLen)
      && InRange(indices[..], Repeat(charset, indices.Length))
    }

    /** The outputs still to come: the rest of the current length from the
        current index vector on, then every longer length up to maxLen. */
    ghost function Remaining(): seq<String>
      reads this, indices
      requires Valid()
    {
      Pending(charset, maxLen, done, indices[..])
    }

    /** NewSequentialIterator. A negative minLen makes Go's `make` panic, so
        it is a `nat`; a positive minLen over an empty charset would panic in
        Next, so it is excluded. */
    constructor (charset: String, minLen: nat, maxLen: int)
      requires minLen > 0 ==> |charset| > 0
      ensures Valid() && fresh(indices) && !done
      ensures this.charset == charset && this.minLen == minLen && this.maxLen == maxLen
      ensures indices.Length == minLen
      ensures minLen > 0 ==> Remaining() == Enumeration(charset, minLen, maxLen)
    {
      this.charset := charset;
      this.minLen := minLen;
      this.maxLen := maxLen;
      indices := new int[minLen](_ => 0);
      done := false;
      new;
      assert indices[..] == Zeros(minLen);
      RankZeros(Repeat(charset, minLen));
    }

    /** The string the index vector currently addresses. */
    method Current() returns (res: String)
      requires Valid()
      ensures res == Select(Repeat(charset, indices.Length), indices[..])
    {
      res := [];
      for i := 0 to indices.Length
        invariant |res| == i && forall k :: 0 <= k < i ==> res[k] == charset[indices[k]]
      {
        res := res + [charset[indices[i]]];
      }
    }

    /** The carry loop of Next: steps the index vector one place along the
        odometer order, or, when every position was at its last character,
        resets them all and reports the wrap. An empty vector never wraps. */
    method Advance() returns (wrapped: bool)
      requires Valid()
      modifies indices
      ensures Valid()
      ensures indices.Length == 0 ==> !wrapped
      ensures indices.Length > 0 && !wrapped ==>
                Rank(indices[..], Repeat(charset, indices.Length))
                == Rank(old(indices[..]), Repeat(charset, indices.Length)) + 1
      ensures wrapped ==>
                indices[..] == Zeros(indices.Length)
                && Rank(old(indices[..]), Repeat(charset, indices.Length)) + 1
                   == Count(Repeat(charset, indices.Length))
    {
      var n := indices.Length;
      ghost var o := indices[..];
      ghost var choices := Repeat(charset, n);
      var i := n - 1;
      while i >= 0
        invariant -1 <= i < n
        invariant i == -1 ==> n == 0
        invariant forall k :: 0 <= k <= i ==> indices[k] == o[k]
        invariant forall k :: i < k < n ==> indices[k] == 0 && o[k] == |charset| - 1
        decreases i
      {
        indices[i] := indices[i] + 1;
        if indices[i] < |charset| {
          assert indices[..] == Bumped(o, i);
          RankStep(o, choices, i);
          return false;
        }
        indices[i] := 0;
        if i == 0 {
          assert AtLast(o, choices);
          RankAtLast(o, choices);
          assert indices[..] == Zeros(n);
          RankZeros(choices);
          return true;
        }
        i := i - 1;
      }
      return false;
    }

    /** Returns the current string and steps the odometer, moving on to the
        next length after the last string of the current one and stopping
        after maxLen. With minLen = 0 the index vector is empty, nothing is
        ever carried, and every call returns ("", true). */
    method Next() returns (res: String, ok: bool)
      requires Valid()
      modifies this, indices
      ensures Valid() && (indices == old(indices) || fresh(indices))
      ensures old(indices.Length) == 0 ==>
                res == [] && ok == !old(done) && indices.Length == 0 && done == old(done)
      ensures old(indices.Length) > 0 ==> indices.Length > 0
      ensures old(indices.Length) > 0 && old(Remaining()) == [] ==>
                res == [] && !ok && Remaining() == []
      ensures old(indices.Length) > 0 && old(Remaining()) != [] ==>
                ok && res == old(Remaining())[0] && Remaining() == old(Remaining())[1..]
    {
      if done {
        return [], false;
      }
      var n := indices.Length;
      ghost var o := indices[..];
      res := Current();
      var wrapped := Advance();
      if wrapped {
        PendingWrap(charset, maxLen, o);
        if n < maxLen {
          indices := new int[n + 1](_ => 0);
          assert indices[..] == Zeros(n + 1);
        } else {
          done := true;
        }
      } else if n > 0 {
        PendingStep(charset, maxLen, o, indices[..]);
      }
      return res, true;
    }
  }

  /** The outputs still to come from index vector `idx` over per-position
      charsets: the combinations from `idx` on, nothing once done. */
  ghost function PatternPending(charsets: seq<String>, done: bool, idx: seq<int>): seq<String>
    requires InRange(idx, charsets)
  {
    if done then []
    else
      TuplesAt(idx, charsets);
      Tuples(charsets)[Rank(idx, charsets)..]
  }

  /** A carry that stops at some position: the head of what is pending is
      the combination `idx` addresses, and the next vector leaves the rest. */
  lemma PatternPendingStep(charsets: seq<String>, idx: seq<int>, next: seq<int>)
    requires InRange(idx, charsets) && InRange(next, charsets)
    requires Rank(next, charsets) == Rank(idx, charsets) + 1
    ensures PatternPending(charsets, false, idx) != []
    ensures PatternPending(charsets, false, idx)[0] == Select(charsets, idx)
    ensures PatternPending(charsets, false, next) == PatternPending(charsets, false, idx)[1..]
  {
    TuplesAt(idx, charsets);
    TuplesAt(next, charsets);
    DropHead(Tuples(charsets), Rank(idx, charsets), []);
  }

  /** A carry that runs off the left end: the current combination is the
      last one. */
  lemma PatternPendingLast(charsets: seq<String>, idx: seq<int>)
    requires InRange(idx, charsets) && AtLast(idx, charsets)
    ensures PatternPending(charsets, false, idx) == [Select(charsets, idx)]
  {
    TuplesAt(idx, charsets);
    TuplesLength(charsets);
    RankAtLast(idx, charsets);
    DropLast(Tuples(charsets), Rank(idx, charsets), []);
  }

  /** Odometer over a fixed sequence of per-position charsets. */
  class PatternedSequentialIterator {
    const charsets: seq<String>
    var indices: array<int>
    var done: bool

    ghost predicate Valid()
      reads this, indices
    {
      InRange(indices[..], charsets)
    }

    /** The outputs still to come, from the current index vector on. */
    ghost function Remaining(): seq<String>
      reads this, indices
      requires Valid()
    {
      PatternPending(charsets, done, indices[..])
    }

    /** NewPatternedSequentialIterator. An empty position would make Next
        index it and panic, so every position must offer a character. */
    constructor (posCharsets: seq<String>)
      requires forall k :: 0 <= k < |posCharsets| ==> |posCharsets[k]| > 0
      ensures Valid() && fresh(indices) && !done && charsets == posCharsets
      ensures |posCharsets| > 0 ==> Remaining() == Tuples(posCharsets)
    {
      charsets := posCharsets;
      indices := new int[|posCharsets|](_ => 0);
      done := false;
      new;
      assert indices[..] == Zeros(|posCharsets|);
      RankZeros(posCharsets);
    }

    /** The string the index vector currently addresses. */
    method Current() returns (res: String)
      requires Valid()
      ensures res == Select(charsets, indices[..])
    {
      res := [];
      for i := 0 to indices.Length
        invariant |res| == i && forall k :: 0 <= k < i ==> res[k] == charsets[k][indices[k]]
      {
        res := res + [charsets[i][indices[i]]];
      }
    }

    /** Returns the current string and steps the odometer. With no positions
        every call returns ("", true). */
    method Next() returns (res: String, ok: bool)
      requires Valid()
      modifies this, indices
      ensures Valid() && indices == old(indices)
      ensures |charsets| == 0 ==> res == [] && ok == !old(done) && done == old(done)
      ensures |charsets| > 0 && old(Remaining()) == [] ==>
                res == [] && !ok && Remaining() == []
      ensures |charsets| > 0 && old(Remaining()) != [] ==>
                ok && res == old(Remaining())[0] && Remaining() == old(Remaining())[1..]
    {
      if done {
        return [], false;
      }
      var n := indices.Length;
      ghost var o := indices[..];
      res := Current();

      var i := n - 1;
      while i >= 0
        invariant -1 <= i < n
        invariant i == -1 ==> n == 0
        invariant indices == old(indices) && !done && n == |charsets|
        invariant forall k :: 0 <= k <= i ==> indices[k] == o[k]
        invariant forall k :: i < k < n ==> indices[k] == 0 && o[k] == |charsets[k]| - 1
        decreases i
      {
        indices[i] := indices[i] + 1;
        if indices[i] < |charsets[i]| {
          assert indices[..] == Bumped(o, i);
          RankStep(o, charsets, i);
          PatternPendingStep(charsets, o, indices[..]);
          return res, true;
        }
        indices[i] := 0;
        if i == 0 {
          assert AtLast(o, charsets);
          PatternPendingLast(charsets, o);
          done := true;
          return res, true;
        }
        i := i - 1;
      }
      return res, true;
    }
  }

  /** A client that drives a SequentialIterator to exhaustion through its
      contract alone: over "ab" with lengths 1 to 2 the successful calls of
      `Next` return a, b, aa, ab, ba, bb, and the two calls after them both
      report exhaustion with "". */
  method SequentialExample() returns (words: seq<String>, after: seq<(String, bool)>)
    ensures words == ["a", "b", "aa", "ab", "ba", "bb"]
    ensures after == [("", false), ("", false)]
  {
    var it := new SequentialIterator("ab", 1, 2);
    EnumerationAb();
    var w1, ok1 := it.Next();
    assert w1 == "a" && ok1;
    var w2, ok2 := it.Next();
    assert w2 == "b" && ok2;
    var w3, ok3 := it.Next();
    assert w3 == "aa" && ok3;
    var w4, ok4 := it.Next();
    assert w4 == "ab" && ok4;
    var w5, ok5 := it.Next();
    assert w5 == "ba" && ok5;
    var w6, ok6 := it.Next();
    assert w6 == "bb" && ok6;
    var e1, d1 := it.Next();
    assert e1 == "" && !d1;
    var e2, d2 := it.Next();
    assert e2 == "" && !d2;
    words := [w1, w2, w3, w4, w5, w6];
    after := [(e1, d1), (e2, d2)];
  }
}
