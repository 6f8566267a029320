/** Exhaustive expansion of compiled patterns: `Expand` and
    `RunSegmentedBrute` of generator.go.

    A segment expands to the list of strings it stands for; the brute-force
    driver walks the Cartesian product of the expansions with an odometer
    and hands `prefix` followed by each combination to its callback, which
    here is the sequence of emitted strings. */
module Expansion {
  import opened Ascii
  import opened Odometer
  import opened Segments
  import opened Iterators

  /** The segments Expand terminates on. A class whose length range starts
      at 0 drives a SequentialIterator with minLen 0, which returns "" for
      ever, and a negative length makes Go's `make` panic; a class whose range
      is empty is never iterated. */
  ghost predicate Expandable(s: RegexSegment)
    decreases s
  {
    match KindOf(s)
    case Alternation => forall k :: 0 <= k < |s.variants| ==> Expandable(s.variants[k])
    case CharClass => s.min >= 1 || s.min > s.max
    case _ => true
  }

  /** Expand: the alternatives' expansions one after another, the literal
      text, every string of every length from min to max over the charset,
      or the empty string. */
  function Expand(s: RegexSegment): seq<String>
    requires Expandable(s)
    decreases s
  {
    match KindOf(s)
    case Alternation =>
      Flatten(seq(|s.variants|, k requires 0 <= k < |s.variants| => Expand(s.variants[k])))
    case Literal => [s.literal]
    case CharClass => if s.min > s.max then [] else Lengths(s.charset, s.min, s.max)
    case Empty => [[]]
  }

  /** The expansion lists exactly the strings the segment matches. */
  lemma {:induction false} ExpandMatches(s: RegexSegment, w: String)
    requires Expandable(s)
    ensures w in Expand(s) <==> Matches(s, w)
    decreases s
  {
    match KindOf(s)
    case Alternation =>
      var parts := seq(|s.variants|, k requires 0 <= k < |s.variants| => Expand(s.variants[k]));
      FlattenMembers(parts, w);
      forall k | 0 <= k < |s.variants|
        ensures w in parts[k] <==> Matches(s.variants[k], w)
      {
        ExpandMatches(s.variants[k], w);
      }
    case Literal =>
    case CharClass =>
      if s.min <= s.max {
        LengthsMembers(s.charset, s.min, s.max, w);
      }
    case Empty =>
  }

  /** The charset branch of Expand as the source runs it: for each length a
      SequentialIterator from that length to itself, drained until it
      reports exhaustion. */
  method ExpandCharset(charset: String, min: int, max: int) returns (res: seq<String>)
    requires charset != [] && (min >= 1 || min > max)
    ensures res == if min > max then [] else Lengths(charset, min, max)
  {
    res := [];
    if min > max {
      return;
    }
    var l: nat := min;
    while l <= max
      invariant min <= l <= max + 1
      invariant res + Lengths(charset, l, max) == Lengths(charset, min, max)
      decreases max - l
    {
      var it := new SequentialIterator(charset, l, l);
      var got := Drain(it);
      LengthsOneAtATime(charset, min, l, max, res, got);
      res := res + got;
      l := l + 1;
    }
  }

  /** Draining an iterator from length l to itself yields the strings of
      length l, the first block of Lengths from l. */
  lemma LengthsOneAtATime(charset: String, min: nat, l: nat, max: int, res: seq<String>, got: seq<String>)
    requires min <= l <= max && got == Enumeration(charset, l, l)
    requires res + Lengths(charset, l, max) == Lengths(charset, min, max)
    ensures (res + got) + Lengths(charset, l + 1, max) == Lengths(charset, min, max)
  {
    EnumerationOneLength(charset, l);
    ConcatAssoc(res, got, Lengths(charset, l + 1, max));
  }

  /** An enumeration from one length to itself is just that length. */
  lemma EnumerationOneLength(charset: String, l: nat)
    ensures Enumeration(charset, l, l) == Words(charset, l)
  {
    assert Lengths(charset, l + 1, l) == [];
  }

  lemma ConcatAssoc(a: seq<String>, b: seq<String>, c: seq<String>)
    ensures (a + b) + c == a + (b + c)
  {
  }

  /** Calls Next until it reports exhaustion and collects what it returns:
      everything the iterator had still to produce. */
  method Drain(it: SequentialIterator) returns (got: seq<String>)
    requires it.Valid() && it.indices.Length > 0
    modifies it, it.indices
    ensures got == old(it.Remaining())
  {
    ghost var all := it.Remaining();
    got := [];
    while true
      invariant it.Valid() && it.indices.Length > 0
      invariant it.indices == old(it.indices) || fresh(it.indices)
      invariant got + it.Remaining() == all
      decreases |it.Remaining()|
    {
      ghost var before := it.Remaining();
      var p, ok := it.Next();
      if !ok {
        break;
      }
      DrainStep(all, got, before, p, it.Remaining());
      got := got + [p];
    }
  }

  lemma DrainStep(all: seq<String>, got: seq<String>, before: seq<String>, p: String, after: seq<String>)
    requires got + before == all && before != [] && p == before[0] && after == before[1..]
    ensures (got + [p]) + after == all && |after| < |before|
  {
    assert before == [p] + after;
  }

  /** The expansions of the segments, position by position. */
  function Choices(segments: seq<RegexSegment>): (c: seq<seq<String>>)
    requires forall k :: 0 <= k < |segments| ==> Expandable(segments[k])
    ensures |c| == |segments|
    ensures forall k :: 0 <= k < |segments| ==> c[k] == Expand(segments[k])
  {
    seq(|segments|, k requires 0 <= k < |segments| => Expand(segments[k]))
  }

  /** `prefix` followed by each combination of the choices, in odometer
      order. */
  function Emitted(choices: seq<seq<String>>, prefix: String): (e: seq<String>)
    ensures |e| == |Tuples(choices)|
    ensures forall k :: 0 <= k < |e| ==> e[k] == prefix + Flatten(Tuples(choices)[k])
  {
    var t := Tuples(choices);
    seq(|t|, k requires 0 <= k < |t| => prefix + Flatten(t[k]))
  }

  /** What the odometer walk over `choices` emits: with no positions,
      `count` copies of the prefix; otherwise every combination in odometer
      order, but no more than `count` of them when `count` is positive. */
  function Walked(choices: seq<seq<String>>, count: int, prefix: String): seq<String>
    requires |choices| > 0 || count > 0
  {
    if |choices| == 0 then Repeat(prefix, count)
    else
      var all := Emitted(choices, prefix);
      if 0 < count < |all| then all[..count] else all
  }

  /** What RunSegmentedBrute hands its callback. */
  function BruteOutputs(segments: seq<RegexSegment>, count: int, prefix: String): seq<String>
    requires forall k :: 0 <= k < |segments| ==> Expandable(segments[k])
    requires |segments| > 0 || count > 0
  {
    Walked(Choices(segments), count, prefix)
  }

  /** RunSegmentedBrute. An empty expansion would be indexed at 0 and panic,
      and no segments with no count loops for ever: both are excluded. */
  method RunSegmentedBrute(segments: seq<RegexSegment>, count: int, prefix: String)
    returns (out: seq<String>)
    requires forall k :: 0 <= k < |segments| ==> Expandable(segments[k]) && |Expand(segments[k])| > 0
    requires |segments| > 0 || count > 0
    ensures out == BruteOutputs(segments, count, prefix)
  {
    var all: seq<seq<String>> := [];
    for k := 0 to |segments|
      invariant all == Choices(segments[..k])
    {
      all := all + [Expand(segments[k])];
    }
    assert segments[..|segments|] == segments;
    out := Walk(all, count, prefix);
  }

  /** The output loop of RunSegmentedBrute: emit the current combination,
      stop after `count` outputs, step the odometer, stop when it wraps. */
  method Walk(all: seq<seq<String>>, count: int, prefix: String) returns (out: seq<String>)
    requires forall k :: 0 <= k < |all| ==> |all[k]| > 0
    requires |all| > 0 || count > 0
    ensures out == Walked(all, count, prefix)
  {
    var indices := new int[|all|](_ => 0);
    assert indices[..] == Zeros(|all|);
    RankZeros(all);
    RankBound(indices[..], all);
    TuplesLength(all);
    out := [];
    var generated := 0;
    while true
      invariant InRange(indices[..], all) && indices.Length == |all|
      invariant Rank(indices[..], all) < Count(all) == |Tuples(all)|
      invariant generated == |out|
      invariant |all| > 0 ==> out == Emitted(all, prefix)[..Rank(indices[..], all)]
      invariant |all| == 0 ==> out == Repeat(prefix, generated) && generated < count
      invariant count > 0 ==> generated < count
      decreases if |all| == 0 then count - generated else Count(all) - Rank(indices[..], all)
    {
      var res := Build(prefix, all, indices);
      ghost var r := Rank(indices[..], all);
      if |all| > 0 {
        EmittedStep(all, prefix, indices[..], out, res);
      } else {
        RepeatStep(prefix, generated, out, Select(all, indices[..]), res);
      }
      out := out + [res];
      generated := generated + 1;
      if count > 0 && generated >= count {
        if |all| > 0 {
          WalkedAt(all, count, prefix, out, r + 1);
        }
        return;
      }
      var wrapped := Increment(indices, all);
      RankBound(indices[..], all);
      if wrapped {
        WalkedAt(all, count, prefix, out, r + 1);
        return;
      }
    }
  }

  /** Emitting the combination at rank r extends the first r emitted
      strings by one. */
  lemma EmittedStep(all: seq<seq<String>>, prefix: String, idx: seq<int>, out: seq<String>, res: String)
    requires InRange(idx, all) && Rank(idx, all) < |Tuples(all)|
    requires out == Emitted(all, prefix)[..Rank(idx, all)]
    requires res == prefix + Flatten(Select(all, idx))
    ensures out + [res] == Emitted(all, prefix)[..Rank(idx, all) + 1]
  {
    TuplesAt(idx, all);
  }

  /** With no positions every output is the bare prefix. */
  lemma RepeatStep(prefix: String, n: nat, out: seq<String>, picks: seq<String>, res: String)
    requires out == Repeat(prefix, n) && picks == [] && res == prefix + Flatten(picks)
    ensures out + [res] == Repeat(prefix, n + 1)
  {
    assert res == prefix;
  }

  /** The walk stops after n outputs, either because n reached the count or
      because n is every combination: what it emitted is Walked. */
  lemma WalkedAt(all: seq<seq<String>>, count: int, prefix: String, out: seq<String>, n: nat)
    requires |all| > 0 && n <= |Emitted(all, prefix)| && out == Emitted(all, prefix)[..n]
    requires (0 < count && n == count) || n == |Emitted(all, prefix)|
    requires count > 0 ==> n <= count
    ensures out == Walked(all, count, prefix)
  {
    var e := Emitted(all, prefix);
    assert e[..|e|] == e;
  }

  /** `prefix` followed by the entries the index vector selects. */
  method Build(prefix: String, all: seq<seq<String>>, indices: array<int>) returns (res: String)
    requires InRange(indices[..], all)
    ensures res == prefix + Flatten(Select(all, indices[..]))
  {
    ghost var picks := Select(all, indices[..]);
    res := prefix;
    for i := 0 to indices.Length
      invariant res == prefix + Flatten(picks[..i])
    {
      assert picks[..i + 1][..i] == picks[..i];
      res := res + all[i][indices[i]];
    }
    assert picks[..indices.Length] == picks;
  }

  /** The carry loop of RunSegmentedBrute: one step along the odometer
      order, or a wrap to all zeros after the last combination. */
  method Increment(indices: array<int>, all: seq<seq<String>>) returns (wrapped: bool)
    requires InRange(indices[..], all)
    modifies indices
    ensures InRange(indices[..], all)
    ensures |all| == 0 ==> !wrapped
    ensures |all| > 0 && !wrapped ==> Rank(indices[..], all) == Rank(old(indices[..]), all) + 1
    ensures wrapped ==> Rank(old(indices[..]), all) + 1 == Count(all)
  {
    var n := indices.Length;
    ghost var o := indices[..];
    var i := n - 1;
    while i >= 0
      invariant -1 <= i < n
      invariant i == -1 ==> n == 0
      invariant forall k :: 0 <= k <= i ==> indices[k] == o[k]
      invariant forall k :: i < k < n ==> indices[k] == 0 && o[k] == |all[k]| - 1
      decreases i
    {
      indices[i] := indices[i] + 1;
      if indices[i] < |all[i]| {
        assert indices[..] == Bumped(o, i);
        RankStep(o, all, i);
        return false;
      }
      indices[i] := 0;
      if i == 0 {
        assert AtLast(o, all);
        RankAtLast(o, all);
        assert indices[..] == Zeros(n);
        return true;
      }
      i := i - 1;
    }
    return false;
  }

  /** Every output is the prefix followed by one string each segment
      matches, in the order of the segments. */
  lemma BruteOutputsSound(segments: seq<RegexSegment>, count: int, prefix: String, i: nat)
    requires forall k :: 0 <= k < |segments| ==> Expandable(segments[k])
    requires |segments| > 0 && i < |BruteOutputs(segments, count, prefix)|
    ensures exists t: seq<String> ::
      && |t| == |segments|
      && (forall k :: 0 <= k < |t| ==> Matches(segments[k], t[k]))
      && BruteOutputs(segments, count, prefix)[i] == prefix + Flatten(t)
  {
    var c := Choices(segments);
    var t := Tuples(c)[i];
    TuplesMembers(c, t);
    forall k | 0 <= k < |t| ensures Matches(segments[k], t[k]) {
      ExpandMatches(segments[k], t[k]);
    }
  }

  /** Without a count every combination of matching pieces is emitted. */
  lemma BruteOutputsComplete(segments: seq<RegexSegment>, prefix: String, t: seq<String>)
    requires forall k :: 0 <= k < |segments| ==> Expandable(segments[k])
    requires |segments| > 0 && |t| == |segments|
    requires forall k :: 0 <= k < |t| ==> Matches(segments[k], t[k])
    ensures prefix + Flatten(t) in BruteOutputs(segments, 0, prefix)
  {
    var c := Choices(segments);
    forall k | 0 <= k < |t| ensures t[k] in c[k] {
      ExpandMatches(segments[k], t[k]);
    }
    TuplesMembers(c, t);
    var i :| 0 <= i < |Tuples(c)| && Tuples(c)[i] == t;
    assert Emitted(c, prefix)[i] == prefix + Flatten(t);
  }

  /** The combinations of one literal and a one-character class: both,
      unless the count ceiling is 1. */
  lemma WalkedLiteralThenClass(count: int)
    ensures Walked([["x"], ["0", "1"]], count, []) == if count == 1 then ["x0"] else ["x0", "x1"]
  {
    EmittedLiteralThenClass();
    var e: seq<String> := ["x0", "x1"];
    assert e[..1] == ["x0"];
  }

  /** The combinations of one literal and a one-character class, in order. */
  lemma EmittedLiteralThenClass()
    ensures Emitted([["x"], ["0", "1"]], []) == ["x0", "x1"]
  {
    var zero: String, one: String, x: String := "0", "1", "x";
    var last: seq<seq<String>> := [[zero, one]];
    var unit: seq<seq<String>> := [[]];
    assert last[1..] == [];
    assert Tuples(last) == Blocks([zero, one], unit);
    assert Prefixed(zero, unit)[0] == [zero];
    assert Prefixed(one, unit)[0] == [one];
    assert Blocks([zero, one][1..][1..], unit) == [];
    var tails := Blocks([zero, one], unit);
    assert tails == [[zero], [one]];
    var c: seq<seq<String>> := [[x], [zero, one]];
    assert c[1..] == last;
    assert Prefixed(x, tails)[0] == [x, zero] && Prefixed(x, tails)[1] == [x, one];
    assert Blocks([x][1..], tails) == [];
    assert Tuples(c) == [[x, zero], [x, one]];
    assert [x, zero][..1] == [x] && [x, one][..1] == [x] && [x][..0] == [];
    assert Flatten([x]) == x;
    assert Flatten([x, zero]) == x + zero == "x0";
    assert Flatten([x, one]) == x + one == "x1";
    var e := Emitted(c, []);
    assert e[0] == "x0" && e[1] == "x1";
  }

  /** The expansions of the literal `x` and the class [01]. */
  lemma ChoicesLiteralThenClass()
    ensures Choices([LiteralSegment("x"), CharsetSegment("01")]) == [["x"], ["0", "1"]]
  {
    var cs: String := "01";
    assert Lengths(cs, 2, 1) == [];
    var unit: seq<String> := [[]];
    assert Repeat(cs, 1)[1..] == [];
    assert Words(cs, 1) == Blocks(cs, unit);
    assert Prefixed('0', unit)[0] == "0";
    assert Prefixed('1', unit)[0] == "1";
    assert Blocks(cs[1..][1..], unit) == [];
    assert Blocks(cs, unit) == ["0", "1"];
    var lit, cls := LiteralSegment("x"), CharsetSegment(cs);
    assert KindOf(lit) == Literal && Expand(lit) == ["x"];
    assert KindOf(cls) == CharClass && Expand(cls) == Lengths(cs, 1, 1) == Words(cs, 1);
    assert Choices([lit, cls])[0] == ["x"] && Choices([lit, cls])[1] == ["0", "1"];
  }

  /** The brute force over a literal `x` and the class [01] emits x0, x1,
      or just x0 when it stops after one output. */
  lemma BruteLiteralThenClass(count: int)
    ensures BruteOutputs([LiteralSegment("x"), CharsetSegment("01")], count, [])
            == if count == 1 then ["x0"] else ["x0", "x1"]
  {
    ChoicesLiteralThenClass();
    WalkedLiteralThenClass(count);
  }
}
