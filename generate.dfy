/** The random pattern generators of generator.go: GenerateRandom of a
    segment, GenerateRandomPatterned of a segment list, and
    GenerateRandomPatternedWithSeeds, which injects a case-randomized seed
    word into the word-like segments. Draws come from a `RandomSource`, so
    each contract holds whatever the draws are. */
module Generate {
  import opened Ascii
  import opened Segments
  import opened Odometer
  import opened Random
  import Expansion

  /** The segments on which GenerateRandom never panics: every charset
      segment that can be reached has Min >= 0. With a negative Min,
      generateWithCharset panics whenever the length it settles on is
      negative, which is always the case when Max <= Min. */
  ghost predicate Generatable(s: RegexSegment)
    decreases s
  {
    match KindOf(s)
    case Alternation => forall k :: 0 <= k < |s.variants| ==> Generatable(s.variants[k])
    case Literal => true
    case CharClass => s.min >= 0
    case Empty => true
  }

  /** The words GenerateRandom can return: one alternative's word, the
      literal, a charset run whose length generateWithCharset allows (exactly
      Min when Max <= Min), or nothing. */
  ghost predicate Produces(s: RegexSegment, w: String)
    decreases s
  {
    match KindOf(s)
    case Alternation => exists k :: 0 <= k < |s.variants| && Produces(s.variants[k], w)
    case Literal => w == s.literal
    case CharClass => LengthIn(|w|, s.min, s.max) && AllFrom(w, s.charset)
    case Empty => w == []
  }

  /** `RegexSegment.GenerateRandom`: a random alternative, the literal, a
      random charset run, or "". None stands for a panic of
      generateWithCharset, which only a segment that is not Generatable can
      cause, and which a charset segment with Max <= Min < 0 always causes. */
  method GenerateRandom(s: RegexSegment, rng: RandomSource) returns (w: Option<String>)
    modifies rng
    ensures w.Some? ==> Produces(s, w.value)
    ensures w.None? ==> !Generatable(s)
    ensures KindOf(s) == CharClass && s.max <= s.min < 0 ==> w.None?
    decreases s
  {
    if |s.variants| > 0 {
      var n := rng.Below(|s.variants|);
      w := GenerateRandom(s.variants[n], rng);
    } else if s.literal != [] {
      w := Some(s.literal);
    } else if s.charset != [] {
      w := GenerateWithCharset(s.min, s.max, s.charset, rng);
    } else {
      w := Some([]);
    }
  }

  /** Segments whose charset bounds are in order, all the way down. */
  ghost predicate Ordered(s: RegexSegment)
    decreases s
  {
    match KindOf(s)
    case Alternation => forall k :: 0 <= k < |s.variants| ==> Ordered(s.variants[k])
    case CharClass => s.min <= s.max
    case _ => true
  }

  /** With bounds in order, the random generator and the segment's meaning
      agree word for word: GenerateRandom can return exactly the words the
      segment matches. */
  lemma {:induction false} ProducesMatches(s: RegexSegment, w: String)
    requires Ordered(s)
    ensures Produces(s, w) <==> Segments.Matches(s, w)
    decreases s
  {
    if KindOf(s) == Alternation {
      forall k | 0 <= k < |s.variants|
        ensures Produces(s.variants[k], w) <==> Segments.Matches(s.variants[k], w)
      {
        ProducesMatches(s.variants[k], w);
      }
    }
  }

  /** Every random word of an ordered, expandable segment is among the words
      the exhaustive expansion lists. */
  lemma GeneratedIsExpanded(s: RegexSegment, w: String)
    requires Ordered(s) && Expansion.Expandable(s) && Produces(s, w)
    ensures w in Expansion.Expand(s)
  {
    ProducesMatches(s, w);
    Expansion.ExpandMatches(s, w);
  }

  /** With Max < Min the two disagree: the random generator still returns
      Min characters while the segment matches nothing. */
  lemma ReversedBoundsProduce(c: AsciiChar)
    ensures Produces(RegexSegment([c], [], [], 2, 1), [c, c])
    ensures !Segments.Matches(RegexSegment([c], [], [], 2, 1), [c, c])
  {
  }

  /** A word for each segment, concatenated in segment order. */
  ghost predicate PatternProduces(segments: seq<RegexSegment>, words: seq<String>, w: String)
  {
    |words| == |segments|
    && (forall k :: 0 <= k < |segments| ==> Produces(segments[k], words[k]))
    && w == Flatten(words)
  }

  lemma FlattenSnoc(xs: seq<String>, x: String)
    ensures Flatten(xs + [x]) == Flatten(xs) + x
  {
    assert (xs + [x])[..|xs|] == xs;
  }

  /** GenerateRandomPatterned: one random word per segment, concatenated;
      None when one of the segments panics. */
  method GenerateRandomPatterned(segments: seq<RegexSegment>, rng: RandomSource)
    returns (res: Option<String>, ghost words: seq<String>)
    modifies rng
    ensures res.Some? ==> PatternProduces(segments, words, res.value)
    ensures res.None? ==> exists k :: 0 <= k < |segments| && !Generatable(segments[k])
  {
    var acc: String := [];
    words := [];
    for i := 0 to |segments|
      invariant |words| == i && acc == Flatten(words)
      invariant forall k :: 0 <= k < i ==> Produces(segments[k], words[k])
    {
      var w := GenerateRandom(segments[i], rng);
      if w.None? {
        return None, words;
      }
      FlattenSnoc(words, w.value);
      acc := acc + w.value;
      words := words + [w.value];
    }
    res := Some(acc);
  }

  /** `strings.ContainsAny`. */
  predicate ContainsAny(s: String, chars: String)
  {
    exists i :: 0 <= i < |s| && s[i] in chars
  }

  /** How much of the remaining seed a word-like segment aims to take, after
      the clamps of the source: Min, or all of it for an open or wide
      segment, or Max for a segment of at most two characters; then no more
      than there is, then no less than Min. */
  function TakeTarget(s: RegexSegment, avail: nat): int
  {
    var t0 := s.min;
    var t1 := if s.max > t0 || s.max < 0 then
                (if s.max > 2 || s.max < 0 then avail else if s.max > t0 then s.max else t0)
              else t0;
    var t2 := if t1 > avail then avail else t1;
    if t2 < s.min then s.min else t2
  }

  /** How much of the remaining seed a word-like segment does take: the
      target when that is positive and available, the whole rest otherwise. */
  function TakeCount(s: RegexSegment, avail: nat): (n: nat)
    requires avail > 0
    ensures 0 < n <= avail
  {
    var t := TakeTarget(s, avail);
    if t > 0 && avail >= t then t else avail
  }

  /** The clamps never leave the target below Min, so the fill-up with
      `remMin` random characters in the source can never happen. */
  lemma TargetAtLeastMin(s: RegexSegment, avail: nat)
    ensures TakeTarget(s, avail) >= s.min
  {
  }

  /** What a segment takes, by the shape of its bounds: all the rest when it
      is open (`Max < 0`) or allows more than two characters and more than
      Min; Min, when it is a fixed bound that fits; at most Max for a range
      of at most two characters; and all the rest whenever the target is not
      positive or does not fit. */
  lemma TakeCountCases(s: RegexSegment, avail: nat)
    requires avail > 0
    ensures s.max < 0 || (s.max > 2 && s.max > s.min) ==> TakeCount(s, avail) == avail
    ensures 0 <= s.max <= s.min ==>
              TakeCount(s, avail) == (if 0 < s.min <= avail then s.min else avail)
    ensures s.min < s.max <= 2 ==>
              var m := if s.max <= avail then s.max else avail;
              TakeCount(s, avail) == (if m > 0 && m >= s.min then m else avail)
  {
  }

  /** A literal segment (Min = Max = 0) that is word-like swallows the whole
      rest of the seed, in place of its own text. */
  lemma LiteralTakesAll(text: String, avail: nat)
    requires text != [] && avail > 0
    ensures IsWordLike(LiteralSegment(text)) && TakeCount(LiteralSegment(text), avail) == avail
  {
  }

  /** Whether a word-like segment may add a separator after its seed chunk:
      only when it is open (`Max < 0`) or its Max exceeds the take target,
      that is when `remMax` is positive. */
  predicate SeparatorAllowed(s: RegexSegment, avail: nat)
  {
    s.max < 0 || s.max > TakeTarget(s, avail)
  }

  /** A separator is allowed exactly for an open segment, or for one whose
      Max exceeds both its Min and the seed text left; so a fixed count such
      as `{2}` never gets one. */
  lemma SeparatorCases(s: RegexSegment, avail: nat)
    ensures SeparatorAllowed(s, avail) <==> s.max < 0 || (s.max > s.min && s.max > avail)
  {
  }

  /** `[ab_]{2}` with the seed text "xyz" takes "xy" and adds nothing. */
  lemma FixedCountNoSeparator(s: RegexSegment, piece: String)
    requires s.min == s.max == 2 && Separated(piece, "xy", s, 3)
    ensures piece == "xy"
  {
    SeparatorCases(s, 3);
  }

  /** A seed chunk, possibly followed by one special character that the
      segment's charset contains, the latter only when the segment allows a
      separator. */
  predicate Separated(piece: String, chunk: String, s: RegexSegment, avail: nat)
  {
    piece == chunk
    || (SeparatorAllowed(s, avail) && |piece| == |chunk| + 1 && piece[..|chunk|] == chunk
        && piece[|chunk|] in s.charset && piece[|chunk|] in SpecChars)
  }

  /** The work of one word-like segment when seed text remains: the leading
      `TakeCount` characters of the seed, then maybe a separator. */
  method InjectSeed(s: RegexSegment, m: String, rng: RandomSource) returns (piece: String, n: nat)
    requires |m| > 0
    modifies rng
    ensures 0 < n <= |m| && n == TakeCount(s, |m|)
    ensures Separated(piece, m[..n], s, |m|)
  {
    var take := s.min;
    if s.max > take || s.max < 0 {
      if s.max > 2 || s.max < 0 {
        take := |m|;
      } else if s.max > take {
        take := s.max;
      }
    }
    if take > |m| {
      take := |m|;
    }
    if take < s.min {
      take := s.min;
    }
    if take > 0 && |m| >= take {
      piece, n := m[..take], take;
    } else {
      piece, n := m, |m|;
    }
    assert m[..n] == piece;
    var remMin := s.min - take;
    if remMin < 0 {
      remMin := 0;
    }
    var remMax := s.max - take;
    if remMax < 0 {
      remMax := 0;
    }
    if remMax > 0 || s.max < 0 {
      if ContainsAny(s.charset, "_#-$!@") {
        var prob := rng.Below(10);
        if prob < 4 {
          var sepIdx := rng.Below(|SpecChars|);
          var sep := SpecChars[sepIdx];
          if sep in s.charset {
            piece := piece + [sep];
          }
        }
      }
      if remMin > 0 {
        assert false;
      }
    }
  }

  /** What one segment contributes: the seed chunk it took (when it is
      word-like and `avail` seed characters remain) with maybe a separator,
      or, taking no seed, a random word of its own. */
  ghost predicate Piece(s: RegexSegment, avail: nat, chunk: String, piece: String)
  {
    if IsWordLike(s) && avail > 0 then
      |chunk| == TakeCount(s, avail) && Separated(piece, chunk, s, avail)
    else
      chunk == [] && Produces(s, piece)
  }

  /** One pass of the segment loop of the seeded generator: `m` is the seed
      text not yet taken, and `n` characters of it are taken now. */
  method SegmentStep(s: RegexSegment, m: String, rng: RandomSource) returns (piece: Option<String>, n: nat)
    modifies rng
    ensures piece.Some? ==> n <= |m| && Piece(s, |m|, m[..n], piece.value)
    ensures piece.None? ==> !(IsWordLike(s) && |m| > 0) && !Generatable(s)
  {
    if IsWordLike(s) && |m| > 0 {
      var p;
      p, n := InjectSeed(s, m, rng);
      piece := Some(p);
    } else {
      piece := GenerateRandom(s, rng);
      n := 0;
    }
  }

  /** A run of the segment loop over `mutated`: before segment k, `avail[k]`
      seed characters remain; segment k takes the chunk `chunks[k]` and emits
      `pieces[k]`; the chunks together are the first `consumed` characters. */
  ghost predicate SeedRun(segments: seq<RegexSegment>, mutated: String, consumed: nat,
                          avail: seq<nat>, chunks: seq<String>, pieces: seq<String>)
  {
    RunUpTo(segments, |segments|, mutated, consumed, avail, chunks, pieces)
  }

  /** SeedRun over the first `n` segments only. */
  ghost predicate RunUpTo(segments: seq<RegexSegment>, n: nat, mutated: String, consumed: nat,
                          avail: seq<nat>, chunks: seq<String>, pieces: seq<String>)
  {
    && n <= |segments| && consumed <= |mutated|
    && |avail| == n + 1 && |chunks| == n == |pieces|
    && avail[0] == |mutated| && avail[n] == |mutated| - consumed
    && (forall k :: 0 <= k < n ==>
          avail[k + 1] == avail[k] - |chunks[k]|
          && Piece(segments[k], avail[k], chunks[k], pieces[k]))
    && Flatten(chunks) == mutated[..consumed]
  }

  /** Segment n, taking the first `k` of the `rest` characters left and
      emitting `piece`, extends a run by one step. */
  lemma RunUpToStep(segments: seq<RegexSegment>, n: nat, mutated: String, consumed: nat,
                    avail: seq<nat>, chunks: seq<String>, pieces: seq<String>,
                    rest: String, k: nat, piece: String)
    requires RunUpTo(segments, n, mutated, consumed, avail, chunks, pieces) && n < |segments|
    requires rest == mutated[consumed..] && k <= |rest|
    requires Piece(segments[n], |rest|, rest[..k], piece)
    ensures RunUpTo(segments, n + 1, mutated, consumed + k,
                    avail + [|rest[k..]|], chunks + [rest[..k]], pieces + [piece])
    ensures rest[k..] == mutated[consumed + k..]
  {
    assert mutated[..consumed + k] == mutated[..consumed] + rest[..k];
    FlattenSnoc(chunks, rest[..k]);
  }

  /** The segment loop of the seeded generator; None when a segment that
      takes no seed panics. */
  method InjectAll(segments: seq<RegexSegment>, mutated: String, rng: RandomSource)
    returns (body: Option<String>, rest: String, ghost consumed: nat,
             ghost avail: seq<nat>, ghost chunks: seq<String>, ghost pieces: seq<String>)
    modifies rng
    ensures body.Some? ==> SeedRun(segments, mutated, consumed, avail, chunks, pieces)
    ensures body.Some? ==> rest == mutated[consumed..] && body.value == Flatten(pieces)
    ensures body.None? ==> exists k :: 0 <= k < |segments| && !Generatable(segments[k])
  {
    rest := mutated;
    var acc: String := [];
    consumed, avail, chunks, pieces := 0, [|mutated|], [], [];
    for i := 0 to |segments|
      invariant RunUpTo(segments, i, mutated, consumed, avail, chunks, pieces)
      invariant rest == mutated[consumed..] && acc == Flatten(pieces)
    {
      var out, n := SegmentStep(segments[i], rest, rng);
      if out.None? {
        assert !Generatable(segments[i]);
        return None, rest, consumed, avail, chunks, pieces;
      }
      var piece := out.value;
      RunUpToStep(segments, i, mutated, consumed, avail, chunks, pieces, rest, n, piece);
      FlattenSnoc(pieces, piece);
      avail, chunks, pieces := avail + [|rest[n..]|], chunks + [rest[..n]], pieces + [piece];
      consumed := consumed + n;
      rest := rest[n..];
      acc := acc + piece;
    }
    body := Some(acc);
  }

  /** GenerateRandomPatternedWithSeeds. With no seeds it is
      GenerateRandomPatterned. Otherwise a seed is drawn and case-randomized
      into `mutated`; the segments take consecutive chunks of it in order,
      and whatever is left (all but the `consumed` characters taken) is put
      in front of the result. None stands for a panic of a segment that
      takes no seed. */
  method GenerateRandomPatternedWithSeeds(segments: seq<RegexSegment>, seeds: seq<String>, rng: RandomSource)
    returns (res: Option<String>, seedIndex: nat, mutated: String, ghost consumed: nat,
             ghost avail: seq<nat>, ghost chunks: seq<String>, ghost pieces: seq<String>)
    modifies rng
    ensures seeds == [] && res.Some? ==> PatternProduces(segments, pieces, res.value)
    ensures seeds != [] ==>
              && seedIndex < |seeds|
              && |mutated| == |seeds[seedIndex]| && Lower(mutated) == Lower(seeds[seedIndex])
    ensures seeds != [] && res.Some? ==>
              && SeedRun(segments, mutated, consumed, avail, chunks, pieces)
              && res.value == mutated[consumed..] + Flatten(pieces)
    ensures res.None? ==> exists k :: 0 <= k < |segments| && !Generatable(segments[k])
  {
    if |seeds| == 0 {
      res, pieces := GenerateRandomPatterned(segments, rng);
      seedIndex, mutated := 0, [];
      consumed, avail, chunks := 0, [], [];
      return;
    }
    seedIndex := rng.Below(|seeds|);
    mutated := RandomizeCase(seeds[seedIndex], rng);
    var body, rest;
    body, rest, consumed, avail, chunks, pieces := InjectAll(segments, mutated, rng);
    if body.None? {
      return None, seedIndex, mutated, consumed, avail, chunks, pieces;
    }
    var r := body.value;
    if |rest| > 0 {
      r := rest + r;
    }
    res := Some(r);
  }

  lemma {:induction false} FlattenLonger(xs: seq<String>, ys: seq<String>)
    requires |xs| == |ys| && forall k :: 0 <= k < |xs| ==> |xs[k]| <= |ys[k]|
    ensures |Flatten(xs)| <= |Flatten(ys)|
    decreases |xs|
  {
    if xs != [] {
      FlattenLonger(xs[..|xs| - 1], ys[..|ys| - 1]);
    }
  }

  /** No seed character is lost: the seeded result is at least as long as
      the case-randomized seed. */
  lemma SeedFullyEmitted(segments: seq<RegexSegment>, mutated: String, consumed: nat,
                         avail: seq<nat>, chunks: seq<String>, pieces: seq<String>)
    requires SeedRun(segments, mutated, consumed, avail, chunks, pieces)
    ensures |mutated[consumed..] + Flatten(pieces)| >= |mutated|
  {
    forall k | 0 <= k < |chunks| ensures |chunks[k]| <= |pieces[k]| {
      assert Piece(segments[k], avail[k], chunks[k], pieces[k]);
    }
    FlattenLonger(chunks, pieces);
  }
}
