/** parseQuantifier of generator.go: reads an optional `+`, `*` or `{…}`
    at index `i` and sets the bounds of the segment just parsed. It is the
    only place where bounds are set; it never checks Min <= Max, and a
    number that does not parse counts as 0. */
module Quantifier {
  import opened Ascii
  import opened GoStrings
  import opened Segments

  /** The bound `{m,}` leaves open, and the one `+` and `*` use. */
  const OpenMax := 12
  const StarMax := 8

  /** Whether a quantifier starts at `i`: `+`, `*`, or `{` with a `}`
      somewhere after it. */
  predicate HasQuantifier(regex: String, i: nat)
  {
    i < |regex| && (regex[i] == '+' || regex[i] == '*' || (regex[i] == '{' && '}' in regex[i..]))
  }

  /** The bounds a brace body gives: one part sets both bounds; two parts
      set the lower (0 when empty) and the upper (12 when empty); with more
      parts only the first counts. */
  function BraceBounds(body: String): (int, int)
  {
    var parts := Split(body, ',');
    if |parts| == 2 then
      (if parts[0] == [] then 0 else Atoi(TrimSpace(parts[0])),
       if parts[1] != [] then Atoi(TrimSpace(parts[1])) else OpenMax)
    else
      var n := Atoi(TrimSpace(parts[0]));
      (n, n)
  }

  /** The index after the quantifier and the segment with its new bounds. */
  function Quantify(regex: String, i: nat, s: RegexSegment): (r: (nat, RegexSegment))
    ensures i <= r.0 && (i <= |regex| ==> r.0 <= |regex|)
    ensures r.1 == s.(min := r.1.min, max := r.1.max)
    ensures r.0 == i <==> !HasQuantifier(regex, i)
    ensures r.0 == i ==> r.1 == s
  {
    if i >= |regex| then (i, s)
    else if regex[i] == '+' then (i + 1, s.(min := 1, max := StarMax))
    else if regex[i] == '*' then (i + 1, s.(min := 0, max := StarMax))
    else if regex[i] == '{' then
      var j := IndexFrom(regex, '}', i);
      if j < |regex| then
        var b := BraceBounds(regex[i + 1..j]);
        (j + 1, s.(min := b.0, max := b.1))
      else
        assert '}' !in regex[i..] by {
          forall k | 0 <= k < |regex[i..]| ensures regex[i..][k] != '}' {
            assert regex[i..][k] == regex[i + k];
          }
        }
        (i, s)
    else (i, s)
  }

  /** A brace body `{m,n}` as the source writes it. */
  lemma {:induction false} SplitTwo(a: String, b: String, sep: AsciiChar)
    requires sep !in a && sep !in b
    ensures Split(a + [sep] + b, sep) == [a, b]
  {
    SplitCons(a, b, sep);
  }

  lemma DecimalNoSpace(n: nat)
    ensures TrimSpace(Decimal(n)) == Decimal(n)
    ensures ',' !in Decimal(n) && '}' !in Decimal(n)
  {
    var d := Decimal(n);
    forall i | 0 <= i < |d| ensures !IsSpace(d[i]) && d[i] != ',' && d[i] != '}' {
      assert IsDigit(d[i]);
    }
    TrimSpaceNoSpace(d);
  }

  // The table of brace forms.

  lemma BraceExact(n: nat)
    ensures BraceBounds(Decimal(n)) == (n, n)
  {
    DecimalNoSpace(n);
    AtoiDecimal(n);
  }

  lemma BraceRange(m: nat, n: nat)
    ensures BraceBounds(Decimal(m) + [','] + Decimal(n)) == (m, n)
  {
    DecimalNoSpace(m);
    DecimalNoSpace(n);
    AtoiDecimal(m);
    AtoiDecimal(n);
    SplitTwo(Decimal(m), Decimal(n), ',');
  }

  lemma BraceAtLeast(m: nat)
    ensures BraceBounds(Decimal(m) + [',']) == (m, OpenMax)
  {
    DecimalNoSpace(m);
    AtoiDecimal(m);
    SplitTwo(Decimal(m), [], ',');
    assert Decimal(m) + [','] + [] == Decimal(m) + [','];
  }

  lemma BraceAtMost(n: nat)
    ensures BraceBounds([','] + Decimal(n)) == (0, n)
  {
    DecimalNoSpace(n);
    AtoiDecimal(n);
    SplitTwo([], Decimal(n), ',');
    assert [] + [','] + Decimal(n) == [','] + Decimal(n);
  }

  lemma BraceEmpty()
    ensures BraceBounds([]) == (0, 0)
  {
    assert Split([], ',') == [[]];
    assert TrimSpace([]) == [];
  }

  /** `+` and `*` give (1, 8) and (0, 8) and consume one character. */
  lemma QuantifyStarPlus(regex: String, i: nat, s: RegexSegment)
    requires i < |regex|
    ensures regex[i] == '+' ==> Quantify(regex, i, s) == (i + 1, s.(min := 1, max := 8))
    ensures regex[i] == '*' ==> Quantify(regex, i, s) == (i + 1, s.(min := 0, max := 8))
  {
  }

  /** A brace quantifier ending at the first `}` consumes everything up to
      and including it and sets the bounds its body gives. */
  lemma QuantifyBraces(regex: String, i: nat, j: nat, s: RegexSegment)
    requires i < j < |regex| && regex[i] == '{' && regex[j] == '}'
    requires '}' !in regex[i + 1..j]
    ensures Quantify(regex, i, s)
            == (j + 1, s.(min := BraceBounds(regex[i + 1..j]).0, max := BraceBounds(regex[i + 1..j]).1))
  {
    FirstClose(regex, i, j);
    var b := BraceBounds(regex[i + 1..j]);
    assert Quantify(regex, i, s) == (j + 1, s.(min := b.0, max := b.1));
  }

  /** `{n}` right at `i` consumes itself and sets both bounds to n. */
  lemma QuantifyExact(regex: String, i: nat, k: nat, n: nat, s: RegexSegment)
    requires i < k < |regex| && regex[i] == '{' && regex[k] == '}'
    requires regex[i + 1..k] == Decimal(n)
    ensures Quantify(regex, i, s) == (k + 1, s.(min := n, max := n))
  {
    DecimalNoSpace(n);
    QuantifyBraces(regex, i, k, s);
    BraceExact(n);
  }

  /** A brace quantifier that runs to the end of the text. */
  lemma BracesToEnd(regex: String, i: nat, d: String, n: int, s: RegexSegment)
    requires i + 1 < |regex| && regex[i] == '{' && regex[|regex| - 1] == '}'
    requires regex[i + 1..|regex| - 1] == d && '}' !in d && BraceBounds(d) == (n, n)
    ensures Quantify(regex, i, s) == (|regex|, s.(min := n, max := n))
  {
    var j := |regex| - 1;
    FirstClose(regex, i, j);
    assert Quantify(regex, i, s) == (j + 1, s.(min := BraceBounds(d).0, max := BraceBounds(d).1));
  }

  lemma FirstClose(regex: String, i: nat, j: nat)
    requires i < j < |regex| && regex[i] == '{' && regex[j] == '}'
    requires '}' !in regex[i + 1..j]
    ensures IndexFrom(regex, '}', i) == j
  {
    assert forall k :: i < k < j ==> regex[k] == regex[i + 1..j][k - i - 1];
  }

  /** The imperative original, writing through a pointer to the segment:
      here the segment goes in and comes back out. */
  method ParseQuantifier(regex: String, i: nat, s: RegexSegment) returns (next: nat, seg: RegexSegment)
    ensures (next, seg) == Quantify(regex, i, s)
  {
    seg := s;
    if i >= |regex| {
      return i, seg;
    }
    if regex[i] == '+' {
      seg := seg.(min := 1, max := StarMax);
      return i + 1, seg;
    }
    if regex[i] == '*' {
      seg := seg.(min := 0, max := StarMax);
      return i + 1, seg;
    }
    if regex[i] == '{' {
      var j := i;
      while j < |regex| && regex[j] != '}'
        invariant i <= j <= |regex|
        invariant forall k :: i <= k < j ==> regex[k] != '}'
      {
        j := j + 1;
      }
      assert j == IndexFrom(regex, '}', i);
      if j < |regex| {
        var parts := Split(regex[i + 1..j], ',');
        if |parts| == 2 {
          if parts[0] == [] {
            seg := seg.(min := 0);
          } else {
            seg := seg.(min := Atoi(TrimSpace(parts[0])));
          }
          if parts[1] != [] {
            seg := seg.(max := Atoi(TrimSpace(parts[1])));
          } else {
            seg := seg.(max := OpenMax);
          }
        } else {
          seg := seg.(min := Atoi(TrimSpace(parts[0])));
          seg := seg.(max := seg.min);
        }
        return j + 1, seg;
      }
    }
    return i, seg;
  }
}
