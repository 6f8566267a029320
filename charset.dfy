/** ParseCharsetFromRegex of generator.go: the flat character set of a
    bracket expression such as `[a-zA-Z0-9_]`.

    The text between the first '[' and the last ']' (or the whole pattern
    when either is missing) is read left to right; `x-y` adds every
    character from x to y, nothing when x > y; any other character adds
    itself. Duplicates are dropped, keeping first occurrences. An empty
    pattern, or one whose brackets leave no text between them, gives
    CommonChars. */
module Charset {
  import opened Ascii
  import opened GoStrings

  /** The characters from `lo` to `hi` in code order; empty when lo > hi. */
  function Span(lo: AsciiChar, hi: AsciiChar): (r: String)
    ensures |r| == if lo <= hi then hi as int - lo as int + 1 else 0
  {
    if lo > hi then []
    else seq(hi as int - lo as int + 1, k requires 0 <= k < hi as int - lo as int + 1 => (lo as int + k) as char)
  }

  /** The k-th character of a range is k places after its start. */
  lemma SpanAt(lo: AsciiChar, hi: AsciiChar, k: nat)
    requires k < |Span(lo, hi)|
    ensures Span(lo, hi)[k] as int == lo as int + k
  {
  }

  /** A range has no repeats. */
  lemma SpanDistinct(lo: AsciiChar, hi: AsciiChar)
    ensures Distinct(Span(lo, hi))
  {
    forall i, j | 0 <= i < j < |Span(lo, hi)| ensures Span(lo, hi)[i] != Span(lo, hi)[j] {
      SpanAt(lo, hi, i);
      SpanAt(lo, hi, j);
    }
  }

  /** The bracket body with every `x-y` range written out. A range needs a
      character after the '-', so a trailing '-' is literal. */
  function ExpandRanges(c: String): String
    decreases |c|
  {
    if c == [] then []
    else if 2 < |c| && c[1] == '-' then Span(c[0], c[2]) + ExpandRanges(c[3..])
    else [c[0]] + ExpandRanges(c[1..])
  }

  /** `s` without repeats, each character kept where it first occurs. */
  function Dedup(s: String): String
    decreases |s|
  {
    if s == [] then []
    else if s[|s| - 1] in s[..|s| - 1] then Dedup(s[..|s| - 1])
    else Dedup(s[..|s| - 1]) + [s[|s| - 1]]
  }

  /** Where the bracket body starts: just after the first '[', or 0. */
  function ContentStart(regex: String): (k: nat)
    ensures k <= |regex|
  {
    var i := IndexFrom(regex, '[', 0);
    if i < |regex| then i + 1 else 0
  }

  /** Where the bracket body ends: at the last ']', or at the end. */
  function ContentEnd(regex: String): (k: nat)
    ensures k <= |regex|
  {
    var i := LastIndexOf(regex, ']');
    if i >= 0 then i else |regex|
  }

  /** The charset a pattern stands for. */
  function CharsetOf(regex: String): String
  {
    if regex == [] then CommonChars
    else
      var start := ContentStart(regex);
      var end := ContentEnd(regex);
      if start >= end then CommonChars else Dedup(ExpandRanges(regex[start..end]))
  }

  /** The charset of a bracket class `[body]`. */
  function BracketCharset(body: String): String
  {
    if body == [] then CommonChars else Dedup(ExpandRanges(body))
  }

  /** A text that opens with '[' and closes with ']' stands for the charset of
      everything in between, whatever brackets occur inside. */
  lemma CharsetOfBracket(c: String)
    requires |c| >= 2 && c[0] == '[' && c[|c| - 1] == ']'
    ensures CharsetOf(c) == BracketCharset(c[1..|c| - 1])
  {
    assert ContentStart(c) == 1;
    assert ContentEnd(c) == |c| - 1;
  }

  /** Deduplication keeps exactly the characters of its input. */
  lemma {:induction false} DedupMembers(s: String, c: AsciiChar)
    ensures c in Dedup(s) <==> c in s
    decreases |s|
  {
    if s != [] {
      var init := s[..|s| - 1];
      assert s == init + [s[|s| - 1]];
      DedupMembers(init, c);
      DedupMembers(init, s[|s| - 1]);
    }
  }

  /** Deduplication leaves no repeats. */
  lemma {:induction false} DedupDistinct(s: String)
    ensures Distinct(Dedup(s))
    decreases |s|
  {
    if s != [] {
      var init := s[..|s| - 1];
      DedupDistinct(init);
      DedupMembers(init, s[|s| - 1]);
    }
  }

  /** A string without repeats is left as it is. */
  lemma {:induction false} DedupIdentity(s: String)
    requires Distinct(s)
    ensures Dedup(s) == s
    decreases |s|
  {
    if s != [] {
      var init := s[..|s| - 1];
      DedupIdentity(init);
      assert s == init + [s[|s| - 1]];
    }
  }

  /** The kept characters appear in the order of their first occurrences. */
  lemma {:induction false} DedupOrder(s: String, i: nat, j: nat)
    requires i < j < |Dedup(s)|
    ensures Dedup(s)[i] in s && Dedup(s)[j] in s
    ensures IndexFrom(s, Dedup(s)[i], 0) < IndexFrom(s, Dedup(s)[j], 0)
    decreases |s|
  {
    var d := Dedup(s);
    DedupMembers(s, d[i]);
    DedupMembers(s, d[j]);
    var init := s[..|s| - 1];
    var last := s[|s| - 1];
    var di := Dedup(init);
    DedupMembers(init, d[i]);
    if j < |di| {
      assert d[i] == di[i] && d[j] == di[j];
      DedupOrder(init, i, j);
      FirstIndexExtend(init, last, d[i]);
      FirstIndexExtend(init, last, d[j]);
    } else {
      assert last !in init && d[j] == last && d[i] == di[i];
      DedupMembers(init, d[i]);
      FirstIndexExtend(init, last, d[i]);
      assert IndexFrom(s, last, 0) == |s| - 1;
    }
  }

  /** Appending a character does not move the first occurrence of one that
      was already there. */
  lemma FirstIndexExtend(s: String, x: AsciiChar, c: AsciiChar)
    requires c in s
    ensures IndexFrom(s + [x], c, 0) == IndexFrom(s, c, 0) < |s|
  {
    var j :| 0 <= j < |s| && s[j] == c;
    assert forall i :: 0 <= i < |s| ==> (s + [x])[i] == s[i];
    var k := IndexFrom(s, c, 0);
    assert (s + [x])[k] == c;
  }

  /** Two repeat-free strings with no character in common concatenate to a
      repeat-free string. */
  lemma DistinctConcat(a: String, b: String)
    requires Distinct(a) && Distinct(b)
    requires forall i :: 0 <= i < |a| ==> a[i] !in b
    ensures Distinct(a + b)
  {
    forall i, j | 0 <= i < j < |a + b| ensures (a + b)[i] != (a + b)[j] {
      if i < |a| && j >= |a| {
        assert (a + b)[j] == b[j - |a|];
      }
    }
  }

  /** `a-z`, `A-Z` and `0-9` name exactly the source's three fixed sets. */
  lemma SpanLower()
    ensures Span('a', 'z') == LowerChars
  {
  }

  lemma SpanUpper()
    ensures Span('A', 'Z') == UpperChars
  {
  }

  lemma SpanDigits()
    ensures Span('0', '9') == DigitChars
  {
  }

  /** The three ranges of the default set and its special characters have
      no character in common. */
  lemma SpansDistinct()
    ensures Distinct(Span('a', 'z') + Span('A', 'Z') + Span('0', '9') + SpecChars)
  {
    var l, u, d := Span('a', 'z'), Span('A', 'Z'), Span('0', '9');
    var sp := SpecChars;
    SpanDistinct('a', 'z');
    SpanDistinct('A', 'Z');
    SpanDistinct('0', '9');
    forall i | 0 <= i < |l| ensures l[i] !in u {
      SpanMembers('a', 'z', l[i]);
      SpanMembers('A', 'Z', l[i]);
    }
    DistinctConcat(l, u);
    forall i | 0 <= i < |l + u| ensures (l + u)[i] !in d {
      var c := (l + u)[i];
      SpanMembers('a', 'z', c);
      SpanMembers('A', 'Z', c);
      SpanMembers('0', '9', c);
      assert c in l || c in u;
    }
    DistinctConcat(l + u, d);
    assert Distinct(sp);
    forall i | 0 <= i < |l + u + d| ensures (l + u + d)[i] !in sp {
      var c := (l + u + d)[i];
      SpanMembers('a', 'z', c);
      SpanMembers('A', 'Z', c);
      SpanMembers('0', '9', c);
      assert c in l || c in u || c in d;
    }
    DistinctConcat(l + u + d, sp);
  }

  lemma CommonCharsDistinct()
    ensures Distinct(CommonChars)
  {
    SpansDistinct();
    SpanLower();
    SpanUpper();
    SpanDigits();
  }

  /** The charset of any pattern has no repeats. */
  lemma CharsetDistinct(regex: String)
    ensures Distinct(CharsetOf(regex))
  {
    CommonCharsDistinct();
    if regex != [] && ContentStart(regex) < ContentEnd(regex) {
      DedupDistinct(ExpandRanges(regex[ContentStart(regex)..ContentEnd(regex)]));
    }
  }

  /** When the pattern has a bracket body, its charset holds exactly the
      characters the body names. */
  lemma CharsetMembers(regex: String, c: AsciiChar)
    requires regex != [] && ContentStart(regex) < ContentEnd(regex)
    ensures c in CharsetOf(regex) <==>
              c in ExpandRanges(regex[ContentStart(regex)..ContentEnd(regex)])
  {
    DedupMembers(ExpandRanges(regex[ContentStart(regex)..ContentEnd(regex)]), c);
  }

  /** A range names exactly the characters between its ends. */
  lemma SpanMembers(lo: AsciiChar, hi: AsciiChar, c: AsciiChar)
    ensures c in Span(lo, hi) <==> lo <= c <= hi
  {
    if lo <= c <= hi {
      SpanAt(lo, hi, c as int - lo as int);
    }
    if c in Span(lo, hi) {
      var k :| 0 <= k < |Span(lo, hi)| && Span(lo, hi)[k] == c;
      SpanAt(lo, hi, k);
    }
  }

  // The cases of the source's table test for ParseCharsetFromRegex.

  lemma CharsetExampleRange()
    ensures CharsetOf("[a-c]") == "abc"
  {
    var r: String := "[a-c]";
    assert ContentStart(r) == 1 && ContentEnd(r) == 4;
    assert r[1..4] == "a-c";
    assert Span('b', 'c') == "bc";
    assert ExpandRanges("a-c") == "abc";
    DedupIdentity("abc");
  }

  lemma CharsetExampleTwoRanges()
    ensures CharsetOf("[A-B0-1]") == "AB01"
  {
    var r: String := "[A-B0-1]";
    assert ContentStart(r) == 1 && ContentEnd(r) == 7;
    assert r[1..7] == "A-B0-1";
    assert Span('A', 'B') == "AB" && Span('0', '1') == "01";
    assert ExpandRanges("0-1") == "01";
    assert ExpandRanges("A-B0-1") == "AB01";
    DedupIdentity("AB01");
  }

  lemma CharsetExampleLiterals()
    ensures CharsetOf("[#_]") == "#_"
  {
    var r: String := "[#_]";
    assert ContentStart(r) == 1 && ContentEnd(r) == 3;
    assert r[1..3] == "#_";
    assert ExpandRanges("#_") == "#_";
    DedupIdentity("#_");
  }

  /** The test's full set: three ranges, then five literal characters of
      which the trailing '-' cannot start a range. */
  lemma CharsetExampleFull()
    ensures CharsetOf("[a-zA-Z0-9!@#_-]") == LowerChars + UpperChars + DigitChars + "!@#_-"
  {
    FullBody();
    FullBodyExpands("a-zA-Z0-9!@#_-");
    var spans := Span('a', 'z') + Span('A', 'Z') + Span('0', '9');
    var e := spans + "!@#_-";
    SpansDistinct();
    assert e == (spans + SpecChars)[..|e|];
    DistinctPrefix(spans + SpecChars, |e|);
    DedupIdentity(e);
    SpanLower();
    SpanUpper();
    SpanDigits();
  }

  /** A body that starts with `x-y` expands to that range, then the rest. */
  lemma ExpandRangeHead(c: String)
    requires 2 < |c| && c[1] == '-'
    ensures ExpandRanges(c) == Span(c[0], c[2]) + ExpandRanges(c[3..])
  {
  }

  /** A body that starts with three ranges expands to their three spans,
      then the rest. */
  lemma ExpandThreeRanges(b: String, rest: String)
    requires |b| == 9 + |rest| && b[1] == '-' && b[4] == '-' && b[7] == '-' && b[9..] == rest
    ensures ExpandRanges(b) == Span(b[0], b[2]) + Span(b[3], b[5]) + Span(b[6], b[8]) + ExpandRanges(rest)
  {
    var b3, b6 := b[3..], b[6..];
    var s1, s2, s3, e := Span(b[0], b[2]), Span(b[3], b[5]), Span(b[6], b[8]), ExpandRanges(rest);
    assert ExpandRanges(b) == s1 + ExpandRanges(b3) by {
      ExpandRangeHead(b);
    }
    assert ExpandRanges(b3) == s2 + ExpandRanges(b6) by {
      assert b3[0] == b[3] && b3[1] == '-' && b3[2] == b[5] && b3[3..] == b6;
      ExpandRangeHead(b3);
    }
    assert ExpandRanges(b6) == s3 + e by {
      assert b6[0] == b[6] && b6[1] == '-' && b6[2] == b[8] && b6[3..] == rest;
      ExpandRangeHead(b6);
    }
    assert s1 + (s2 + (s3 + e)) == s1 + s2 + s3 + e;
  }

  lemma FullBodyExpands(b: String)
    requires b == "a-zA-Z0-9!@#_-"
    ensures ExpandRanges(b) == Span('a', 'z') + Span('A', 'Z') + Span('0', '9') + "!@#_-"
  {
    var ranges: String := "a-zA-Z0-9";
    var rest: String := "!@#_-";
    assert b == ranges + rest;
    assert ranges[1] == '-' && ranges[4] == '-' && ranges[7] == '-';
    ExpandThreeRanges(b, rest);
    forall i | 1 <= i < |rest| - 1 ensures rest[i] != '-' {
      assert i == 1 || i == 2 || i == 3;
    }
    ExpandNoRanges(rest);
  }

  /** A body with no '-' between two characters is taken literally. */
  lemma {:induction false} ExpandNoRanges(c: String)
    requires forall i :: 1 <= i < |c| - 1 ==> c[i] != '-'
    ensures ExpandRanges(c) == c
    decreases |c|
  {
    if c != [] {
      var t := c[1..];
      assert forall i :: 1 <= i < |t| - 1 ==> t[i] == c[i + 1];
      ExpandNoRanges(t);
    }
  }

  lemma FullBody()
    ensures var r: String := "[a-zA-Z0-9!@#_-]";
      ContentStart(r) == 1 && ContentEnd(r) == 15 && r[1..15] == "a-zA-Z0-9!@#_-"
  {
    var r: String := "[a-zA-Z0-9!@#_-]";
    var body: String := "a-zA-Z0-9!@#_-";
    assert r == ['['] + body + [']'];
    assert r[1..15] == body;
    assert IndexFrom(r, '[', 0) == 0;
    assert LastIndexOf(r, ']') == 15;
  }

  lemma DistinctPrefix(s: String, n: nat)
    requires Distinct(s) && n <= |s|
    ensures Distinct(s[..n])
  {
  }

  /** The imperative original: a forward scan for '[', a backward scan for
      ']', a loop writing out ranges, and a dedup pass with a seen-set. */
  method ParseCharsetFromRegex(regex: String) returns (r: String)
    ensures r == CharsetOf(regex)
  {
    if regex == [] {
      return CommonChars;
    }
    var start := 0;
    var i := 0;
    while i < |regex|
      invariant 0 <= i <= |regex|
      invariant forall j :: 0 <= j < i ==> regex[j] != '['
    {
      if regex[i] == '[' {
        start := i + 1;
        break;
      }
      i := i + 1;
    }
    var end := |regex|;
    i := |regex| - 1;
    while i >= 0
      invariant -1 <= i < |regex|
      invariant forall j :: i < j < |regex| ==> regex[j] != ']'
    {
      if regex[i] == ']' {
        end := i;
        break;
      }
      i := i - 1;
    }
    assert start == ContentStart(regex) && end == ContentEnd(regex);
    if start >= end {
      return CommonChars;
    }
    var res := WriteRanges(regex[start..end]);
    r := DropRepeats(res);
  }

  /** The range-expansion loop of ParseCharsetFromRegex. */
  method WriteRanges(content: String) returns (res: String)
    ensures res == ExpandRanges(content)
  {
    res := [];
    var i := 0;
    while i < |content|
      invariant 0 <= i <= |content|
      invariant res + ExpandRanges(content[i..]) == ExpandRanges(content)
    {
      if i + 2 < |content| && content[i + 1] == '-' {
        var lo, hi := content[i], content[i + 2];
        var ch := WriteSpan(lo, hi);
        assert content[i..][3..] == content[i + 3..];
        assert ExpandRanges(content[i..]) == ch + ExpandRanges(content[i + 3..]);
        res := res + ch;
        i := i + 3;
      } else {
        assert content[i..][1..] == content[i + 1..];
        assert ExpandRanges(content[i..]) == [content[i]] + ExpandRanges(content[i + 1..]);
        res := res + [content[i]];
        i := i + 1;
      }
    }
  }

  /** The inner `for c := lo; c <= hi; c++` loop. */
  method WriteSpan(lo: AsciiChar, hi: AsciiChar) returns (res: String)
    ensures res == Span(lo, hi)
  {
    res := [];
    var c := lo as int;
    while c <= hi as int
      invariant lo as int <= c <= if lo <= hi then hi as int + 1 else lo as int
      invariant res == Span(lo, hi)[..c - lo as int]
    {
      SpanAt(lo, hi, c - lo as int);
      assert Span(lo, hi)[..c - lo as int + 1] == Span(lo, hi)[..c - lo as int] + [c as char];
      res := res + [c as char];
      c := c + 1;
    }
    assert Span(lo, hi)[..c - lo as int] == Span(lo, hi);
  }

  /** The dedup pass of ParseCharsetFromRegex; the Go map of seen runes is
      a set. */
  method DropRepeats(s: String) returns (r: String)
    ensures r == Dedup(s)
  {
    var seen: set<AsciiChar> := {};
    r := [];
    for k := 0 to |s|
      invariant r == Dedup(s[..k])
      invariant forall x :: x in seen <==> x in s[..k]
    {
      assert s[..k + 1][..k] == s[..k];
      if s[k] !in seen {
        r := r + [s[k]];
        seen := seen + {s[k]};
      }
    }
    assert s[..|s|] == s;
  }
}
