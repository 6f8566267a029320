/** The pattern compiler of generator.go: ParseSegmentedRegex, parseGroup,
    findClosingParen and ParseLengthsFromRegex.

    `Compile`, `Scan`, `Group` and `Alternatives` are the functional reading
    of the recursive descent (ParseSegmentedRegex and parseGroup call each
    other); the method `ParseSegmentedRegex` is the index-scanning loop of
    the source proved to compute `Compile`. */
module Parser {
  import opened Ascii
  import opened GoStrings
  import opened Segments
  import opened Charset
  import opened Suffix
  import opened Quantifier
  import opened Odometer

  /** Opening minus closing parentheses in s[lo..hi]. */
  function Depth(s: String, lo: nat, hi: nat): int
    requires lo <= hi <= |s|
    decreases hi
  {
    if hi == lo then 0
    else Depth(s, lo, hi - 1) + (if s[hi - 1] == '(' then 1 else if s[hi - 1] == ')' then -1 else 0)
  }

  /** `k` holds a ')' that closes every parenthesis opened since `start`. */
  predicate ClosesAt(s: String, start: nat, k: nat)
    requires start <= k < |s|
  {
    s[k] == ')' && Depth(s, start, k + 1) == 0
  }

  /** The scan of findClosingParen from index `i` on, with the running depth. */
  function CloseFrom(s: String, i: nat, depth: int): (j: int)
    requires i <= |s|
    ensures j == -1 || (i <= j < |s| && s[j] == ')')
    decreases |s| - i
  {
    if i == |s| then -1
    else if s[i] == '(' then CloseFrom(s, i + 1, depth + 1)
    else if s[i] == ')' then
      if depth - 1 == 0 then i else CloseFrom(s, i + 1, depth - 1)
    else CloseFrom(s, i + 1, depth)
  }

  /** findClosingParen: the index of the ')' that closes the parenthesis at
      `start`, or -1. */
  function FindClosingParen(s: String, start: nat): (j: int)
    requires start <= |s|
    ensures j == -1 || (start <= j < |s| && s[j] == ')')
  {
    CloseFrom(s, start, 0)
  }

  lemma {:induction false} CloseFromBalanced(s: String, start: nat, i: nat, depth: int)
    requires start <= i <= |s| && depth == Depth(s, start, i)
    ensures var j := CloseFrom(s, i, depth);
      && (j == -1 || ClosesAt(s, start, j))
      && forall k :: i <= k < |s| && (j == -1 || k < j) ==> !ClosesAt(s, start, k)
    decreases |s| - i
  {
    if i < |s| {
      var d := if s[i] == '(' then depth + 1 else if s[i] == ')' then depth - 1 else depth;
      assert Depth(s, start, i + 1) == d;
      if !(s[i] == ')' && d == 0) {
        CloseFromBalanced(s, start, i + 1, d);
      }
    }
  }

  /** The result of findClosingParen is the first ')' at which the
      parentheses counted from `start` on are balanced, and -1 means there
      is none. */
  lemma FindClosingParenBalanced(s: String, start: nat)
    requires start <= |s|
    ensures var j := FindClosingParen(s, start);
      && (j == -1 || ClosesAt(s, start, j))
      && forall k :: start <= k < |s| && (j == -1 || k < j) ==> !ClosesAt(s, start, k)
  {
    CloseFromBalanced(s, start, start, 0);
  }

  /** The outer parentheses are dropped whenever the pattern starts with '('
      and ends with ')', even when they do not belong together, as in
      `(a)(b)`. */
  function Unwrap(r: String): (u: String)
    ensures |u| <= |r|
  {
    if |r| >= 2 && r[0] == '(' && r[|r| - 1] == ')' then r[1..|r| - 1] else r
  }

  /** ParseSegmentedRegex. */
  function Compile(regex: String): seq<RegexSegment>
    decreases |regex|, 2, 0
  {
    var r := Unwrap(CleanRegex(regex));
    Scan(r, 0)
  }

  /** The segments of r[i..], one step of the scan at a time. */
  function Scan(r: String, i: nat): seq<RegexSegment>
    requires i <= |r|
    decreases |r|, 1, |r| - i
  {
    if i == |r| then []
    else
      var st := Step(r, i);
      st.1 + Scan(r, st.0)
  }

  /** One turn of the loop of ParseSegmentedRegex at index `i`: a bracket
      class with its quantifier, a group with its quantifier, or a skipped
      character. An unclosed '[' or '(' is skipped as well. The result is
      the index to continue at and the segment found, if any. */
  function Step(r: String, i: nat): (st: (nat, seq<RegexSegment>))
    requires i < |r|
    ensures i < st.0 <= |r| && |st.1| <= 1
    decreases |r|, 0, 1
  {
    if r[i] == '[' then ClassStep(r, i)
    else if r[i] == '(' then GroupStep(r, i)
    else (i + 1, [])
  }

  /** A '[' at `i`: the class up to the next ']' with its quantifier, or
      the '[' skipped when no ']' follows. */
  function ClassStep(r: String, i: nat): (st: (nat, seq<RegexSegment>))
    requires i < |r| && r[i] == '['
    ensures i < st.0 <= |r| && |st.1| <= 1
  {
    var j := IndexFrom(r, ']', i);
    if j < |r| then
      var q := Quantify(r, j + 1, CharsetSegment(BracketCharset(r[i + 1..j])));
      (q.0, [q.1])
    else (i + 1, [])
  }

  /** A '(' at `i`: the group up to its closing ')' with its quantifier, or
      the '(' skipped when it is never closed. */
  function GroupStep(r: String, i: nat): (st: (nat, seq<RegexSegment>))
    requires i < |r| && r[i] == '('
    ensures i < st.0 <= |r| && |st.1| <= 1
    decreases |r|, 0, 0
  {
    var j := FindClosingParen(r, i);
    if j != -1 then
      var q := Quantify(r, j + 1, Group(r[i + 1..j]));
      (q.0, [q.1])
    else (i + 1, [])
  }

  /** parseGroup: a body with a '|' anywhere (nested groups included) is an
      alternation of its '|'-separated parts; otherwise a body that compiles
      to exactly one segment is that segment, and any other body is literal
      text. */
  function Group(content: String): RegexSegment
    decreases |content|, 4, 0
  {
    if '|' in content then
      AlternationSegment(Alternatives(content, Split(content, '|')))
    else
      var sub := Compile(content);
      if |sub| == 1 then sub[0] else LiteralSegment(content)
  }

  /** The variants of an alternation: a part starting with '[' contributes
      the first segment it compiles to (none when it compiles to nothing);
      any other part is literal text. */
  function Alternatives(content: String, parts: seq<String>): seq<RegexSegment>
    requires forall k :: 0 <= k < |parts| ==> |parts[k]| < |content|
    decreases |content|, 3, |parts|
  {
    if parts == [] then []
    else
      var p := parts[0];
      var first :=
        if |p| > 0 && p[0] == '[' then
          var sub := Compile(p);
          if |sub| > 0 then [sub[0]] else []
        else [LiteralSegment(p)];
      first + Alternatives(content, parts[1..])
  }

  /** ParseSegmentedRegex: clean the pattern, drop one pair of wrapping
      parentheses, and scan what is left. */
  method ParseSegmentedRegex(regex: String) returns (segments: seq<RegexSegment>)
    ensures segments == Compile(regex)
  {
    var r := CleanRegex(regex);
    if |r| >= 2 && r[0] == '(' && r[|r| - 1] == ')' {
      r := r[1..|r| - 1];
    }
    assert r == Unwrap(CleanRegex(regex));
    segments := ScanSegments(r);
  }

  /** The loop of ParseSegmentedRegex, one step at a time. */
  method ScanSegments(r: String) returns (segments: seq<RegexSegment>)
    ensures segments == Scan(r, 0)
  {
    segments := [];
    var i := 0;
    while i < |r|
      invariant 0 <= i <= |r|
      invariant segments + Scan(r, i) == Scan(r, 0)
      decreases |r| - i
    {
      var next, found := ParseStep(r, i);
      ScanStep(r, i, next, found);
      segments := segments + found;
      i := next;
    }
  }

  /** The scan from `i` is one step and the scan after it. */
  lemma ScanStep(r: String, i: nat, next: nat, found: seq<RegexSegment>)
    requires i < |r| && (next, found) == Step(r, i)
    ensures i < next <= |r| && Scan(r, i) == found + Scan(r, next)
  {
  }

  lemma BracketSlice(r: String, i: nat, j: nat)
    requires i < j < |r| && r[i] == '[' && r[j] == ']'
    ensures CharsetOf(r[i..j + 1]) == BracketCharset(r[i + 1..j])
  {
    var c := r[i..j + 1];
    assert |c| == j - i + 1;
    var inner, body := c[1..|c| - 1], r[i + 1..j];
    assert forall k :: 0 <= k < |inner| ==> inner[k] == body[k];
    assert inner == body;
    CharsetOfBracket(c);
  }

  /** The body of that loop. */
  method ParseStep(r: String, i: nat) returns (next: nat, found: seq<RegexSegment>)
    requires i < |r|
    ensures (next, found) == Step(r, i)
  {
    if r[i] == '[' {
      next, found := ParseClass(r, i);
    } else if r[i] == '(' {
      next, found := ParseGroupAt(r, i);
    } else {
      next, found := i + 1, [];
    }
  }

  /** The '[' branch: scan for ']', parse the class, read its quantifier. */
  method ParseClass(r: String, i: nat) returns (next: nat, found: seq<RegexSegment>)
    requires i < |r| && r[i] == '['
    ensures (next, found) == ClassStep(r, i)
  {
    var j := ScanFor(r, ']', i);
    if j < |r| {
      var body: String := r[i..j + 1];
      var cs := ParseCharsetFromRegex(body);
      var segment: RegexSegment;
      next, segment := ParseQuantifier(r, j + 1, CharsetSegment(cs));
      found := [segment];
      ClassStepAt(r, i, j, cs, next, segment);
    } else {
      ClassStepUnclosed(r, i);
      next, found := i + 1, [];
    }
  }

  /** A class at `i` closed at `j` is that class with its quantifier. */
  lemma ClassStepAt(r: String, i: nat, j: nat, cs: String, next: nat, seg: RegexSegment)
    requires i < |r| && r[i] == '[' && IndexFrom(r, ']', i) == j < |r|
    requires cs == CharsetOf(r[i..j + 1]) && (next, seg) == Quantify(r, j + 1, CharsetSegment(cs))
    ensures (next, [seg]) == ClassStep(r, i)
  {
    BracketSlice(r, i, j);
    StepClass(r, i, j);
  }

  /** A '[' without a ']' after it is skipped. */
  lemma ClassStepUnclosed(r: String, i: nat)
    requires i < |r| && r[i] == '[' && IndexFrom(r, ']', i) == |r|
    ensures (i + 1, []) == ClassStep(r, i)
  {
  }

  /** The '(' branch: find the closing ')', parse the group, read its
      quantifier. */
  method ParseGroupAt(r: String, i: nat) returns (next: nat, found: seq<RegexSegment>)
    requires i < |r| && r[i] == '('
    ensures (next, found) == GroupStep(r, i)
  {
    var j := FindClosingParen(r, i);
    if j == -1 {
      return i + 1, [];
    }
    GroupStepAt(r, i, j);
    var segment;
    next, segment := ParseQuantifier(r, j + 1, Group(r[i + 1..j]));
    found := [segment];
  }

  /** A group at `i` closed at `j` is that group with its quantifier. */
  lemma GroupStepAt(r: String, i: nat, j: nat)
    requires i < j < |r| && r[i] == '(' && FindClosingParen(r, i) == j
    ensures var q := Quantify(r, j + 1, Group(r[i + 1..j]));
            GroupStep(r, i) == (q.0, [q.1])
  {
    var g := Group(r[i + 1..j]);
    assert GroupStep(r, i) == (Quantify(r, j + 1, g).0, [Quantify(r, j + 1, g).1]);
  }

  function SumMin(segs: seq<RegexSegment>): int
  {
    if segs == [] then 0 else SumMin(segs[..|segs| - 1]) + segs[|segs| - 1].min
  }

  function SumMax(segs: seq<RegexSegment>): int
  {
    if segs == [] then 0 else SumMax(segs[..|segs| - 1]) + segs[|segs| - 1].max
  }

  /** The bounds of the fallback when a pattern has no segments. */
  const DefaultMin := 6
  const DefaultMax := 12

  /** ParseLengthsFromRegex: the two numbers of a global length suffix, or
      else the sums of the segments' bounds, or else (6, 12). */
  function LengthsOf(regex: String): (int, int)
  {
    match GlobalSuffix(regex)
    case Some(m) => (m.min, m.max)
    case None =>
      var segs := Compile(regex);
      if |segs| == 0 then (DefaultMin, DefaultMax) else (SumMin(segs), SumMax(segs))
  }

  method ParseLengthsFromRegex(regex: String) returns (min: int, max: int)
    ensures (min, max) == LengthsOf(regex)
  {
    var m := GlobalSuffix(regex);
    if m.Some? {
      return m.value.min, m.value.max;
    }
    var segments := ParseSegmentedRegex(regex);
    if |segments| == 0 {
      return DefaultMin, DefaultMax;
    }
    min, max := 0, 0;
    for k := 0 to |segments|
      invariant min == SumMin(segments[..k]) && max == SumMax(segments[..k])
    {
      assert segments[..k + 1][..k] == segments[..k];
      min := min + segments[k].min;
      max := max + segments[k].max;
    }
    assert segments[..|segments|] == segments;
  }

  /** What the summed bounds mean: when every segment is a character class,
      every string the segments match in sequence has a length between the
      two sums. Literal and alternation segments contribute their bounds,
      not the length of their text, so for them the sums say nothing. */
  lemma {:induction false} SumsBoundLength(segs: seq<RegexSegment>, ws: seq<String>)
    requires |ws| == |segs|
    requires forall k :: 0 <= k < |segs| ==> KindOf(segs[k]) == CharClass && Matches(segs[k], ws[k])
    ensures SumMin(segs) <= |Flatten(ws)| <= SumMax(segs)
    decreases |segs|
  {
    if segs != [] {
      var n := |segs| - 1;
      SumsBoundLength(segs[..n], ws[..n]);
    }
  }

  /** Plain text without '[' or '(' compiles to no segments. */
  lemma {:induction false} ScanPlain(r: String, i: nat)
    requires i <= |r|
    requires forall k :: i <= k < |r| ==> r[k] != '[' && r[k] != '('
    ensures Scan(r, i) == []
    decreases |r| - i
  {
    if i < |r| {
      ScanPlain(r, i + 1);
    }
  }

  /** The outer parentheses of `(a)(b)` are stripped, leaving `a)(b`, in
      which no group closes: the pattern has no segments and its lengths
      fall back to (6, 12). */
  lemma CompileStripsMismatchedParens()
    ensures Compile("(a)(b)") == []
    ensures LengthsOf("(a)(b)") == (6, 12)
  {
    var s: String := "(a)(b)";
    assert GlobalSuffix(s) == None;
    var r: String := "a)(b";
    assert Unwrap(s) == r;
    assert FindClosingParen(r, 2) == -1;
    assert Scan(r, 3) == [] by { ScanPlain(r, 3); }
  }

  /** What one '|'-separated part contributes to an alternation: a part
      starting with '[' gives the first segment it compiles to, any other
      part is literal text. */
  ghost predicate PartGives(part: String, v: RegexSegment)
  {
    if |part| > 0 && part[0] == '[' then |Compile(part)| > 0 && v == Compile(part)[0]
    else v == LiteralSegment(part)
  }

  /** There are at most as many variants as parts, and a segment is a
      variant exactly when some part gives it. */
  lemma {:induction false} AlternativesMembers(c: String, parts: seq<String>, v: RegexSegment)
    requires forall k :: 0 <= k < |parts| ==> |parts[k]| < |c|
    ensures |Alternatives(c, parts)| <= |parts|
    ensures v in Alternatives(c, parts) <==> exists k :: 0 <= k < |parts| && PartGives(parts[k], v)
    decreases |parts|
  {
    if parts != [] {
      var rest := parts[1..];
      AlternativesMembers(c, rest, v);
      if v in Alternatives(c, parts) && !PartGives(parts[0], v) {
        var k :| 0 <= k < |rest| && PartGives(rest[k], v);
        assert PartGives(parts[k + 1], v);
      }
      if exists k :: 0 <= k < |parts| && PartGives(parts[k], v) {
        var k :| 0 <= k < |parts| && PartGives(parts[k], v);
        if k > 0 {
          assert PartGives(rest[k - 1], v);
        }
      }
    }
  }

  /** A body with a '|' is an alternation with at most one variant per
      '|'-separated part, and its variants are exactly what the parts
      give. */
  lemma GroupAlternation(c: String)
    requires '|' in c
    ensures var g, parts := Group(c), Split(c, '|');
      && g == AlternationSegment(g.variants) && |g.variants| <= |parts|
      && forall v :: v in g.variants <==> exists k :: 0 <= k < |parts| && PartGives(parts[k], v)
  {
    var parts := Split(c, '|');
    forall v ensures v in Group(c).variants <==> exists k :: 0 <= k < |parts| && PartGives(parts[k], v) {
      AlternativesMembers(c, parts, v);
    }
    AlternativesMembers(c, parts, LiteralSegment([]));
  }

  /** Parts that do not start with '[' each become literal text, in order:
      so `(ab|cd)` is an alternation of the literals `ab` and `cd`. */
  lemma {:induction false} AlternativesLiterals(c: String, parts: seq<String>)
    requires forall k :: 0 <= k < |parts| ==> |parts[k]| < |c|
    requires forall k :: 0 <= k < |parts| ==> parts[k] == [] || parts[k][0] != '['
    ensures |Alternatives(c, parts)| == |parts|
    ensures forall k :: 0 <= k < |parts| ==> Alternatives(c, parts)[k] == LiteralSegment(parts[k])
    decreases |parts|
  {
    if parts != [] {
      AlternativesLiterals(c, parts[1..]);
      assert Alternatives(c, parts) == [LiteralSegment(parts[0])] + Alternatives(c, parts[1..]);
    }
  }

  /** A body with a '|' whose parts do not start with '[' is the
      alternation of those parts as literal text. */
  lemma GroupLiterals(c: String, parts: seq<String>)
    requires '|' in c && parts == Split(c, '|')
    requires forall k :: 0 <= k < |parts| ==> parts[k] == [] || parts[k][0] != '['
    ensures Group(c).variants == seq(|parts|, k requires 0 <= k < |parts| => LiteralSegment(parts[k]))
    ensures KindOf(Group(c)) == Alternation
  {
    assert Group(c) == AlternationSegment(Alternatives(c, parts));
    AlternativesLiterals(c, parts);
  }

  /** parseGroup splits on every '|', also on one inside a nested group, so
      its parts need not be balanced: `(b|c)|d` has the parts `(b`, `c)` and
      `d`. */
  lemma GroupSplitsNested(c: String)
    requires c == "(b|c)|d"
    ensures Group(c).variants == [LiteralSegment("(b"), LiteralSegment("c)"), LiteralSegment("d")]
  {
    var a, b, d: String := "(b", "c)", "d";
    var parts: seq<String> := [a, b, d];
    assert Split(c, '|') == parts by {
      assert c == a + ['|'] + b + ['|'] + d;
      SplitThree(a, b, d, '|');
    }
    assert '|' in c by {
      assert c[2] == '|';
    }
    GroupLiterals(c, parts);
    var v := Group(c).variants;
    assert |v| == 3 && v[0] == LiteralSegment(a) && v[1] == LiteralSegment(b) && v[2] == LiteralSegment(d);
  }

  /** A pattern without global suffix that is not wrapped in parentheses
      is scanned as it is. */
  lemma CompileUnwrapped(s: String)
    requires GlobalSuffix(s) == None && (s == [] || s[0] != '(')
    ensures Compile(s) == Scan(s, 0)
  {
  }

  /** Without a global suffix, the lengths are the sums over the segments,
      or (6, 12) when there are none. */
  lemma LengthsOfSegments(s: String)
    requires GlobalSuffix(s) == None
    ensures var segs := Compile(s);
      LengthsOf(s) == if |segs| == 0 then (DefaultMin, DefaultMax) else (SumMin(segs), SumMax(segs))
  {
  }

  /** A closed bracket class at `i` is one class segment with the quantifier
      that follows it. */
  lemma StepClass(r: String, i: nat, j: nat)
    requires i < j < |r| && r[i] == '[' && IndexFrom(r, ']', i) == j
    ensures var q := Quantify(r, j + 1, CharsetSegment(BracketCharset(r[i + 1..j])));
            Step(r, i) == (q.0, [q.1])
  {
    assert Step(r, i) == ClassStep(r, i);
  }

  /** `r` opens with the class `[body]`, closed at `j`. */
  predicate ClassAt(r: String, j: nat, body: String)
  {
    0 < j < |r| && r[0] == '[' && IndexFrom(r, ']', 0) == j && r[1..j] == body
  }

  /** A text that is one class and its quantifier scans to that segment. */
  lemma ScanClassOnce(r: String, j: nat, body: String, seg: RegexSegment)
    requires ClassAt(r, j, body)
    requires Quantify(r, j + 1, CharsetSegment(BracketCharset(body))) == (|r|, seg)
    ensures Scan(r, 0) == [seg]
  {
    StepClass(r, 0, j);
    ScanOnce(r, [seg]);
  }

  /** A pattern that is consumed by its first step compiles to what that
      step finds. */
  lemma ScanOnce(r: String, found: seq<RegexSegment>)
    requires |r| > 0 && Step(r, 0) == (|r|, found)
    ensures Scan(r, 0) == found
  {
  }

  /** A bracket class followed by `{n}`, written out. */
  function ClassText(body: String, n: nat): String
  {
    ['['] + body + [']', '{'] + Decimal(n) + ['}']
  }

  /** Where the parts of that text sit. */
  lemma ClassTextShape(body: String, n: nat)
    requires ']' !in body
    ensures var s, b := ClassText(body, n), |body| + 1;
      && b + 2 < |s| && s[b] == ']' && s[b + 1] == '{' && s[|s| - 1] == '}'
      && s[b + 2..|s| - 1] == Decimal(n) && ClassAt(s, b, body)
  {
    var s, b := ClassText(body, n), |body| + 1;
    assert s[b + 2..|s| - 1] == Decimal(n);
    assert forall k :: 1 <= k < b ==> s[k] == body[k - 1];
    assert s[1..b] == body;
  }

  /** Its quantifier is no global suffix: the digits are preceded by '{',
      which is no separator. */
  lemma ClassTextNoSuffix(body: String, n: nat)
    requires ']' !in body
    ensures GlobalSuffix(ClassText(body, n)) == None
  {
    ClassTextShape(body, n);
    var s, b := ClassText(body, n), |body| + 1;
    DigitRunStartAt(s, |s| - 1, b + 2);
  }

  /** A single bracket class followed by `{n}` compiles to one class
      segment with bounds (n, n), and its lengths are (n, n). */
  lemma ClassExactCount(body: String, n: nat)
    requires ']' !in body
    ensures Compile(ClassText(body, n)) == [CharsetSegment(BracketCharset(body)).(min := n, max := n)]
    ensures LengthsOf(ClassText(body, n)) == (n, n)
  {
    ClassTextShape(body, n);
    ClassTextNoSuffix(body, n);
    DecimalNoSpace(n);
    BraceExact(n);
    ClassBracesCompile(ClassText(body, n), |body| + 1, body, Decimal(n), n);
  }

  /** The same for a text given by its parts: a class closed at `j`, then
      `{d}` up to the end, where the brace body `d` reads as (n, n). */
  lemma ClassBracesCompile(s: String, j: nat, body: String, d: String, n: int)
    requires ClassAt(s, j, body) && j + 2 < |s| && s[j + 1] == '{' && s[|s| - 1] == '}'
    requires s[j + 2..|s| - 1] == d && '}' !in d && BraceBounds(d) == (n, n)
    requires GlobalSuffix(s) == None
    ensures Compile(s) == [CharsetSegment(BracketCharset(body)).(min := n, max := n)]
    ensures LengthsOf(s) == (n, n)
  {
    ClassBracesScan(s, j, body, d, n);
    CompileUnwrapped(s);
    LengthsOfSegments(s);
  }

  /** Its scan finds that one segment. */
  lemma ClassBracesScan(s: String, j: nat, body: String, d: String, n: int)
    requires ClassAt(s, j, body) && j + 2 < |s| && s[j + 1] == '{' && s[|s| - 1] == '}'
    requires s[j + 2..|s| - 1] == d && '}' !in d && BraceBounds(d) == (n, n)
    ensures Scan(s, 0) == [CharsetSegment(BracketCharset(body)).(min := n, max := n)]
  {
    var seg := CharsetSegment(BracketCharset(body));
    BracesToEnd(s, j + 1, d, n, seg);
    ScanClassOnce(s, j, body, seg.(min := n, max := n));
  }

  lemma LengthsExactCount()
    ensures LengthsOf("[A-Z]{8}") == (8, 8)
  {
    assert Decimal(8) == "8";
    assert ClassText("A-Z", 8) == "[A-Z]{8}";
    ClassExactCount("A-Z", 8);
  }

  /** A single class without quantifier counts as one character. */
  lemma LengthsSingleClass()
    ensures LengthsOf("[a-z]") == (1, 1)
  {
    var s: String := "[a-z]";
    assert DigitRunStart(s, 4) == 4;
    assert GlobalSuffix(s) == None;
    assert Unwrap(CleanRegex(s)) == s;
    assert IndexFrom(s, ']', 0) == 4;
    var seg := CharsetSegment(CharsetOf(s[0..5]));
    assert Quantify(s, 5, seg) == (5, seg);
    assert Compile(s) == [seg];
  }

  /** With a global suffix at `open`, the lengths are its two numbers. */
  lemma LengthsSuffix(s: String, open: nat, sep: nat)
    requires SuffixAt(s, open, sep)
    ensures LengthsOf(s) == (DecimalValue(s[open + 1..sep]), DecimalValue(s[sep + 1..|s| - 1]))
  {
    CleanRegexStrips(s, open, sep);
  }

  /** A pattern ending in `{m,n}`. */
  function SuffixText(pre: String, m: nat, n: nat): String
  {
    pre + ['{'] + Decimal(m) + [','] + Decimal(n) + ['}']
  }

  /** Whatever precedes it, a trailing `{m,n}` fixes the lengths to (m, n). */
  lemma LengthsSuffixText(pre: String, m: nat, n: nat)
    ensures LengthsOf(SuffixText(pre, m, n)) == (m, n)
  {
    var s, d1, d2 := SuffixText(pre, m, n), Decimal(m), Decimal(n);
    var p := |pre| + 1 + |d1|;
    assert s == pre + ['{'] + d1 + [','] + d2 + ['}'];
    SuffixWritten(pre, '{', d1, ',', d2, '}');
    assert SuffixAt(s, |pre|, p) && s[|pre| + 1..p] == d1 && s[p + 1..|s| - 1] == d2;
    LengthsSuffix(s, |pre|, p);
    AtoiDecimal(m);
    AtoiDecimal(n);
  }

  lemma LengthsGlobalSuffix()
    ensures LengthsOf("[a-z]{6,10}") == (6, 10)
  {
    assert Decimal(6) == "6" && Decimal(10) == "10";
    assert SuffixText("[a-z]", 6, 10) == "[a-z]{6,10}";
    LengthsSuffixText("[a-z]", 6, 10);
  }

  lemma LengthsGlobalSuffixDigits()
    ensures LengthsOf("[0-9]{1,3}") == (1, 3)
  {
    assert Decimal(1) == "1" && Decimal(3) == "3";
    assert SuffixText("[0-9]", 1, 3) == "[0-9]{1,3}";
    LengthsSuffixText("[0-9]", 1, 3);
  }

  lemma LengthsGlobalSuffixWide()
    ensures LengthsOf("[a-z]{5,12}") == (5, 12)
  {
    assert Decimal(5) == "5" && Decimal(12) == "12";
    assert SuffixText("[a-z]", 5, 12) == "[a-z]{5,12}";
    LengthsSuffixText("[a-z]", 5, 12);
  }

  /** A lone trailing class whose body looks like `m-n` is read as the global
      suffix: `[0-9]` means lengths 0 to 9, not one digit. */
  lemma LengthsTrailingClass()
    ensures LengthsOf("[0-9]") == (0, 9)
  {
    var s: String := "[0-9]";
    assert SuffixAt(s, 0, 2);
    CleanRegexStrips(s, 0, 2);
    assert s[1..2] == ['0'] && s[3..4] == ['9'];
  }
}
