/** The few calls into Go's `strings` and `strconv` packages that the pattern
    compiler relies on, written out on ASCII text: a forward scan for a
    character, `strings.Split` with a one-character separator,
    `strings.TrimSpace`, and `strconv.Atoi` with its error dropped (every
    call site in generator.go ignores the error and keeps the 0). */
module GoStrings {
  import opened Ascii

  /** The first index at or after `from` that holds `c`, or |s| when there is
      none: the `for j < len(s) && s[j] != c { j++ }` scans of generator.go. */
  function IndexFrom(s: String, c: AsciiChar, from: nat): (k: nat)
    requires from <= |s|
    ensures from <= k <= |s|
    ensures forall j :: from <= j < k ==> s[j] != c
    ensures k < |s| ==> s[k] == c
    decreases |s| - from
  {
    if from == |s| || s[from] == c then from else IndexFrom(s, c, from + 1)
  }

  /** The scan loop itself. */
  method ScanFor(s: String, c: AsciiChar, from: nat) returns (k: nat)
    requires from <= |s|
    ensures k == IndexFrom(s, c, from)
  {
    k := from;
    while k < |s| && s[k] != c
      invariant from <= k <= |s|
      invariant forall j :: from <= j < k ==> s[j] != c
    {
      k := k + 1;
    }
    IndexFromFirst(s, c, from, k);
  }

  /** IndexFrom is the first hit after `from`. */
  lemma {:induction false} IndexFromFirst(s: String, c: AsciiChar, from: nat, k: nat)
    requires from <= k <= |s|
    requires forall j :: from <= j < k ==> s[j] != c
    requires k < |s| ==> s[k] == c
    ensures IndexFrom(s, c, from) == k
    decreases k - from
  {
    if from < k {
      IndexFromFirst(s, c, from + 1, k);
    }
  }

  /** The last index that holds `c`, or -1 when there is none: the backward
      `for i := len(s) - 1; i >= 0; i--` scans of generator.go. */
  function LastIndexOf(s: String, c: AsciiChar): (k: int)
    ensures -1 <= k < |s|
    ensures k >= 0 ==> s[k] == c
    ensures forall j :: k < j < |s| ==> s[j] != c
    decreases |s|
  {
    if s == [] then -1 else if s[|s| - 1] == c then |s| - 1 else LastIndexOf(s[..|s| - 1], c)
  }

  /** `strings.Split(s, string(sep))`: the pieces between separators, always
      at least one (Split("", ",") is [""]). */
  function Split(s: String, sep: AsciiChar): (parts: seq<String>)
    ensures |parts| >= 1
    ensures forall k :: 0 <= k < |parts| ==> sep !in parts[k] && |parts[k]| <= |s|
    ensures sep in s ==> forall k :: 0 <= k < |parts| ==> |parts[k]| < |s|
    ensures sep !in s ==> parts == [s]
    decreases |s|
  {
    var k := IndexFrom(s, sep, 0);
    if k == |s| then
      [s]
    else
      assert sep !in s[..k] by {
        forall j | 0 <= j < k ensures s[..k][j] != sep { }
      }
      [s[..k]] + Split(s[k + 1..], sep)
  }

  /** `strings.Join`, the inverse of Split. */
  function Join(parts: seq<String>, sep: AsciiChar): String
  {
    if parts == [] then []
    else if |parts| == 1 then parts[0]
    else parts[0] + [sep] + Join(parts[1..], sep)
  }

  /** Splitting loses nothing: joining the pieces with the separator gives the
      text back. */
  lemma {:induction false} SplitJoin(s: String, sep: AsciiChar)
    ensures Join(Split(s, sep), sep) == s
    decreases |s|
  {
    var k := IndexFrom(s, sep, 0);
    if k < |s| {
      SplitJoin(s[k + 1..], sep);
      assert s == s[..k] + [sep] + s[k + 1..];
    }
  }

  /** The first piece ends at the first separator. */
  lemma {:induction false} SplitCons(a: String, rest: String, sep: AsciiChar)
    requires sep !in a
    ensures Split(a + [sep] + rest, sep) == [a] + Split(rest, sep)
  {
    var s := a + [sep] + rest;
    assert s[|a|] == sep;
    assert forall x :: 0 <= x < |a| ==> s[x] == a[x];
    assert IndexFrom(s, sep, 0) == |a|;
    assert s[..|a|] == a;
    assert s[|a| + 1..] == rest;
  }

  lemma SplitThree(a: String, b: String, c: String, sep: AsciiChar)
    requires sep !in a && sep !in b && sep !in c
    ensures Split(a + [sep] + b + [sep] + c, sep) == [a, b, c]
  {
    var bc := b + [sep] + c;
    assert Split(bc, sep) == [b, c] by {
      SplitCons(b, c, sep);
    }
    assert a + [sep] + b + [sep] + c == a + [sep] + bc;
    SplitCons(a, bc, sep);
  }

  /** The ASCII white space that `strings.TrimSpace` removes. */
  predicate IsSpace(c: AsciiChar)
  {
    c == ' ' || c == '\t' || c == '\n' || c == '\r' || c == '\U{B}' || c == '\U{C}'
  }

  function TrimLeft(s: String): (r: String)
    ensures |r| <= |s|
  {
    if |s| > 0 && IsSpace(s[0]) then TrimLeft(s[1..]) else s
  }

  function TrimRight(s: String): (r: String)
    ensures |r| <= |s|
  {
    if |s| > 0 && IsSpace(s[|s| - 1]) then TrimRight(s[..|s| - 1]) else s
  }

  /** `strings.TrimSpace`: drops leading and trailing white space. */
  function TrimSpace(s: String): (r: String)
  {
    TrimRight(TrimLeft(s))
  }

  /** TrimLeft keeps a suffix that does not start with white space, and cuts
      only white space. */
  lemma {:induction false} TrimLeftShape(s: String)
    ensures var r := TrimLeft(s);
      && r == s[|s| - |r|..] && (r == [] || !IsSpace(r[0]))
      && forall i :: 0 <= i < |s| - |r| ==> IsSpace(s[i])
    decreases |s|
  {
    if |s| > 0 && IsSpace(s[0]) {
      TrimLeftShape(s[1..]);
    }
  }

  /** TrimRight keeps a prefix that does not end with white space, and cuts
      only white space. */
  lemma {:induction false} TrimRightShape(s: String)
    ensures var r := TrimRight(s);
      && r == s[..|r|] && (r == [] || !IsSpace(r[|r| - 1]))
      && forall i :: |r| <= i < |s| ==> IsSpace(s[i])
    decreases |s|
  {
    if |s| > 0 && IsSpace(s[|s| - 1]) {
      TrimRightShape(s[..|s| - 1]);
    }
  }

  /** Text without white space is left as it is. */
  lemma TrimSpaceNoSpace(s: String)
    requires forall i :: 0 <= i < |s| ==> !IsSpace(s[i])
    ensures TrimSpace(s) == s
  {
  }

  predicate AllDigits(s: String)
  {
    forall i :: 0 <= i < |s| ==> IsDigit(s[i])
  }

  function DigitValue(c: AsciiChar): (v: nat)
    requires IsDigit(c)
    ensures v < 10
  {
    c as int - '0' as int
  }

  function DigitChar(v: nat): (c: AsciiChar)
    requires v < 10
    ensures IsDigit(c) && DigitValue(c) == v
  {
    ('0' as int + v) as char
  }

  /** The value of a string of decimal digits, most significant first. */
  function DecimalValue(s: String): nat
    requires AllDigits(s)
  {
    if s == [] then 0 else DecimalValue(s[..|s| - 1]) * 10 + DigitValue(s[|s| - 1])
  }

  /** `strconv.Atoi(s)` with the error ignored: an optional sign followed by
      at least one digit gives its value; anything else gives 0. Values
      beyond 64 bits are not modelled. */
  function Atoi(s: String): int
  {
    if |s| > 0 && (s[0] == '+' || s[0] == '-') then
      if |s| > 1 && AllDigits(s[1..]) then
        (if s[0] == '-' then -(DecimalValue(s[1..]) as int) else DecimalValue(s[1..]))
      else 0
    else if |s| > 0 && AllDigits(s) then DecimalValue(s)
    else 0
  }

  /** The shortest decimal numeral of a natural number. */
  function Decimal(n: nat): (d: String)
    ensures |d| > 0 && AllDigits(d)
  {
    if n < 10 then [DigitChar(n)] else Decimal(n / 10) + [DigitChar(n % 10)]
  }

  /** Printing a number and parsing it back with Atoi gives the number. */
  lemma {:induction false} AtoiDecimal(n: nat)
    ensures DecimalValue(Decimal(n)) == n
    ensures Atoi(Decimal(n)) == n
  {
    var d := Decimal(n);
    if n >= 10 {
      AtoiDecimal(n / 10);
      assert d[..|d| - 1] == Decimal(n / 10);
    }
    assert d[0] != '+' && d[0] != '-' by { assert IsDigit(d[0]); }
  }

  /** Atoi reads a plain string of digits as its decimal value. */
  lemma AtoiDigits(s: String)
    requires |s| > 0 && AllDigits(s)
    ensures Atoi(s) == DecimalValue(s)
  {
    assert IsDigit(s[0]);
  }
}
