/** The global length constraint of generator.go: the regular expression
    `[\[\{]\d+[-,\s]\d+[\]\}]$` that ParseLengthsFromRegex reads and
    CleanRegex deletes.

    The match is anchored at the end of the text, and each digit run is
    preceded by a character that is not a digit (the opening bracket, the
    separator), so a match, when there is one, is unique: the closing
    bracket is the last character, the second digit run is the maximal run
    before it, the separator precedes that run, the first digit run is the
    maximal run before the separator, and the opening bracket precedes it.
    `GlobalSuffix` follows exactly that chain. The pattern matches any
    trailing class whose body has this shape too, such as `[0-9]`. */
module Suffix {
  import opened Ascii
  import opened GoStrings

  /** `[-,\s]`, where `\s` of Go's RE2 is [\t\n\f\r ] (no vertical tab). */
  predicate IsLengthSeparator(c: AsciiChar)
  {
    c == '-' || c == ',' || c == '\t' || c == '\n' || c == '\U{C}' || c == '\r' || c == ' '
  }

  predicate IsOpen(c: AsciiChar) { c == '[' || c == '{' }
  predicate IsClose(c: AsciiChar) { c == ']' || c == '}' }

  /** Where the run of digits that ends at `end` starts. */
  function DigitRunStart(s: String, end: nat): (k: nat)
    requires end <= |s|
    ensures k <= end && AllDigits(s[k..end])
    ensures k == 0 || !IsDigit(s[k - 1])
    decreases end
  {
    if end > 0 && IsDigit(s[end - 1]) then
      var k := DigitRunStart(s, end - 1);
      assert s[k..end] == s[k..end - 1] + [s[end - 1]];
      k
    else end
  }

  /** Positions and values of a matched suffix. */
  datatype Match = Match(open: nat, sep: nat, min: nat, max: nat)

  /** The unique match of the global-length pattern, if any. */
  function GlobalSuffix(s: String): Option<Match>
  {
    if |s| == 0 || !IsClose(s[|s| - 1]) then None
    else
      var close := |s| - 1;
      var d2 := DigitRunStart(s, close);
      if d2 == close || d2 == 0 || !IsLengthSeparator(s[d2 - 1]) then None
      else
        var sep := d2 - 1;
        var d1 := DigitRunStart(s, sep);
        if d1 == sep || d1 == 0 || !IsOpen(s[d1 - 1]) then None
        else Some(Match(d1 - 1, sep, DecimalValue(s[d1..sep]), DecimalValue(s[d2..close])))
  }

  /** The pattern read declaratively: `s` ends with an opening bracket at
      `open`, one or more digits, a separator at `sep`, one or more digits
      and a closing bracket. */
  predicate SuffixAt(s: String, open: nat, sep: nat)
  {
    && open + 1 < sep && sep + 2 < |s|
    && IsOpen(s[open]) && IsLengthSeparator(s[sep]) && IsClose(s[|s| - 1])
    && AllDigits(s[open + 1..sep]) && AllDigits(s[sep + 1..|s| - 1])
  }

  /** `CleanRegex`: the pattern with its global length suffix deleted. */
  function CleanRegex(regex: String): (r: String)
    ensures |r| <= |regex| && r == regex[..|r|]
  {
    match GlobalSuffix(regex)
    case Some(m) => regex[..m.open]
    case None => regex
  }

  lemma DigitRunStartAt(s: String, end: nat, k: nat)
    requires k <= end <= |s| && AllDigits(s[k..end])
    requires k == 0 || !IsDigit(s[k - 1])
    ensures DigitRunStart(s, end) == k
    decreases end
  {
    if end > k {
      assert IsDigit(s[k..end][end - 1 - k]);
      assert s[k..end - 1] == s[k..end][..end - 1 - k];
      DigitRunStartAt(s, end - 1, k);
    }
  }

  /** Whatever GlobalSuffix reports is a match, with the values of its two
      digit runs. */
  lemma GlobalSuffixSound(s: String)
    requires GlobalSuffix(s).Some?
    ensures var m := GlobalSuffix(s).value;
      && SuffixAt(s, m.open, m.sep)
      && m.min == DecimalValue(s[m.open + 1..m.sep])
      && m.max == DecimalValue(s[m.sep + 1..|s| - 1])
  {
  }

  /** Every match is the one GlobalSuffix reports; in particular a match is
      unique. */
  lemma GlobalSuffixComplete(s: String, open: nat, sep: nat)
    requires SuffixAt(s, open, sep)
    ensures GlobalSuffix(s)
            == Some(Match(open, sep, DecimalValue(s[open + 1..sep]), DecimalValue(s[sep + 1..|s| - 1])))
  {
    DigitRunStartAt(s, |s| - 1, sep + 1);
    DigitRunStartAt(s, sep, open + 1);
  }

  /** On a match, GlobalSuffix reads its two numbers and CleanRegex cuts the
      text at its opening bracket. */
  lemma CleanRegexStrips(s: String, open: nat, sep: nat)
    requires SuffixAt(s, open, sep)
    ensures GlobalSuffix(s).Some? && GlobalSuffix(s).value.open == open
    ensures GlobalSuffix(s).value.sep == sep
    ensures GlobalSuffix(s).value.min == DecimalValue(s[open + 1..sep])
    ensures GlobalSuffix(s).value.max == DecimalValue(s[sep + 1..|s| - 1])
    ensures CleanRegex(s) == s[..open]
  {
    GlobalSuffixComplete(s, open, sep);
  }

  /** Any text followed by an opening bracket, digits, a separator, digits
      and a closing bracket ends with a match at that bracket. */
  lemma SuffixWritten(pre: String, open: AsciiChar, d1: String, sep: AsciiChar, d2: String, close: AsciiChar)
    requires IsOpen(open) && IsLengthSeparator(sep) && IsClose(close)
    requires |d1| > 0 && |d2| > 0 && AllDigits(d1) && AllDigits(d2)
    ensures var s := pre + [open] + d1 + [sep] + d2 + [close];
      var p := |pre| + 1 + |d1|;
      && SuffixAt(s, |pre|, p)
      && s[|pre| + 1..p] == d1 && s[p + 1..|s| - 1] == d2 && s[..|pre|] == pre
  {
    var s := pre + [open] + d1 + [sep] + d2 + [close];
    var p := |pre| + 1 + |d1|;
    assert s[..|pre|] == pre;
    assert s[|pre| + 1..p] == d1;
    assert s[p + 1..|s| - 1] == d2;
  }

  /** Text that does not end with a suffix is left as it is. */
  lemma CleanRegexNoSuffix(s: String)
    requires forall open: nat, sep: nat :: !SuffixAt(s, open, sep)
    ensures CleanRegex(s) == s
  {
    if GlobalSuffix(s).Some? {
      GlobalSuffixSound(s);
    }
  }

  /** A trailing character class such as `[0-9]` matches the pattern too,
      so CleanRegex deletes it. */
  lemma CleanRegexTrailingClass()
    ensures CleanRegex("[a-z][0-9]") == "[a-z]"
  {
    var s: String := "[a-z][0-9]";
    assert SuffixAt(s, 5, 7);
    CleanRegexStrips(s, 5, 7);
  }
}
