# Hydra candidate generator in Dafny

A model of Hydra's candidate-string generator package, `internal/generator`. The package has five parts:

- **Pattern compiler.** Turns a small bracket and group pattern language into a list of `RegexSegment` values. Each segment is a charset with a Min/Max length, a literal, or an alternation. The compiler also reads the trailing global-length suffix and expands charset ranges.
- **Exhaustive enumerators.**
  - `SequentialIterator` walks one charset over a range of lengths.
  - `PatternedSequentialIterator` walks a charset per position.
  - `RunSegmentedBrute` walks the Cartesian product of the expansions of the segments.
- **Random generators.** These build words from charsets and block patterns, mutate seed words, randomize case, and inject seed words into a pattern.
- **Strength score.** `CalculateComplexity`.
- **Similarity.** The trigram similarity of `similarity.go`.

Characters are ASCII (`Ascii.AsciiChar`), so Go's byte and rune indexing coincide. Randomness is a `Random.RandomSource`: the k-th draw below n is the k-th entry of an arbitrary tape modulo n. A contract that holds for every tape therefore holds whatever `crypto/rand` returns.

The pattern compiler and the enumerators are specified by pure functions:

- `Charset.CharsetOf`, `Quantifier.Quantify`, `Parser.Compile` and `Parser.LengthsOf`;
- `Iterators.Enumeration`, `Odometer.Tuples` and `Expansion.BruteOutputs`;
- `Complexity.Score` and `Similarity.Score`.

Each imperative routine of the source is a method proved equal to its function, and the promised properties are lemmas about the function. The two iterators are classes over an index array, and their `Next` is proved against a ghost `Remaining()` sequence. The random generators state the shape of their output for every sequence of draws.

Files:

- `ascii.dfy`: characters and case mapping.
- `gostrings.dfy`: the `strings` and `strconv` helpers the package uses.
- `segment.dfy`: `RegexSegment`, its dispatch order, `IsWordLike` and what a segment matches.
- `charset.dfy`: `ParseCharsetFromRegex`.
- `suffix.dfy`: the global-length suffix and `CleanRegex`.
- `quantifier.dfy`: `parseQuantifier`.
- `parser.dfy`: `findClosingParen`, `parseGroup`, `ParseSegmentedRegex` and `ParseLengthsFromRegex`.
- `odometer.dfy`: the odometer order shared by all enumerators.
- `iterators.dfy`: the two iterator classes.
- `expand.dfy`: `Expand` and `RunSegmentedBrute`.
- `random.dfy`: the random source and the charset and block generators.
- `generate.dfy`: `GenerateRandom` and the patterned generators.
- `mutate.dfy`: `Mutate`.
- `complexity.dfy`: `CalculateComplexity`.
- `similarity.dfy`: `TrigramSimilarity`.

## Model

| member | source | states |
|---|---|---|
| Ascii.Lower | internal/generator/similarity.go:10-11 | lower-casing maps each upper-case letter to its small letter and leaves every other character alone, position by position |
| Ascii.Upper | internal/generator/generator.go:401-406 | upper-casing maps each small letter to its capital and leaves every other character alone, position by position |
| Ascii.LowerIdempotent | internal/generator/similarity.go:10-11 | lower-casing twice is lower-casing once |
| Segments.KindOf | internal/generator/generator.go:425-436 | a segment is an alternation iff it has variants, a literal iff it has none but a literal, a charset iff it has neither but a charset, and otherwise empty |
| Segments.IsWordLike | internal/generator/generator.go:549-564 | word-like iff the literal is non-empty or more than half the charset consists of letters |
| Charset.ParseCharsetFromRegex | internal/generator/generator.go:567-617 | the loops build exactly `CharsetOf(regex)` |
| Charset.WriteRanges | internal/generator/generator.go:593-604 | the range loop writes the content with every `x-y` expanded and everything else copied |
| Charset.WriteSpan | internal/generator/generator.go:597-599 | the inner loop writes the characters from x to y in ascending order, none when y < x |
| Charset.DropRepeats | internal/generator/generator.go:606-614 | the seen-map loop keeps the first occurrence of each character |
| Charset.ExpandNoRanges | internal/generator/generator.go:593-604 | content with no `-` between two characters is copied unchanged, so a leading or trailing `-` is a literal |
| Charset.ExpandThreeRanges | internal/generator/generator.go:593-604 | content opening with three `x-y` ranges expands to their three spans followed by the expansion of the rest |
| Charset.SpanMembers | internal/generator/generator.go:597-599 | a range holds exactly the characters between its ends, so `z-a` gives nothing |
| Charset.CharsetOfBracket | internal/generator/generator.go:573-590 | for a `[...]` pattern the charset is the bracket content with its ranges expanded and its repeats dropped |
| Charset.CharsetMembers | internal/generator/generator.go:567-617 | for a pattern with content, a character is in the charset iff it is in the range-expanded content |
| Charset.DedupMembers | internal/generator/generator.go:606-614 | dropping repeats keeps the same set of characters |
| Charset.DedupDistinct | internal/generator/generator.go:606-614 | after dropping repeats no character occurs twice |
| Charset.DedupIdentity | internal/generator/generator.go:606-614 | a string without repeats is left unchanged |
| Charset.DedupOrder | internal/generator/generator.go:606-614 | the kept characters are in the order of their first occurrences |
| Charset.CharsetDistinct | internal/generator/generator.go:567-617 | a parsed charset never holds a character twice, including the default common set |
| Charset.CharsetExampleRange | internal/generator/regex_test.go:33 | `[a-c]` gives `abc` |
| Charset.CharsetExampleTwoRanges | internal/generator/regex_test.go:34 | `[A-B0-1]` gives `AB01` |
| Charset.CharsetExampleLiterals | internal/generator/regex_test.go:35 | `[#_]` gives `#_` |
| Charset.CharsetExampleFull | internal/generator/regex_test.go:36 | `[a-zA-Z0-9!@#_-]` gives the lower-case letters, the upper-case letters, the digits and `!@#_-`, the trailing `-` read as a literal |
| Suffix.DigitRunStartAt | internal/generator/generator.go:622 | the digit run before a position starts exactly where the maximal run of digits starts |
| Suffix.GlobalSuffixSound | internal/generator/generator.go:622-627 | a suffix the matcher reports is an opening bracket or brace, a run of digits, a separator, a run of digits and a closer at the end, and its bounds are those digits' values |
| Suffix.GlobalSuffixComplete | internal/generator/generator.go:622-627 | every trailing suffix of that form is found |
| Suffix.CleanRegexStrips | internal/generator/generator.go:770-773 | with a trailing suffix, `CleanRegex` cuts exactly it off and the reported bounds are its two numbers |
| Suffix.CleanRegexNoSuffix | internal/generator/generator.go:770-773 | without a trailing suffix the pattern is unchanged |
| Suffix.CleanRegexTrailingClass | internal/generator/generator.go:770-773 | `[a-z][0-9]` loses its `[0-9]`, which reads as a length suffix |
| Suffix.SuffixWritten | internal/generator/generator.go:622 | a pattern written as text, an opener, digits, a separator, digits and a closer has that suffix |
| Quantifier.Quantify | internal/generator/generator.go:714-752 | the next index lies between i and the pattern's end; only Min and Max change; the index moves iff a quantifier starts at i, and the segment is unchanged otherwise |
| Quantifier.ParseQuantifier | internal/generator/generator.go:714-752 | the pointer-updating parser returns exactly `Quantify` |
| Quantifier.QuantifyStarPlus | internal/generator/generator.go:718-725 | `+` gives (1, 8) and `*` gives (0, 8), one character consumed |
| Quantifier.QuantifyBraces | internal/generator/generator.go:726-750 | a brace quantifier consumes up to its first `}` and sets the bounds its body gives |
| Quantifier.QuantifyExact | internal/generator/generator.go:744-747 | `{n}` gives (n, n) |
| Quantifier.BraceExact | internal/generator/generator.go:744-747 | a body of one number n gives (n, n) |
| Quantifier.BraceRange | internal/generator/generator.go:732-743 | `m,n` gives (m, n) |
| Quantifier.BraceAtLeast | internal/generator/generator.go:732-743 | `m,` gives (m, 12) |
| Quantifier.BraceAtMost | internal/generator/generator.go:732-743 | `,n` gives (0, n) |
| Quantifier.BraceEmpty | internal/generator/generator.go:744-746 | an empty body reads as 0 through the failed `Atoi`, so (0, 0) |
| Quantifier.FirstClose | internal/generator/generator.go:727-730 | the closing brace found is the first `}` after the opener |
| Quantifier.BracesToEnd | internal/generator/generator.go:726-750 | a brace quantifier whose only `}` ends the pattern and whose body reads as (n, n) consumes the rest of the pattern and sets both bounds to n |
| GoStrings.IndexFrom | internal/generator/generator.go:657-660 | the scan for `]` stops at the first `]` at or after its start, or at the end when there is none |
| GoStrings.ScanFor | internal/generator/generator.go:657-660 | the scanning loop stops exactly where `IndexFrom` says |
| GoStrings.SplitJoin | internal/generator/generator.go:690 | joining the parts of a split with the separator gives back the text |
| GoStrings.TrimLeftShape | internal/generator/generator.go:737 | trimming the front keeps a suffix that does not start with white space and removes only white space |
| GoStrings.TrimRightShape | internal/generator/generator.go:737 | trimming the back keeps a prefix that does not end with white space and removes only white space |
| Parser.CloseFrom | internal/generator/generator.go:754-767 | the scan returns -1 or the index of a `)` |
| Parser.FindClosingParen | internal/generator/generator.go:754-767 | the result is -1 or an index of a `)` at or after start |
| Parser.FindClosingParenBalanced | internal/generator/generator.go:754-767 | the index found is the first `)` at which the parentheses counted from start balance to zero, and -1 means there is none |
| Parser.CloseFromBalanced | internal/generator/generator.go:755-766 | the depth-counting loop keeps its depth equal to the balance of the scanned parentheses |
| Parser.Unwrap | internal/generator/generator.go:648-651 | removing the outer parentheses never lengthens the pattern |
| Parser.Step | internal/generator/generator.go:655-684 | one step moves forward, stays inside the pattern and yields at most one segment |
| Parser.ParseSegmentedRegex | internal/generator/generator.go:643-686 | the scanning loop returns exactly `Compile(regex)` |
| Parser.ParseStep | internal/generator/generator.go:656-683 | one pass of the loop body is exactly `Step` |
| Parser.BracketSlice | internal/generator/generator.go:662 | a bracket class's charset is parsed from its content |
| Parser.ScanSegments | internal/generator/generator.go:653-685 | the scanning loop collects exactly the segments of `Scan` from the start |
| Parser.ParseClass | internal/generator/generator.go:656-666 | the `[` branch returns exactly `ClassStep`: the class up to the next `]` with its quantifier, or the `[` skipped |
| Parser.ClassStepAt | internal/generator/generator.go:657-665 | a class closed at the first `]` after it gives the charset of its text, quantified from just after the `]` |
| Parser.ParseGroupAt | internal/generator/generator.go:668-680 | the `(` branch returns exactly `GroupStep`: the group up to its closing `)` with its quantifier, or the `(` skipped |
| Parser.ClassStep | internal/generator/generator.go:656-666 | the `[` branch always moves forward, never past the end, and gives at most one segment |
| Parser.GroupStep | internal/generator/generator.go:668-680 | the `(` branch always moves forward, never past the end, and gives at most one segment |
| Parser.ScanPlain | internal/generator/generator.go:681-683 | characters other than `[` and `(` are skipped and give no segment |
| Parser.CompileStripsMismatchedParens | internal/generator/generator.go:648-651 | `(a)(b)` loses its first and last parenthesis and compiles to no segments, so its lengths are the default (6, 12) |
| Parser.AlternativesMembers | internal/generator/generator.go:692-702 | the parts give at most one variant each, and a segment is among the variants exactly when some part gives it |
| Parser.GroupAlternation | internal/generator/generator.go:689-704 | a group with any `|` becomes an alternation with at most one variant per `|`-separated part, and a segment is a variant exactly when some part gives it: the part as literal text, or the first segment a part starting with `[` compiles to |
| Parser.AlternativesLiterals | internal/generator/generator.go:692-702 | parts that do not start with `[` become literal segments with bounds 0 |
| Parser.GroupLiterals | internal/generator/generator.go:688-712 | a group of plain alternatives compiles to the alternation of their literals |
| Parser.GroupSplitsNested | internal/generator/generator.go:689-690 | `(b|c)|d` is split at every `|`, giving the literals `(b`, `c)` and `d` |
| Parser.ParseLengthsFromRegex | internal/generator/generator.go:620-640 | the method returns exactly `LengthsOf(regex)` |
| Parser.SumsBoundLength | internal/generator/generator.go:634-639 | a word made of one match per charset segment has a length between the two sums |
| Parser.ClassExactCount | internal/generator/generator.go:656-669 | `[body]{n}` compiles to one charset segment with bounds (n, n) |
| Parser.ClassBracesCompile | internal/generator/generator.go:656-666 | a pattern without global suffix that is one class closed at j followed by `{d}` to its end, where d reads as (n, n), compiles to that one class segment with bounds (n, n) and has lengths (n, n) |
| Parser.LengthsSuffix | internal/generator/generator.go:620-627 | with a trailing `{m,n}` global suffix the lengths are the two numbers it holds, whatever precedes it |
| Parser.LengthsSuffixText | internal/generator/generator.go:620-627 | any pattern followed by `{m,n}` written in decimal has lengths (m, n) |
| Parser.LengthsExactCount | internal/generator/regex_test.go:14 | `[A-Z]{8}` gives (8, 8) |
| Parser.LengthsSingleClass | internal/generator/regex_test.go:17 | `[a-z]` gives (1, 1) |
| Parser.LengthsGlobalSuffix | internal/generator/regex_test.go:13 | `[a-z]{6,10}` gives (6, 10) |
| Parser.LengthsGlobalSuffixDigits | internal/generator/regex_test.go:15 | `[0-9]{1,3}` gives (1, 3) |
| Parser.LengthsGlobalSuffixWide | internal/generator/regex_test.go:16 | `[a-z]{5,12}` gives (5, 12) |
| Parser.LengthsTrailingClass | internal/generator/generator.go:622-627 | `[0-9]` is read as the suffix `[0-9]` and gives (0, 9) |
| Odometer.TuplesLength | internal/generator/generator.go:459-473 | the odometer visits the product of the choice counts |
| Odometer.TuplesAt | internal/generator/generator.go:453-456 | the combination at an index vector's rank is the choices selected by it |
| Odometer.RankBound | internal/generator/generator.go:459-473 | every index vector's rank is below the number of combinations |
| Odometer.RankZeros | internal/generator/generator.go:221-228 | the all-zero vector is the first combination |
| Odometer.RankStep | internal/generator/generator.go:464-473 | bumping the rightmost index that can grow and zeroing those after it moves to the next combination |
| Odometer.RankAtLast | internal/generator/generator.go:464-473 | the vector of all last indices is the last combination |
| Odometer.TuplesMembers | internal/generator/generator.go:453-456 | the combinations are exactly the sequences with one choice per position |
| Odometer.BlocksMembers | internal/generator/generator.go:453-456 | one block of combinations holds exactly its first choice followed by a combination of the rest |
| Odometer.FlattenMembers | internal/generator/generator.go:479-484 | an element is in the concatenation iff it is in one of the parts |
| Iterators.WordsMembers | internal/generator/generator.go:230-259 | the words of one length are exactly the strings of that length over the charset, and there are |charset|^n of them |
| Iterators.LengthsMembers | internal/generator/generator.go:230-259 | the words of lengths lo to hi are exactly the strings over the charset with a length in that range |
| Iterators.LengthsShortestFirst | internal/generator/generator.go:248-253 | the words come shortest first |
| Iterators.EnumerationAb | internal/generator/generator.go:230-259 | over `ab` with lengths 1 to 2 the iterator yields a, b, aa, ab, ba, bb |
| Iterators.SequentialExample | internal/generator/generator.go:221-259 | a client calling `Next` eight times on a fresh iterator over `ab` with lengths 1 to 2 gets a, b, aa, ab, ba, bb, then ("", false) twice |
| Iterators.CountRepeat | internal/generator/generator.go:230-259 | a charset repeated n times has |charset|^n combinations |
| Iterators.SequentialIterator.constructor | internal/generator/generator.go:221-228 | a fresh iterator with minLen zero indices, whose remaining output is the whole enumeration when minLen > 0 |
| Iterators.SequentialIterator.Current | internal/generator/generator.go:235-239 | the current word selects each position's character by its index |
| Iterators.SequentialIterator.Advance | internal/generator/generator.go:241-256 | the carry loop moves to the next word of the same length, or reports that the length wraps and is then one longer |
| Iterators.PendingStep | internal/generator/generator.go:241-245 | when the carry stops inside the current length, the pending output starts with the current word and the next index vector leaves the rest |
| Iterators.PendingWrap | internal/generator/generator.go:247-255 | after the last word of a length the pending output continues with the first word of the next length, or ends once maxLen is reached |
| Iterators.SequentialIterator.Next | internal/generator/generator.go:230-259 | returns the first remaining word and drops it; ("", false) once the enumeration is over; "" with true for ever when minLen is 0 |
| Iterators.PatternedSequentialIterator.constructor | internal/generator/generator.go:269-278 | a fresh iterator over the position charsets, whose remaining output is every combination in odometer order |
| Iterators.PatternedSequentialIterator.Current | internal/generator/generator.go:285-289 | the current word selects each position's character by its index |
| Iterators.PatternPendingStep | internal/generator/generator.go:292-296 | when the carry stops at some position, the pending output starts with the current combination and the next index vector leaves the rest |
| Iterators.PatternPendingLast | internal/generator/generator.go:297-300 | when the carry runs off the left end, the current combination is the only one left |
| Iterators.PatternedSequentialIterator.Next | internal/generator/generator.go:280-304 | returns each combination once in odometer order, then ("", false) for ever; with no positions every call returns "" with true |
| Expansion.ExpandMatches | internal/generator/generator.go:478-506 | the expansion of a segment lists exactly the strings the segment matches |
| Expansion.ExpandCharset | internal/generator/generator.go:489-503 | draining the segment's iterator gives all words of lengths Min to Max, or none when Max < Min |
| Expansion.LengthsOneAtATime | internal/generator/generator.go:493-502 | draining the iterator for one length appends exactly the words of that length, so the per-length loop builds `Lengths(min, max)` |
| Expansion.Drain | internal/generator/generator.go:494-502 | calling `Next` until it fails collects the iterator's remaining output |
| Expansion.Choices | internal/generator/generator.go:445-448 | position k holds the expansion of segment k |
| Expansion.Emitted | internal/generator/generator.go:453-461 | output k is the prefix followed by the k-th combination in odometer order |
| Expansion.RunSegmentedBrute | internal/generator/generator.go:440-476 | the callback receives exactly `BruteOutputs`: every combination in odometer order, cut off after count outputs when count > 0 |
| Expansion.Walk | internal/generator/generator.go:450-475 | the output loop emits exactly `Walked` |
| Expansion.WalkedAt | internal/generator/generator.go:459-472 | stopping after count outputs or after the last combination leaves exactly `Walked` |
| Expansion.EmittedStep | internal/generator/generator.go:453-458 | emitting the combination at rank r extends the first r outputs by the r-th one |
| Expansion.Build | internal/generator/generator.go:453-456 | the built string is the prefix followed by the selected pieces |
| Expansion.Increment | internal/generator/generator.go:464-473 | the carry loop moves the indices to the next combination, or reports a wrap at the last one |
| Expansion.BruteOutputsSound | internal/generator/generator.go:440-476 | every output is the prefix followed by one match of each segment, in order |
| Expansion.BruteOutputsComplete | internal/generator/generator.go:440-476 | with no count, every prefix-plus-matches string is emitted |
| Expansion.ChoicesLiteralThenClass | internal/generator/generator.go:445-448 | literal `x` then charset `01` expand to [x] and [0, 1] |
| Expansion.EmittedLiteralThenClass | internal/generator/generator.go:450-475 | walking [x] and [0, 1] with no bound emits x0 and x1, in that order |
| Expansion.WalkedLiteralThenClass | internal/generator/generator.go:450-475 | walking [x] and [0, 1] with count 1 stops after x0; with any other count it emits x0 and x1 |
| Expansion.BruteLiteralThenClass | internal/generator/generator.go:440-476 | literal `x` then charset `01` emits only x0 for count 1 and x0 and x1 for any other count |
| Random.RandomSource.Below | internal/generator/generator.go:204-211 | a draw is below n |
| Random.GenerateWithCharset | internal/generator/generator.go:49-65 | the length is minLen when maxLen <= minLen and otherwise in [minLen, maxLen]; every character is from the charset; None (the source's panic) only when minLen < 0 or the charset is empty; never for minLen >= 0 with a non-empty charset, or with length 0; always for maxLen <= minLen < 0 |
| Random.GetRandomChar | internal/generator/generator.go:88-91 | one character of the charset |
| Random.GenerateRandomFromSet | internal/generator/generator.go:28-30 | the same length rule over the common characters; None (a panic) only for minLen < 0, never for minLen >= 0, always for maxLen <= minLen < 0 |
| Random.StylesCommon | internal/generator/generator.go:34-41 | every style is part of the common characters |
| Random.GenerateVaried | internal/generator/generator.go:33-46 | the same length rule, and all characters come from one of the six styles; None (a panic) under the same conditions as GenerateRandomFromSet |
| Random.BlockAppend | internal/generator/generator.go:79-84 | one more lower, upper, digit, special block keeps the block shape |
| Random.GenerateByBlockPattern | internal/generator/generator.go:68-86 | length 4·n for a block count n the length rule allows (none when n < 0); position 4j+c is from class c |
| Random.CaseForms | internal/generator/generator.go:394-422 | upper-casing, lower-casing and title-casing all keep the lower-cased form |
| Random.RandomizeCase | internal/generator/generator.go:394-422 | same length and the same lower-cased form; non-letters stay where they are |
| Generate.GenerateRandom | internal/generator/generator.go:424-437 | the word is one alternative's word, the literal, a charset run within the length rule, or ""; None (a panic) only on a segment outside `Generatable`, that is one with a reachable charset segment whose Min is negative, and always on a class with Max <= Min < 0 |
| Generate.ProducesMatches | internal/generator/generator.go:424-437 | with bounds in order, the possible random words are exactly the words the segment matches |
| Generate.GeneratedIsExpanded | internal/generator/generator.go:424-437 | every random word of an ordered segment is in its exhaustive expansion |
| Generate.ReversedBoundsProduce | internal/generator/generator.go:49-59 | with Max < Min a class still yields Min characters, which the segment does not match |
| Generate.GenerateRandomPatterned | internal/generator/generator.go:307-313 | one possible word per segment, concatenated in order; None only when some segment is outside `Generatable` |
| Generate.TakeCount | internal/generator/generator.go:328-342 | a segment takes between one and all of the remaining seed characters |
| Generate.TargetAtLeastMin | internal/generator/generator.go:337-342 | the take target is never below Min, so the fill for a missing minimum is unreachable |
| Generate.TakeCountCases | internal/generator/generator.go:328-342 | open or wide bounds take the whole rest; fixed bounds take Min when 0 < Min fits; small ranges take their Max, capped by the rest |
| Generate.LiteralTakesAll | internal/generator/generator.go:328-342 | a word-like literal segment takes the whole remaining seed |
| Generate.InjectSeed | internal/generator/generator.go:327-380 | emits the TakeCount leading seed characters, possibly followed by one special character the segment's charset contains, and that only when the segment is open or its Max exceeds the take target |
| Generate.SeparatorCases | internal/generator/generator.go:328-363 | a separator is allowed exactly when Max < 0, or Max exceeds both Min and the seed text left |
| Generate.FixedCountNoSeparator | internal/generator/generator.go:328-363 | `[ab_]{2}` with the seed text "xyz" emits exactly "xy" |
| Generate.SegmentStep | internal/generator/generator.go:327-383 | a word-like segment with seed left takes a chunk; otherwise it emits a word it can produce and takes nothing; None (a panic of GenerateRandom) only for a segment that takes no seed and is outside `Generatable` |
| Generate.RunUpToStep | internal/generator/generator.go:327-384 | one more segment taking the next chunk of the seed extends the run over the first n segments to n + 1 |
| Generate.InjectAll | internal/generator/generator.go:325-384 | consecutive chunks of the seed are taken in segment order; the rest is what they leave; None only when some segment is outside `Generatable` |
| Generate.GenerateRandomPatternedWithSeeds | internal/generator/generator.go:316-392 | without seeds it is GenerateRandomPatterned; otherwise a seed with the case randomized, whose unconsumed rest comes first, then the segment pieces; None only when some segment is outside `Generatable` |
| Generate.SeedFullyEmitted | internal/generator/generator.go:344-389 | the result of a seeded run is at least as long as the case-randomized seed |
| Generate.FlattenLonger | internal/generator/generator.go:344-350 | pieces at least as long as their chunks concatenate to something at least as long |
| Mutation.ToggleCase | internal/generator/generator.go:105-115 | a toggled letter changes case but keeps its lower-cased form; other characters stay |
| Mutation.ToggleSome | internal/generator/generator.go:105-115 | each character is kept or toggled |
| Mutation.LeetSome | internal/generator/generator.go:129-138 | each character is kept or replaced by its leetspeak digit |
| Mutation.InsertUnderscore | internal/generator/generator.go:126-128 | one underscore inserted at some position |
| Mutation.CapitalizeInner | internal/generator/generator.go:148-155 | one character after the first is upper-cased |
| Mutation.ApplyMutation | internal/generator/generator.go:103-169 | each of the eleven strategies edits the word as the source does |
| Mutation.MutationGrowth | internal/generator/generator.go:103-169 | one edit adds between 0 and 6 characters |
| Mutation.CaseEditsKeepLowerForm | internal/generator/generator.go:105-155 | the case edits keep the lower-cased form |
| Mutation.UnderscoreRemovable | internal/generator/generator.go:126-128 | deleting the inserted underscore gives the word back |
| Mutation.ChainGrowth | internal/generator/generator.go:100-170 | n edits add between 0 and 6n characters |
| Mutation.FitLength | internal/generator/generator.go:172-189 | pads with common characters up to minLen, then cuts to maxLen from the front or the back |
| Mutation.FittedLength | internal/generator/generator.go:172-189 | the result is at most maxLen and at least minLen when minLen <= maxLen; exactly minLen and starting with the word when padded; exactly maxLen when cut; the word itself when it fits |
| Mutation.MutateOnce | internal/generator/generator.go:94-189 | one to three edits from the seed, then the length fix-up |
| Mutation.Mutate | internal/generator/generator.go:94-196 | an empty seed gives a common-character word within the length rule, or None (the panic of generateWithCharset) only for minLen < 0 and always for maxLen <= minLen < 0; otherwise any result differs from the seed, lies in [minLen, maxLen], and is a chain of one to three strategy edits starting at the seed followed by the length fix-up |
| Complexity.CalculateComplexity | internal/generator/generator.go:511-547 | the single-pass loop returns exactly the declarative sum `Score` |
| Complexity.ScoreBounds | internal/generator/generator.go:511-547 | the score is at least the length and at most the length plus 22, and 0 exactly for "" |
| Complexity.NewClassRaises | internal/generator/generator.go:539-544 | appending a digit or special character to a word that lacked one raises the score by more than one |
| Complexity.DigitAppendRaises | internal/generator/generator.go:511-547 | appending a digit raises the score by at least one |
| Complexity.OtherAppendKeeps | internal/generator/generator.go:511-547 | appending a special character never lowers the score |
| Complexity.MixedCaseKeeps | internal/generator/generator.go:508-547 | an all-lowercase word scores no more than any other word of the same length |
| Complexity.LowerOnlyScoresLength | internal/generator/generator.go:511-547 | lower-case letters alone score their length |
| Complexity.ScoreExample | internal/generator/generator.go:511-547 | `Password1` scores 21 |
| Similarity.Padded | internal/generator/similarity.go:42 | padding adds exactly three characters |
| Similarity.WindowsMembers | internal/generator/similarity.go:43-46 | the window set holds exactly the three-character slices starting below n, at most n of them |
| Similarity.TrigramsShape | internal/generator/similarity.go:40-48 | a trigram set is never empty, has at most |s|+1 elements, and holds exactly the windows of the padded word |
| Similarity.TrigramsHaveThree | internal/generator/similarity.go:40-48 | every trigram has three characters |
| Similarity.GetTrigrams | internal/generator/similarity.go:40-48 | the set-building loop returns exactly `Trigrams(s)` |
| Similarity.ScoreFormula | internal/generator/similarity.go:27-37 | for different words the score is common / (|A| + |B| - common), and that denominator is at least 1 |
| Similarity.JaccardRange | internal/generator/similarity.go:34-37 | the Jaccard index lies in [0, 1] and is 1 iff the two sets are equal |
| Similarity.ScoreRange | internal/generator/similarity.go:9-38 | the score lies in [0, 1] |
| Similarity.ScoreSymmetric | internal/generator/similarity.go:27-37 | the score does not depend on the order of the words |
| Similarity.ScoreIgnoresCase | internal/generator/similarity.go:10-15 | words equal after lower-casing score 1, and the score depends only on the lower-cased words |
| Similarity.CountCommon | internal/generator/similarity.go:27-32 | the counting loop returns the size of the intersection |
| Similarity.TrigramSimilarity | internal/generator/similarity.go:9-38 | the imperative computation returns exactly `Score`; the branches for empty trigram sets are unreachable |

## Left out

- Cryptographic randomness and the error results of `rand.Int`. `GetRandIdx` and `getRandIdxString` are `Random.RandomSource.Below`, which draws from a tape; the error branches of every generator are not modelled.
- Panics are results, not events: the generators return None where the source panics (`make` with a negative length, an index drawn below 0), and the model does not capture that a panic unwinds the caller.
- Iterators.SequentialIterator.constructor: it requires a non-empty charset when minLen > 0. The source constructs such an iterator and panics at the first `Next`, when it indexes the empty charset; the only construction in the package passes a non-empty charset.
- Mutation.Mutate: the source retries without bound while the result equals the seed. The model makes at most `fuel` attempts and returns None once they are spent. A `maxLen` below 0 with a non-empty seed, which makes the slice panic, is excluded.
- Mutation.Mutate: the promise that the result lies in [minLen, maxLen] is stated for a non-empty seed. An empty seed is described by the length rule of generateWithCharset instead.
- Expansion.ExpandCharset and Expansion.Expand: they require a charset segment's Min >= 1 or Min > Max. With Min = 0 the source's SequentialIterator returns "" for ever and `Expand` does not terminate. A negative Min <= Max is excluded too, since `make([]int, minLen)` in NewSequentialIterator (internal/generator/generator.go:224) panics.
- Expansion.RunSegmentedBrute: it requires at least one segment or a positive count, since with neither the loop never ends. It also requires every expansion to be non-empty, since an empty one is indexed at 0 and panics.
- Iterators.PatternedSequentialIterator.constructor: every position charset must be non-empty, since an empty one is indexed at 0 and panics.
- The callback of `RunSegmentedBrute` is replaced by the sequence of strings it would receive.
- Similarity.Score is an exact `real`; the float64 rounding of the division is not modelled.
- Characters are ASCII only. Unicode case mapping in `strings.ToLower` and `strings.ToUpper`, and the byte and rune mixing of the source, are outside the model.
- `strconv.Atoi` overflow on very long digit strings is not modelled. Digits are read as unbounded naturals, and a failed parse gives 0 as in the source.
- The fill of the seeded generator for a missing minimum draws no characters in the model: it is kept as the branch `if remMin > 0`, which holds only `assert false`, and `Generate.TargetAtLeastMin` proves that branch cannot be reached.
- The HTTP fetcher, the HTML evaluator, configuration loading, the command-line programs and the test server are outside the generator package and are not part of this model.
