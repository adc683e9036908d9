# Mobile-Calendar string and array exercises, modelled in Dafny

The repository holds a calendar app: a Flask/MySQL backend and a Swift front
end. It also holds three self-contained Python exercises, each with unit
tests. This project models those three exercises and proves properties of the
models.

- `sort_by_strings` (p1.py) reorders the letters of `s` by the order in which
  they first appear in a pattern `t`.
  - It lower-cases both strings.
  - It counts the letters of `s` in a 26-slot array.
  - It then walks `t` and overwrites a copy of `s` run by run.
  - It returns None when either string is not all letters (this includes the
    empty string) or when `t` misses a letter of `s`.
- `validate` and `decode_string` (p2.py) check and expand the `k[letters]`
  pattern.
  - The validator scans with a bracket stack.
  - The decoder scans with a stack of counts, a stack of strings, a current
    token and a running `suffix`. At every `]` the suffix becomes `count`
    copies of (popped string + old suffix).
  - That scheme gives the expected expansion for one nested chain such as
    `2[b3[a]]`. The model keeps what the code computes and claims no general
    grammar.
  - Two inputs show what the code does outside its tests:
    - `"1[a2]"` passes the validator and decodes to `"2"`. A digit inside the
      brackets ends the string that gets popped.
    - `"12[a]"` decodes to `"aa"`. Each digit ends the token before it, so
      only the last digit of a count is read.
- `change_possibilities` (p3.py) is the coin-change dynamic programme. It
  counts the combinations of coins summing to `amount` in one array that
  nested loops update in place.

Files:

- `wrappers.dfy`: `Option`, the model of Python's `None` results.
- `text.dfy`: ASCII character classes, `lower()`, `int()` of a digit string,
  and repetition of a string.
- `sort_by_strings.dfy`: the counting sort as methods over arrays.
  - It is proved against `Arrange`, a specification function. `Arrange`
    places the letters of `s` run by run in pattern order.
  - `Arrange` is shown to be the only permutation of `s.lower()` that
    respects the pattern order.
- `decode_string.dfy`: the validator as a method over a stack, and the
  decoder as a method whose state is a `Scan`.
  - It is proved against `Run`, a left fold of `Step`. `Step` is one
    iteration of the Python loop.
  - `Step` and `Run` return None where the Python code would raise.
- `decode_examples.dfy`: the p2.py test vectors, worked through one character
  at a time.
- `change_possibilities.dfy`: the DP as a method over an array.
  - It is proved against `Combinations`, a reference count. `Combinations`
    chooses how many copies of the last coin to use, then recurses on the
    other coins.

## Model

| member | source | states |
|---|---|---|
| Text.ToLower | p1.py:21 | a letter becomes lower-case, an upper-case letter keeps its place in the alphabet, and anything else is unchanged |
| Text.Lower | p1.py:21 | `s.lower()` keeps the length of `s`, and on an all-letter string every character of the result is a lower-case letter |
| Text.IsAlpha | p1.py:18 | `isalpha()` is false on the empty string, and true only when every character is a letter |
| Text.NumeralValue | p2.py:28 | `int()` of a single digit is that digit's value, and the value of a digit string of length n is below 10^n |
| Text.Repeat | p2.py:34-37 | `count` copies of a string contain only characters of that string |
| Text.RepeatLength | p2.py:34-37 | n copies of w have n·\|w\| characters |
| Text.RepeatCount | p1.py:32-35 | a run of n copies of a letter holds that letter exactly n times |
| SortByStrings.Slot | p1.py:24-26 | `ord(c) - ord(FIRST_CHAR)` of a lower-case letter is a slot in 0..CHAR_COUNT-1 |
| SortByStrings.Letter | p1.py:24-26 | each of the 26 slots belongs to exactly one lower-case letter, the inverse of Slot |
| SortByStrings.Position | p1.py:30-35 | a letter's position in the pattern is within the pattern and points at that letter |
| SortByStrings.PositionIsFirst | p1.py:30-35 | the position is the first occurrence, and it equals the pattern's length exactly when the letter is absent |
| SortByStrings.ArrangeAccountsForAll | p1.py:29-35 | after any prefix of the pattern, the letters written plus the counts still pending are exactly the letters of `s` |
| SortByStrings.PendingMembers | p1.py:37-39 | a letter is left over exactly when it occurs in `s` and not in `t`, which is the case `iter != len(to_sort)` catches |
| SortByStrings.ArrangeMembers | p1.py:30-35 | every letter written comes from the pattern |
| SortByStrings.ArrangeInPatternOrder | p1.py:29-35 | the letters written follow the order of first appearance in the pattern |
| SortByStrings.ArrangePermutes | p1.py:21-41 | when the pattern covers `s`, the result is a permutation of `s.lower()`, has `len(s)` characters and is in pattern order |
| SortByStrings.PatternOrderUnique | p1.py:29-35 | two permutations of the same covered letters that are both in pattern order are equal |
| SortByStrings.ArrangeIsTheOnlyOrdering | p1.py:7-16 | any permutation of `s.lower()` in pattern order is the result, so the contract determines the output |
| SortByStrings.NeighboursSuffice | p1.py:29-35 | pattern order between neighbours implies it between every pair |
| SortByStrings.WriteRun | p1.py:31-35 | the inner loop writes `counts[index]` copies of `c` from `iter` on, advances `iter` by that many, zeroes that count, changes no other count and leaves the cells after the run untouched |
| SortByStrings.CountLetters | p1.py:23-26 | after the first loop every slot holds the number of occurrences of its letter in `s.lower()` |
| SortByStrings.OrderLetters | p1.py:28-35 | after the pattern loop the first `iter` cells hold the arrangement, `iter` never exceeds `len(to_sort)`, `iter` plus the letters left over equals `len(s)`, every count holds its letter's leftover (0 for each letter of `t`, by PendingMembers) and the cells from `iter` on are untouched |
| SortByStrings.PatternStep | p1.py:30-35 | one letter of the pattern appends its pending run and drops its count to zero |
| SortByStrings.SortBy | p1.py:7-41 | None exactly when `s` or `t` is empty or holds a non-letter, or `t` lacks a letter of `s`; otherwise the result is the arrangement, has `len(s)` lower-case letters, is a permutation of `s.lower()` and is in `t.lower()` order |
| SortByStrings.Example | p1.py:7-41 | a permutation of `s.lower()` whose neighbours follow the pattern is the answer for `(s, t)` |
| SortByStrings.CardExample | p1.py:48 | `("drac","carding")` gives `"card"` |
| SortByStrings.GuardExample | p1.py:49 | `("agurd","guards")` gives `"guard"` |
| SortByStrings.ZaExample | p1.py:52 | `("az","za")` gives `"za"` |
| SortByStrings.ZhaExample | p1.py:53 | `("AHZ","JZHAG")` gives `"zha"`, lower-cased whatever the input case |
| SortByStrings.TheerawExample | p1.py:54 | `("weather","therapyw")` gives `"theeraw"` |
| SortByStrings.UnsortableExamples | p1.py:50-55 | `("14numbers5","number")`, `("agurd","guar")` and `("","test")` give None |
| DecodeString.ValidPrefixMeans | p2.py:48-61 | the recursive form of validate's checks is equivalent, in both directions, to all positions passing them |
| DecodeString.RejectsOpenWithoutCount | p2.py:52-54 | a `[` at index 0 or after a non-digit makes the text invalid |
| DecodeString.RejectsOpenBeforeNonLetter | p2.py:52-55 | a `[` followed by a non-letter makes the text invalid |
| DecodeString.RejectsUnbalanced | p2.py:58-63 | a prefix with more `]` than `[`, or a text whose brackets do not balance, is invalid |
| DecodeString.ValidStep | p2.py:50-61 | reading one more character adds its bracket to the depth, and the prefix stays valid exactly when that character passes validate's checks |
| DecodeString.Validate | p2.py:48-63 | validate returns true exactly when every `[` sits between a digit and a letter (or ends the text), no `]` closes an absent `[` and no `[` stays open |
| DecodeString.FlushOutcome | p2.py:21-29 | the first block raises exactly at a `[` whose token is not a number, never touches the suffix, and pushes one count (clearing the token) exactly at `[` |
| DecodeString.CloseOutcome | p2.py:31-37 | the pops raise exactly when a stack is empty; otherwise each stack loses one entry, the token is kept and the new suffix has count × (string length + old suffix length) characters |
| DecodeString.ExtendOutcome | p2.py:39-41 | the third block only ever appends to the token, by one character exactly when it is a digit or a letter |
| DecodeString.StepOutcome | p2.py:19-43 | one iteration raises exactly at a `[` after a non-numeric token or at a `]` with no count or nothing to pop; otherwise the count stack grows by the character's bracket depth change, and the suffix changes only at `]` |
| DecodeString.RunTracksDepth | p2.py:15-43 | whenever the loop has not raised, the count stack is exactly as high as the brackets read so far are deep |
| DecodeString.RunStep | p2.py:19-43 | the state after one more character is one more loop iteration on it |
| DecodeString.StepLetter | p2.py:39-41 | a letter only extends the current token |
| DecodeString.StepDigit | p2.py:21-24 | a digit pushes a non-empty token onto the string stack and starts a token holding that digit alone |
| DecodeString.StepOpen | p2.py:26-29 | a `[` pushes `int()` of the token onto the count stack and clears the token |
| DecodeString.StepClose | p2.py:21-37 | a `]` pushes a non-empty token, pops a count and a string, and makes the suffix `count` copies of (string + old suffix) |
| DecodeString.RunPrefix | p2.py:19-43 | if the loop gets through a text without raising, it gets through every prefix |
| DecodeString.StepSafe | p2.py:19-43 | a character that passes validate's checks keeps the stacks in step with the bracket depth, so the iteration does not raise |
| DecodeString.ValidRunsToEnd | p2.py:12-43 | on validated input neither stack underflows and every count is a number, so the loop runs to the end |
| DecodeString.SuffixChangesOnlyAtClose | p2.py:31-37 | the suffix changes only at a `]`, where it becomes `count` copies of (popped string + old suffix) |
| DecodeString.NoCloseNoOutput | p2.py:16-45 | a text without `]`, the empty text included, decodes to `""` |
| DecodeString.StepFromText | p2.py:21-41 | an iteration on a character of `s` only puts letters and digits of `s` into the token, the stacks and the suffix |
| DecodeString.OutputFromInput | p2.py:15-45 | every character of the decoder's state is a letter or digit occurring in the input |
| DecodeString.Concat | p2.py:34-36 | the `for i in range(count)` loop builds `count` copies of (string + suffix) |
| DecodeString.Advance | p2.py:21-43 | the loop body computes exactly one `Step` on a state where it does not raise |
| DecodeString.Decode | p2.py:3-45 | None exactly when validate rejects the text; otherwise the loop's final suffix, made of letters and digits of the input |
| DecodeExamples.CountThenOpen | p2.py:52-56 | a count digit followed by `[` passes validate's checks one bracket deep |
| DecodeExamples.OpenTwoLetters | p2.py:52-56 | a count digit, `[` and two letters pass validate's checks one bracket deep |
| DecodeExamples.OuterClose | p2.py:31-37 | the `]` closing the last bracket, with one count and one string left, empties both stacks and makes the suffix count copies of (string + suffix) |
| DecodeExamples.FourAbDecodes | p2.py:70 | `"4[ab]"` is valid and decodes to `"abababab"` |
| DecodeExamples.NestedDecodes | p2.py:71 | `"2[b3[a]]"` is valid and decodes to `"baaabaaa"` |
| DecodeExamples.DeepDecodes | p2.py:72 | `"2[az1[bb2[c]]]"` is valid and decodes to `"azbbccazbbcc"` |
| DecodeExamples.EmptyDecodes | p2.py:73 | `""` is valid and decodes to `""` |
| DecodeExamples.UnclosedRejected | p2.py:76 | `"2[b3[a]"` is rejected |
| DecodeExamples.OpenFirstRejected | p2.py:77 | `"[b3[a]]"` is rejected |
| DecodeExamples.EmptyBracketsRejected | p2.py:78 | `"2[b3[]]"` is rejected |
| DecodeExamples.NeverClosedRejected | p2.py:79 | `"4[ab"` is rejected |
| DecodeExamples.ExtraCloseRejected | p2.py:80 | `"4[ab]]]"` is rejected |
| DecodeExamples.DigitInsideDecodes | p2.py:21-41 | `"1[a2]"` is valid and decodes to `"2"`: the output can hold digits |
| DecodeExamples.TwoDigitsDecodes | p2.py:21-29 | `"12[a]"` is valid and decodes to `"aa"`: only the last digit of a count is read |
| ChangePossibilities.CopiesShift | p3.py:14-16 | using up to m copies of coin d for n splits into using none plus using at least one (n−d with up to m−1 copies) |
| ChangePossibilities.AddCoin | p3.py:14-16 | the ways to make n with one more coin d are the ways without it plus the ways to make n−d with it, the update `arr[j] += arr[j - d]` |
| ChangePossibilities.LargeCoinChangesNothing | p3.py:15 | a coin larger than the amount adds no way, matching the empty inner range |
| ChangePossibilities.MoreCoinsMoreWays | p3.py:14-16 | adding a coin never lowers the number of ways, so `arr` entries never decrease |
| ChangePossibilities.ZeroAmountOneWay | p3.py:11-12 | the amount 0 has exactly one combination, for any coins |
| ChangePossibilities.ChangePossibilities | p3.py:3-18 | the result is the number of combinations of `denominations` summing to `amount`; after `i` coins every `arr[j]` counts the combinations of the first `i` coins |
| ChangePossibilities.OnlyOnes | p3.py:14-16 | with coins [1] every amount has one combination |
| ChangePossibilities.OnesAndTwos | p3.py:14-16 | with coins [1,2] the amount n has n/2+1 combinations |
| ChangePossibilities.WithThrees | p3.py:14-16 | with coins [1,2,3] the count is n/2+1 plus the count for n−3 |
| ChangePossibilities.WorkedExamples | p3.py:25-28 | (4,[1,2,3]) gives 4, (6,[1,2,3]) gives 7, (0,[1,2]) gives 1 and (7,[1,2,3,7]) gives 9 |

## Left out

- The calendar backend (Flask routes, MySQL connection handling, SQL and JSON formatting in `CalendarBackend/`) and the Swift front end in `CalendarMobile/` are I/O and user interface, with no algorithm of their own.
- The `unittest` test classes of p1.py, p2.py and p3.py are not modelled as code; their vectors appear as lemmas.
- Python's `isalpha`, `isdigit` and `lower` accept all of Unicode. `SortBy`, `Validate` and `Decode` require ASCII text, where the 26-slot indexing of p1.py is sound.
- ChangePossibilities.ChangePossibilities: requires positive denominations. A zero or negative coin makes the Python loop double entries or index from the end of the list, which the doc-comment does not describe.
- ChangePossibilities.ChangePossibilities: takes `amount` as a natural number. A negative amount makes `arr` empty, so `arr[0] = 1` (p3.py:12) raises IndexError.
- DecodeString.Decode: the exceptions the loop could raise (`int('')`, `int` of letters, a pop from an empty list) appear only as None results of `Step` and `Run`. `ValidRunsToEnd` shows they cannot happen after validation.
- DecodeString.OutputFromInput: states that the output holds letters and digits of the input, not letters only. `"1[a2]"` decodes to `"2"` (`DigitInsideDecodes`).
- Decoding of sibling groups or trailing letters (`"2[a]2[b]"`, `"a2[b]"`) is modelled only as the code computes it. No conventional expansion is claimed for them.
