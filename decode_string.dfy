/**
 * validate and decode_string (p2.py): a checker for the `k[letters]`
 * pattern and a decoder that scans the text once with a stack of counts, a
 * stack of strings, a current token and a running suffix.
 *
 * The decoder rebuilds the whole output at every `]` as `count` copies of
 * (popped string + suffix so far). That gives the usual expansion for a
 * single nested chain such as `2[b3[a]]`; for other shapes the model keeps
 * what the code computes, not an idealised grammar.
 */
module DecodeString {
  import opened Wrappers
  import opened Text

  // ---------------------------------------------------------------------
  // validate

  /** The bracket depth change of one character. */
  function Delta(c: char): int {
    if c == '[' then 1 else if c == ']' then -1 else 0
  }

  /** Opening brackets minus closing brackets in `s`: the height of validate's stack. */
  function Depth(s: string): int {
    if s == [] then 0 else Depth(s[..|s| - 1]) + Delta(s[|s| - 1])
  }

  /** A `[` at `i` has a digit right before it. */
  predicate OpenAfterDigit(s: string, i: nat)
    requires i < |s|
  {
    s[i] == '[' ==> i > 0 && IsDigit(s[i - 1])
  }

  /** The character right after a `[` is a letter. */
  predicate LetterAfterOpen(s: string, i: nat)
    requires i < |s|
  {
    i > 0 && s[i - 1] == '[' ==> IsLetter(s[i])
  }

  /**
   * Every position of `s` passes validate's checks: brackets placed between
   * a digit and a letter, and no `]` without an open `[`.
   */
  predicate ValidPrefix(s: string) {
    s == [] ||
    (ValidPrefix(s[..|s| - 1]) && OpenAfterDigit(s, |s| - 1) && LetterAfterOpen(s, |s| - 1) && Depth(s) >= 0)
  }

  /** What validate accepts: every check passes and no `[` is left open. */
  predicate IsValid(s: string) {
    ValidPrefix(s) && Depth(s) == 0
  }

  /** ValidPrefix, position by position: both directions. */
  lemma {:induction false} ValidPrefixMeans(s: string)
    ensures ValidPrefix(s) <==>
      forall i :: 0 <= i < |s| ==> OpenAfterDigit(s, i) && LetterAfterOpen(s, i) && Depth(s[..i + 1]) >= 0
  {
    if s != [] {
      var init := s[..|s| - 1];
      ValidPrefixMeans(init);
      assert s[..|s|] == s;
      forall i | 0 <= i < |init|
        ensures OpenAfterDigit(init, i) == OpenAfterDigit(s, i)
        ensures LetterAfterOpen(init, i) == LetterAfterOpen(s, i)
        ensures init[..i + 1] == s[..i + 1]
      {
      }
    }
  }

  /** validate rejects a `[` at index 0 or after a non-digit, e.g. "[b3[a]]". */
  lemma RejectsOpenWithoutCount(s: string, i: nat)
    requires i < |s| && s[i] == '[' && (i == 0 || !IsDigit(s[i - 1]))
    ensures !IsValid(s)
  {
    ValidPrefixMeans(s);
    assert !OpenAfterDigit(s, i);
  }

  /** validate rejects a `[` followed by a character that is not a letter, e.g. "2[b3[]]". */
  lemma RejectsOpenBeforeNonLetter(s: string, i: nat)
    requires i + 1 < |s| && s[i] == '[' && !IsLetter(s[i + 1])
    ensures !IsValid(s)
  {
    ValidPrefixMeans(s);
    assert !LetterAfterOpen(s, i + 1);
  }

  /**
   * validate rejects unbalanced brackets: a `]` with no open `[` before it
   * (e.g. "4[ab]]]"), or a `[` never closed (e.g. "4[ab").
   */
  lemma RejectsUnbalanced(s: string, k: nat)
    requires k <= |s| && (Depth(s[..k]) < 0 || Depth(s) != 0)
    ensures !IsValid(s)
  {
    ValidPrefixMeans(s);
    assert s[..0] == [];
    if Depth(s[..k]) < 0 {
      var j := k - 1;
      assert s[..j + 1] == s[..k];
      assert !(OpenAfterDigit(s, j) && LetterAfterOpen(s, j) && Depth(s[..j + 1]) >= 0);
    }
  }

  /** ValidPrefix and Depth read one more character. */
  lemma ValidStep(p: string, c: char)
    ensures Depth(p + [c]) == Depth(p) + Delta(c)
    ensures ValidPrefix(p + [c]) ==
      (ValidPrefix(p) && (c == '[' ==> p != [] && IsDigit(p[|p| - 1])) &&
       (p != [] && p[|p| - 1] == '[' ==> IsLetter(c)) && Depth(p) + Delta(c) >= 0)
  {
    assert (p + [c])[..|p|] == p;
  }

  /** validate: a left-to-right scan with a stack of open brackets. */
  method Validate(s: string) returns (ok: bool)
    requires IsAscii(s)
    ensures ok == IsValid(s)
  {
    var stack: seq<char> := [];
    assert s[..0] == [];
    for i := 0 to |s|
      invariant ValidPrefix(s[..i])
      invariant i < |s| ==> LetterAfterOpen(s, i)
      invariant |stack| == Depth(s[..i])
    {
      assert s[..i + 1][..i] == s[..i];
      if s[i] == '[' {
        // Check digit/letter pattern
        if i == 0 || !IsDigit(s[i - 1]) {
          RejectsOpenWithoutCount(s, i);
          return false;
        }
        if i < |s| - 1 && !IsLetter(s[i + 1]) {
          RejectsOpenBeforeNonLetter(s, i);
          return false;
        }
        stack := stack + ['['];
      } else if s[i] == ']' {
        // match brackets
        if |stack| == 0 {
          RejectsUnbalanced(s, i + 1);
          return false;
        }
        stack := stack[..|stack| - 1];
      }
    }
    assert s[..|s|] == s;
    ok := |stack| == 0;
  }

  // ---------------------------------------------------------------------
  // decode_string

  /** The decoder's state between two characters. */
  datatype Scan = Scan(counts: seq<nat>, strings: seq<string>, token: string, suffix: string)

  const Start := Scan([], [], "", "")

  /**
   * The first block of decode_string's loop on `c`: a digit or `]` ends a
   * non-empty token, which goes onto the string stack; otherwise a `[`
   * turns the token into a count. None where `int()` of the token would
   * raise.
   */
  function Flush(st: Scan, c: char): Option<Scan> {
    if (IsDigit(c) || c == ']') && |st.token| > 0 then
      Some(st.(strings := st.strings + [st.token], token := ""))
    else if c == '[' then
      if IsNumeral(st.token) then Some(st.(counts := st.counts + [NumeralValue(st.token)], token := ""))
      else None
    else Some(st)
  }

  /**
   * The second block on `]`: pop a count and a string and make the suffix
   * `count` copies of (string + suffix). None where a pop would raise on an
   * empty stack.
   */
  function Close(st: Scan): Option<Scan> {
    if st.counts == [] || st.strings == [] then None
    else
      var count, str := st.counts[|st.counts| - 1], st.strings[|st.strings| - 1];
      Some(Scan(st.counts[..|st.counts| - 1], st.strings[..|st.strings| - 1], st.token,
                Repeat(str + st.suffix, count)))
  }

  /** The third block: letters and digits extend the token. */
  function Extend(st: Scan, c: char): Scan {
    if IsDigit(c) || IsLetter(c) then st.(token := st.token + [c]) else st
  }

  /** One iteration of decode_string's loop on `c`; None where the code would raise. */
  function Step(st: Scan, c: char): Option<Scan>
  {
    match Flush(st, c)
    case None => None
    case Some(m) =>
      if c != ']' then Some(Extend(m, c))
      else
        match Close(m)
        case None => None
        case Some(n) => Some(Extend(n, c))
  }

  /** The state after the loop has read all of `s`, or None if it raised on the way. */
  function Run(s: string): Option<Scan>
  {
    if s == [] then Some(Start)
    else
      match Run(s[..|s| - 1])
      case None => None
      case Some(st) => Step(st, s[|s| - 1])
  }

  /** Run reads one more character by one more Step. */
  lemma RunStep(p: string, c: char)
    requires Run(p).Some?
    ensures Run(p + [c]) == Step(Run(p).value, c)
  {
    assert (p + [c])[..|p|] == p;
  }

  /** On a letter the loop only extends the token. */
  lemma StepLetter(st: Scan, c: char)
    requires IsLetter(c)
    ensures Step(st, c) == Some(st.(token := st.token + [c]))
  {
  }

  /** On a digit the loop ends a non-empty token and starts a new one holding the digit alone. */
  lemma StepDigit(st: Scan, c: char)
    requires IsDigit(c)
    ensures Step(st, c) == Some(if st.token == "" then st.(token := [c])
                                else st.(strings := st.strings + [st.token], token := [c]))
  {
    var empty: string := "";
    assert empty + [c] == [c];
  }

  /** On `[` the token is read as a count and pushed. */
  lemma StepOpen(st: Scan)
    requires IsNumeral(st.token)
    ensures Step(st, '[') == Some(st.(counts := st.counts + [NumeralValue(st.token)], token := ""))
  {
  }

  /** On `]` with a token and nothing on the string stack, the token itself is popped at once. */
  lemma StepClose(st: Scan)
    requires st.counts != [] && (st.strings != [] || st.token != "")
    ensures var strings := if st.token == "" then st.strings else st.strings + [st.token];
      Step(st, ']') == Some(Scan(st.counts[..|st.counts| - 1], strings[..|strings| - 1], "",
        Repeat(strings[|strings| - 1] + st.suffix, st.counts[|st.counts| - 1])))
  {
  }

  /**
   * The first block raises exactly at a `[` whose token is not a number,
   * never touches the suffix, and pushes one count, clearing the token,
   * exactly at `[`.
   */
  lemma FlushOutcome(st: Scan, c: char)
    ensures Flush(st, c).None? <==> c == '[' && !IsNumeral(st.token)
    ensures Flush(st, c).Some? ==> Flush(st, c).value.suffix == st.suffix
    ensures Flush(st, c).Some? && c == '[' ==>
      |Flush(st, c).value.counts| == |st.counts| + 1 && Flush(st, c).value.token == ""
    ensures Flush(st, c).Some? && c != '[' ==> Flush(st, c).value.counts == st.counts
  {
  }

  /**
   * The pops raise exactly when a stack is empty; otherwise each stack loses
   * its top, the token stays, and the new suffix has count times (string +
   * old suffix) characters.
   */
  lemma CloseOutcome(st: Scan)
    ensures Close(st).None? <==> st.counts == [] || st.strings == []
    ensures Close(st).Some? ==>
      |Close(st).value.counts| + 1 == |st.counts| && |Close(st).value.strings| + 1 == |st.strings|
    ensures Close(st).Some? ==> Close(st).value.token == st.token
    ensures Close(st).Some? ==>
      |Close(st).value.suffix| == st.counts[|st.counts| - 1] * (|st.strings[|st.strings| - 1]| + |st.suffix|)
  {
    if Close(st).Some? {
      RepeatLength(st.strings[|st.strings| - 1] + st.suffix, st.counts[|st.counts| - 1]);
    }
  }

  /** The third block only appends to the token, one character exactly when it is a digit or a letter. */
  lemma ExtendOutcome(st: Scan, c: char)
    ensures Extend(st, c).counts == st.counts && Extend(st, c).strings == st.strings
    ensures Extend(st, c).suffix == st.suffix
    ensures |st.token| <= |Extend(st, c).token| <= |st.token| + 1
    ensures Extend(st, c).token[..|st.token|] == st.token
    ensures |Extend(st, c).token| > |st.token| <==> IsDigit(c) || IsLetter(c)
  {
  }

  /**
   * One iteration raises exactly at a `[` after a token that is not a
   * number, or at a `]` with no count or nothing to pop; otherwise the count
   * stack follows the bracket depth and the suffix changes only at `]`.
   */
  lemma StepOutcome(st: Scan, c: char)
    ensures Step(st, c).None? <==>
      (c == '[' && !IsNumeral(st.token)) ||
      (c == ']' && (st.counts == [] || (st.strings == [] && st.token == "")))
    ensures Step(st, c).Some? ==> |Step(st, c).value.counts| == |st.counts| + Delta(c)
    ensures Step(st, c).Some? && c != ']' ==> Step(st, c).value.suffix == st.suffix
  {
  }

  /** Whenever the loop has not raised, the count stack is as high as the brackets read are deep. */
  lemma {:induction false} RunTracksDepth(s: string)
    requires Run(s).Some?
    ensures |Run(s).value.counts| == Depth(s)
  {
    if s != [] {
      RunTracksDepth(s[..|s| - 1]);
      StepOutcome(Run(s[..|s| - 1]).value, s[|s| - 1]);
    }
  }

  /** A prefix of a run that did not raise did not raise either. */
  lemma {:induction false} RunPrefix(s: string, k: nat)
    requires k <= |s| && Run(s).Some?
    ensures Run(s[..k]).Some?
    decreases |s| - k
  {
    assert s[..|s|] == s;
    if k < |s| {
      assert s[..k + 1][..k] == s[..k];
      RunPrefix(s, k + 1);
    }
  }

  /** Facts about the loop state after a prefix of a valid text, which keep every pop and every `int()` safe. */
  ghost predicate Safe(p: string, st: Scan) {
    |st.counts| == Depth(p) &&
    (p != [] && IsDigit(p[|p| - 1]) ==> st.token == [p[|p| - 1]] && |st.strings| >= |st.counts|) &&
    (p != [] && p[|p| - 1] == '[' ==> st.token == "" && |st.strings| + 1 >= |st.counts|) &&
    (p == [] || p[|p| - 1] != '[' ==> |st.strings| + (if st.token == "" then 0 else 1) >= |st.counts|)
  }

  lemma StepSafeOpen(p: string, st: Scan)
    requires Safe(p, st) && p != [] && IsDigit(p[|p| - 1])
    ensures Step(st, '[').Some? && Safe(p + ['['], Step(st, '[').value)
  {
    var q := p + ['['];
    assert q[..|p|] == p && q[|q| - 1] == '[';
    assert IsNumeral(st.token);
  }

  lemma StepSafeClose(p: string, st: Scan)
    requires Safe(p, st) && Depth(p) >= 1
    requires p[|p| - 1] != '['
    ensures Step(st, ']').Some? && Safe(p + [']'], Step(st, ']').value)
  {
    var q := p + [']'];
    assert q[..|p|] == p && q[|q| - 1] == ']';
    var m := Flush(st, ']').value;
    assert |m.strings| >= |m.counts| >= 1 && m.token == "";
    assert Close(m).Some?;
  }

  lemma StepSafeOther(p: string, st: Scan, c: char)
    requires Safe(p, st) && c != '[' && c != ']'
    requires p != [] && p[|p| - 1] == '[' ==> IsLetter(c)
    ensures Step(st, c).Some? && Safe(p + [c], Step(st, c).value)
  {
    var q := p + [c];
    assert q[..|p|] == p && q[|q| - 1] == c;
    assert Depth(q) == Depth(p);
  }

  /** A character that validate lets through keeps the loop state safe. */
  lemma StepSafe(p: string, st: Scan, c: char)
    requires Safe(p, st) && Depth(p) >= 0
    requires c == '[' ==> p != [] && IsDigit(p[|p| - 1])
    requires p != [] && p[|p| - 1] == '[' ==> IsLetter(c)
    requires Depth(p + [c]) >= 0
    ensures Step(st, c).Some? && Safe(p + [c], Step(st, c).value)
  {
    if c == '[' {
      StepSafeOpen(p, st);
    } else if c == ']' {
      var q := p + [c];
      assert q[..|p|] == p && q[|q| - 1] == c;
      StepSafeClose(p, st);
    } else {
      StepSafeOther(p, st, c);
    }
  }

  /**
   * On validated input neither stack underflows and every count token is a
   * number: the loop runs to the end without raising.
   */
  lemma {:induction false} ValidRunsToEnd(s: string)
    requires IsValid(s)
    ensures Run(s).Some?
  {
    ValidPrefixMeans(s);
    assert s[..0] == [];
    for k := 0 to |s|
      invariant Run(s[..k]).Some? && Safe(s[..k], Run(s[..k]).value)
    {
      var p := s[..k];
      assert s[..k + 1] == p + [s[k]] && s[..k + 1][..k] == p;
      assert OpenAfterDigit(s, k) && LetterAfterOpen(s, k) && Depth(s[..k + 1]) >= 0;
      if k > 0 {
        assert Depth(s[..k - 1 + 1]) >= 0;
      }
      StepSafe(p, Run(p).value, s[k]);
    }
    assert s[..|s|] == s;
  }

  /**
   * The suffix changes only at a `]`, and there it becomes `count` copies of
   * (popped string + old suffix), the popped string being the current token
   * when there is one.
   */
  lemma SuffixChangesOnlyAtClose(s: string, i: nat)
    requires i < |s| && Run(s[..i + 1]).Some?
    ensures Run(s[..i]).Some?
    ensures s[i] != ']' ==> Run(s[..i + 1]).value.suffix == Run(s[..i]).value.suffix
    ensures s[i] == ']' ==>
      var before := Run(s[..i]).value;
      var strings := if before.token == "" then before.strings else before.strings + [before.token];
      before.counts != [] && strings != [] &&
      Run(s[..i + 1]).value.suffix
        == Repeat(strings[|strings| - 1] + before.suffix, before.counts[|before.counts| - 1])
  {
    assert s[..i + 1][..i] == s[..i];
  }

  /** Text without a `]` leaves the suffix empty, so "" and bracket-free text decode to "". */
  lemma {:induction false} NoCloseNoOutput(s: string)
    requires ']' !in s && Run(s).Some?
    ensures Run(s).value.suffix == ""
  {
    if s != [] {
      assert s == s[..|s| - 1] + [s[|s| - 1]];
      NoCloseNoOutput(s[..|s| - 1]);
    }
  }

  /** A letter or digit that occurs in `s`. */
  ghost predicate Drawn(x: char, s: string) {
    x in s && (IsLetter(x) || IsDigit(x))
  }

  /** Every character in the state is a letter or digit taken from `s`. */
  ghost predicate FromText(s: string, st: Scan) {
    (forall x :: x in st.token ==> Drawn(x, s)) &&
    (forall w, x :: w in st.strings && x in w ==> Drawn(x, s)) &&
    (forall x :: x in st.suffix ==> Drawn(x, s))
  }

  /** A state drawn from a text is drawn from any longer one. */
  lemma FromLongerText(p: string, c: char, st: Scan)
    requires FromText(p, st)
    ensures FromText(p + [c], st)
  {
  }

  /** One step on a character of `s` keeps the state drawn from `s`. */
  lemma StepFromText(s: string, st: Scan, c: char)
    requires FromText(s, st) && c in s && Step(st, c).Some?
    ensures FromText(s, Step(st, c).value)
  {
    if c == ']' {
      var strings := if st.token == "" then st.strings else st.strings + [st.token];
      var str := strings[|strings| - 1];
      assert str in strings;
      forall x | x in Repeat(str + st.suffix, st.counts[|st.counts| - 1])
        ensures Drawn(x, s)
      {
        assert x in str + st.suffix;
      }
    }
  }

  /**
   * The decoded text holds only letters and digits that occur in the input.
   * Digits can appear: on "1[a2]", which validate accepts, the popped string
   * is the token "2".
   */
  lemma {:induction false} OutputFromInput(s: string)
    requires Run(s).Some?
    ensures FromText(s, Run(s).value)
  {
    if s != [] {
      var init, c := s[..|s| - 1], s[|s| - 1];
      assert s == init + [c];
      OutputFromInput(init);
      FromLongerText(init, c, Run(init).value);
      StepFromText(s, Run(init).value, c);
    }
  }

  /** `n` copies of `w` laid end to end, built by repeated concatenation. */
  method Concat(w: string, n: nat) returns (r: string)
    ensures r == Repeat(w, n)
  {
    r := "";
    for k := 0 to n
      invariant r == Repeat(w, k)
    {
      r := r + w;
    }
  }

  /**
   * The body of decode_string's loop on one character, on a state where it
   * does not raise: the imperative rendering of `Step`, over local copies of
   * the stacks, the token and the suffix.
   */
  method Advance(st: Scan, c: char) returns (next: Scan)
    requires Step(st, c).Some?
    ensures Some(next) == Step(st, c)
  {
    var counts, strings, token, suffix := st.counts, st.strings, st.token, st.suffix;
    // string endpoint
    if (IsDigit(c) || c == ']') && |token| > 0 {
      strings := strings + [token];
      token := "";
    // number endpoint
    } else if c == '[' {
      counts := counts + [NumeralValue(token)];
      token := "";
    }
    // pop the latest values and create a new suffix
    if c == ']' {
      var count, str := counts[|counts| - 1], strings[|strings| - 1];
      counts, strings := counts[..|counts| - 1], strings[..|strings| - 1];
      suffix := Concat(str + suffix, count);
    }
    // update the current value
    if IsDigit(c) || IsLetter(c) {
      token := token + [c];
    }
    next := Scan(counts, strings, token, suffix);
  }

  /**
   * decode_string: None exactly when validate rejects the text; otherwise
   * the final suffix of the loop, which never pops an empty stack.
   */
  method Decode(s: string) returns (r: Option<string>)
    requires IsAscii(s)
    ensures r.None? <==> !IsValid(s)
    ensures r.Some? ==> Run(s).Some? && r.value == Run(s).value.suffix
    ensures r.Some? ==> forall c :: c in r.value ==> Drawn(c, s)
  {
    var valid := Validate(s);
    if !valid {
      return None;
    }
    ValidRunsToEnd(s);

    var st := Start;
    var iter := 0;
    assert s[..0] == [];
    while iter < |s|
      invariant iter <= |s|
      invariant Run(s[..iter]) == Some(st)
    {
      RunPrefix(s, iter + 1);
      assert s[..iter + 1][..iter] == s[..iter];
      st := Advance(st, s[iter]);
      iter := iter + 1;
    }
    assert s[..|s|] == s;
    OutputFromInput(s);
    r := Some(st.suffix);
  }
}
