/**
 * The decoder's test vectors from p2.py, worked through one character at a
 * time, and two inputs that show what the code does outside them.
 */
module DecodeExamples {
  import opened Wrappers
  import opened Text
  import opened DecodeString

  /** A count digit followed by `[` is a valid prefix one bracket deep. */
  lemma CountThenOpen(d: char)
    requires IsDigit(d)
    ensures ValidPrefix([d, '[']) && Depth([d, '[']) == 1
  {
    ValidStep([], d);
    assert [] + [d] == [d] && [d] + ['['] == [d, '['];
    ValidStep([d], '[');
  }

  /** A count digit, `[` and two letters are a valid prefix one bracket deep. */
  lemma OpenTwoLetters(d: char, x: char, y: char)
    requires IsDigit(d) && IsLetter(x) && IsLetter(y)
    ensures ValidPrefix([d, '[', x, y]) && Depth([d, '[', x, y]) == 1
  {
    CountThenOpen(d);
    assert [d, '['] + [x] == [d, '[', x] && [d, '[', x] + [y] == [d, '[', x, y];
    ValidStep([d, '['], x);
    ValidStep([d, '[', x], y);
  }

  /**
   * The `]` that closes the outermost bracket, with one count and one string
   * left and no token: both stacks empty and the suffix becomes `n` copies
   * of (string + suffix).
   */
  lemma OuterClose(n: nat, w: string, inner: string)
    ensures Step(Scan([n], [w], "", inner), ']') == Some(Scan([], [], "", Repeat(w + inner, n)))
  {
    StepClose(Scan([n], [w], "", inner));
  }

  lemma FourAbRun2()
    ensures Run("4[") == Some(Scan([4], [], "", ""))
  {
    assert "" + ['4'] == "4";
    RunStep("", '4');
    StepDigit(Scan([], [], "", ""), '4');
    assert "4" + ['['] == "4[";
    RunStep("4", '[');
    assert IsNumeral("4") && NumeralValue("4") == 4;
    StepOpen(Scan([], [], "4", ""));
    assert Scan([], [], "4", "").counts + [4] == [4];
  }

  lemma FourAbRun4()
    ensures Run("4[ab") == Some(Scan([4], [], "ab", ""))
  {
    FourAbRun2();
    assert "4[" + ['a'] == "4[a";
    RunStep("4[", 'a');
    StepLetter(Scan([4], [], "", ""), 'a');
    assert Scan([4], [], "", "").token + ['a'] == "a";
    assert "4[a" + ['b'] == "4[ab";
    RunStep("4[a", 'b');
    StepLetter(Scan([4], [], "a", ""), 'b');
    assert Scan([4], [], "a", "").token + ['b'] == "ab";
  }

  lemma FourAbRun()
    ensures Run("4[ab]") == Some(Scan([], [], "", "abababab"))
  {
    FourAbRun4();
    assert "4[ab" + [']'] == "4[ab]";
    RunStep("4[ab", ']');
    FourAbStep5();
  }

  lemma FourAbStep5()
    ensures Step(Scan([4], [], "ab", ""), ']') == Some(Scan([], [], "", "abababab"))
  {
    StepClose(Scan([4], [], "ab", ""));
    assert Scan([4], [], "ab", "").strings + ["ab"] == ["ab"];
    assert ["ab"][..0] == [] && ["ab"][0] == "ab";
    assert [4][..0] == [] && [4][0] == 4;
    assert "ab" + "" == "ab";
    assert Repeat("ab", 4) == "abababab";
  }

  lemma FourAbValid()
    ensures ValidPrefix("4[ab]") && Depth("4[ab]") == 0
  {
    OpenTwoLetters('4', 'a', 'b');
    assert "4[ab" == ['4', '[', 'a', 'b'];
    assert "4[ab" + [']'] == "4[ab]";
    ValidStep("4[ab", ']');
  }

  lemma NestedRun2()
    ensures Run("2[") == Some(Scan([2], [], "", ""))
  {
    assert "" + ['2'] == "2";
    RunStep("", '2');
    StepDigit(Scan([], [], "", ""), '2');
    assert "2" + ['['] == "2[";
    RunStep("2", '[');
    assert IsNumeral("2") && NumeralValue("2") == 2;
    StepOpen(Scan([], [], "2", ""));
    assert Scan([], [], "2", "").counts + [2] == [2];
  }

  lemma NestedRun4()
    ensures Run("2[b3") == Some(Scan([2], ["b"], "3", ""))
  {
    NestedRun2();
    assert "2[" + ['b'] == "2[b";
    RunStep("2[", 'b');
    StepLetter(Scan([2], [], "", ""), 'b');
    assert Scan([2], [], "", "").token + ['b'] == "b";
    assert "2[b" + ['3'] == "2[b3";
    RunStep("2[b", '3');
    StepDigit(Scan([2], [], "b", ""), '3');
    assert Scan([2], [], "b", "").strings + ["b"] == ["b"];
  }

  lemma NestedRun6()
    ensures Run("2[b3[a") == Some(Scan([2, 3], ["b"], "a", ""))
  {
    NestedRun4();
    assert "2[b3" + ['['] == "2[b3[";
    RunStep("2[b3", '[');
    assert IsNumeral("3") && NumeralValue("3") == 3;
    StepOpen(Scan([2], ["b"], "3", ""));
    assert Scan([2], ["b"], "3", "").counts + [3] == [2, 3];
    assert "2[b3[" + ['a'] == "2[b3[a";
    RunStep("2[b3[", 'a');
    StepLetter(Scan([2, 3], ["b"], "", ""), 'a');
    assert Scan([2, 3], ["b"], "", "").token + ['a'] == "a";
  }

  lemma NestedRun7()
    ensures Run("2[b3[a]") == Some(Scan([2], ["b"], "", "aaa"))
  {
    NestedRun6();
    assert "2[b3[a" + [']'] == "2[b3[a]";
    RunStep("2[b3[a", ']');
    NestedStep7();
  }

  lemma NestedStep7()
    ensures Step(Scan([2, 3], ["b"], "a", ""), ']') == Some(Scan([2], ["b"], "", "aaa"))
  {
    StepClose(Scan([2, 3], ["b"], "a", ""));
    assert Scan([2, 3], ["b"], "a", "").strings + ["a"] == ["b", "a"];
    assert ["b", "a"][..1] == ["b"] && ["b", "a"][1] == "a";
    assert [2, 3][..1] == [2] && [2, 3][1] == 3;
    assert "a" + "" == "a";
    assert Repeat("a", 3) == "aaa";
  }

  lemma NestedRun()
    ensures Run("2[b3[a]]") == Some(Scan([], [], "", Repeat("b" + "aaa", 2)))
  {
    NestedRun7();
    assert "2[b3[a]" + [']'] == "2[b3[a]]";
    RunStep("2[b3[a]", ']');
    OuterClose(2, "b", "aaa");
  }

  lemma NestedValid6()
    ensures ValidPrefix("2[b3[a") && Depth("2[b3[a") == 2
  {
    CountThenOpen('2');
    assert "2[" == ['2', '['];
    assert "2[" + ['b'] == "2[b";
    ValidStep("2[", 'b');
    assert "2[b" + ['3'] == "2[b3";
    ValidStep("2[b", '3');
    assert "2[b3" + ['['] == "2[b3[";
    ValidStep("2[b3", '[');
    assert "2[b3[" + ['a'] == "2[b3[a";
    ValidStep("2[b3[", 'a');
  }

  lemma NestedValid()
    ensures ValidPrefix("2[b3[a]]") && Depth("2[b3[a]]") == 0
  {
    NestedValid6();
    assert "2[b3[a" + [']'] == "2[b3[a]";
    ValidStep("2[b3[a", ']');
    assert "2[b3[a]" + [']'] == "2[b3[a]]";
    ValidStep("2[b3[a]", ']');
  }

  lemma DeepRun4()
    ensures Run("2[az") == Some(Scan([2], [], "az", ""))
  {
    NestedRun2();
    assert "2[" + ['a'] == "2[a";
    RunStep("2[", 'a');
    StepLetter(Scan([2], [], "", ""), 'a');
    assert Scan([2], [], "", "").token + ['a'] == "a";
    assert "2[a" + ['z'] == "2[az";
    RunStep("2[a", 'z');
    StepLetter(Scan([2], [], "a", ""), 'z');
    assert Scan([2], [], "a", "").token + ['z'] == "az";
  }

  lemma DeepRun6()
    ensures Run("2[az1[") == Some(Scan([2, 1], ["az"], "", ""))
  {
    DeepRun4();
    assert "2[az" + ['1'] == "2[az1";
    RunStep("2[az", '1');
    StepDigit(Scan([2], [], "az", ""), '1');
    assert Scan([2], [], "az", "").strings + ["az"] == ["az"];
    assert "2[az1" + ['['] == "2[az1[";
    RunStep("2[az1", '[');
    assert IsNumeral("1") && NumeralValue("1") == 1;
    StepOpen(Scan([2], ["az"], "1", ""));
    assert Scan([2], ["az"], "1", "").counts + [1] == [2, 1];
  }

  lemma DeepRun8()
    ensures Run("2[az1[bb") == Some(Scan([2, 1], ["az"], "bb", ""))
  {
    DeepRun6();
    assert "2[az1[" + ['b'] == "2[az1[b";
    RunStep("2[az1[", 'b');
    StepLetter(Scan([2, 1], ["az"], "", ""), 'b');
    assert Scan([2, 1], ["az"], "", "").token + ['b'] == "b";
    assert "2[az1[b" + ['b'] == "2[az1[bb";
    RunStep("2[az1[b", 'b');
    StepLetter(Scan([2, 1], ["az"], "b", ""), 'b');
    assert Scan([2, 1], ["az"], "b", "").token + ['b'] == "bb";
  }

  lemma DeepRun10()
    ensures Run("2[az1[bb2[") == Some(Scan([2, 1, 2], ["az", "bb"], "", ""))
  {
    DeepRun8();
    assert "2[az1[bb" + ['2'] == "2[az1[bb2";
    RunStep("2[az1[bb", '2');
    StepDigit(Scan([2, 1], ["az"], "bb", ""), '2');
    assert Scan([2, 1], ["az"], "bb", "").strings + ["bb"] == ["az", "bb"];
    assert "2[az1[bb2" + ['['] == "2[az1[bb2[";
    RunStep("2[az1[bb2", '[');
    assert IsNumeral("2") && NumeralValue("2") == 2;
    StepOpen(Scan([2, 1], ["az", "bb"], "2", ""));
    assert Scan([2, 1], ["az", "bb"], "2", "").counts + [2] == [2, 1, 2];
  }

  lemma DeepRun11()
    ensures Run("2[az1[bb2[c") == Some(Scan([2, 1, 2], ["az", "bb"], "c", ""))
  {
    DeepRun10();
    assert "2[az1[bb2[" + ['c'] == "2[az1[bb2[c";
    RunStep("2[az1[bb2[", 'c');
    StepLetter(Scan([2, 1, 2], ["az", "bb"], "", ""), 'c');
    assert Scan([2, 1, 2], ["az", "bb"], "", "").token + ['c'] == "c";
  }

  lemma DeepRun12()
    ensures Run("2[az1[bb2[c]") == Some(Scan([2, 1], ["az", "bb"], "", "cc"))
  {
    DeepRun11();
    assert "2[az1[bb2[c" + [']'] == "2[az1[bb2[c]";
    RunStep("2[az1[bb2[c", ']');
    DeepStep12();
  }

  lemma DeepStep12()
    ensures Step(Scan([2, 1, 2], ["az", "bb"], "c", ""), ']') == Some(Scan([2, 1], ["az", "bb"], "", "cc"))
  {
    StepClose(Scan([2, 1, 2], ["az", "bb"], "c", ""));
    assert Scan([2, 1, 2], ["az", "bb"], "c", "").strings + ["c"] == ["az", "bb", "c"];
    assert ["az", "bb", "c"][..2] == ["az", "bb"] && ["az", "bb", "c"][2] == "c";
    assert [2, 1, 2][..2] == [2, 1] && [2, 1, 2][2] == 2;
    assert "c" + "" == "c";
    assert Repeat("c", 2) == "cc";
  }

  lemma DeepRun13()
    ensures Run("2[az1[bb2[c]]") == Some(Scan([2], ["az"], "", "bbcc"))
  {
    DeepRun12();
    assert "2[az1[bb2[c]" + [']'] == "2[az1[bb2[c]]";
    RunStep("2[az1[bb2[c]", ']');
    DeepStep13();
  }

  lemma DeepStep13()
    ensures Step(Scan([2, 1], ["az", "bb"], "", "cc"), ']') == Some(Scan([2], ["az"], "", "bbcc"))
  {
    StepClose(Scan([2, 1], ["az", "bb"], "", "cc"));
    assert ["az", "bb"][..1] == ["az"] && ["az", "bb"][1] == "bb";
    assert [2, 1][..1] == [2] && [2, 1][1] == 1;
    assert "bb" + "cc" == "bbcc";
    assert Repeat("bbcc", 1) == "bbcc";
  }

  lemma DeepRun()
    ensures Run("2[az1[bb2[c]]]") == Some(Scan([], [], "", Repeat("az" + "bbcc", 2)))
  {
    DeepRun13();
    assert "2[az1[bb2[c]]" + [']'] == "2[az1[bb2[c]]]";
    RunStep("2[az1[bb2[c]]", ']');
    OuterClose(2, "az", "bbcc");
  }

  lemma DeepValid6()
    ensures ValidPrefix("2[az1[") && Depth("2[az1[") == 2
  {
    OpenTwoLetters('2', 'a', 'z');
    assert "2[az" == ['2', '[', 'a', 'z'];
    assert "2[az" + ['1'] == "2[az1";
    ValidStep("2[az", '1');
    assert "2[az1" + ['['] == "2[az1[";
    ValidStep("2[az1", '[');
  }

  lemma DeepValid11()
    ensures ValidPrefix("2[az1[bb2[c") && Depth("2[az1[bb2[c") == 3
  {
    DeepValid6();
    assert "2[az1[" + ['b'] == "2[az1[b";
    ValidStep("2[az1[", 'b');
    assert "2[az1[b" + ['b'] == "2[az1[bb";
    ValidStep("2[az1[b", 'b');
    assert "2[az1[bb" + ['2'] == "2[az1[bb2";
    ValidStep("2[az1[bb", '2');
    assert "2[az1[bb2" + ['['] == "2[az1[bb2[";
    ValidStep("2[az1[bb2", '[');
    assert "2[az1[bb2[" + ['c'] == "2[az1[bb2[c";
    ValidStep("2[az1[bb2[", 'c');
  }

  lemma DeepValid()
    ensures ValidPrefix("2[az1[bb2[c]]]") && Depth("2[az1[bb2[c]]]") == 0
  {
    DeepValid11();
    assert "2[az1[bb2[c" + [']'] == "2[az1[bb2[c]";
    ValidStep("2[az1[bb2[c", ']');
    assert "2[az1[bb2[c]" + [']'] == "2[az1[bb2[c]]";
    ValidStep("2[az1[bb2[c]", ']');
    assert "2[az1[bb2[c]]" + [']'] == "2[az1[bb2[c]]]";
    ValidStep("2[az1[bb2[c]]", ']');
  }

  lemma DigitInsideRun2()
    ensures Run("1[") == Some(Scan([1], [], "", ""))
  {
    assert "" + ['1'] == "1";
    RunStep("", '1');
    StepDigit(Scan([], [], "", ""), '1');
    assert "1" + ['['] == "1[";
    RunStep("1", '[');
    assert IsNumeral("1") && NumeralValue("1") == 1;
    StepOpen(Scan([], [], "1", ""));
    assert Scan([], [], "1", "").counts + [1] == [1];
  }

  lemma DigitInsideRun4()
    ensures Run("1[a2") == Some(Scan([1], ["a"], "2", ""))
  {
    DigitInsideRun2();
    assert "1[" + ['a'] == "1[a";
    RunStep("1[", 'a');
    StepLetter(Scan([1], [], "", ""), 'a');
    assert Scan([1], [], "", "").token + ['a'] == "a";
    assert "1[a" + ['2'] == "1[a2";
    RunStep("1[a", '2');
    StepDigit(Scan([1], [], "a", ""), '2');
    assert Scan([1], [], "a", "").strings + ["a"] == ["a"];
  }

  lemma DigitInsideRun()
    ensures Run("1[a2]") == Some(Scan([], ["a"], "", "2"))
  {
    DigitInsideRun4();
    assert "1[a2" + [']'] == "1[a2]";
    RunStep("1[a2", ']');
    DigitInsideStep5();
  }

  lemma DigitInsideStep5()
    ensures Step(Scan([1], ["a"], "2", ""), ']') == Some(Scan([], ["a"], "", "2"))
  {
    StepClose(Scan([1], ["a"], "2", ""));
    assert Scan([1], ["a"], "2", "").strings + ["2"] == ["a", "2"];
    assert ["a", "2"][..1] == ["a"] && ["a", "2"][1] == "2";
    assert [1][..0] == [] && [1][0] == 1;
    assert "2" + "" == "2";
    assert Repeat("2", 1) == "2";
  }

  lemma DigitInsideValid()
    ensures ValidPrefix("1[a2]") && Depth("1[a2]") == 0
  {
    CountThenOpen('1');
    assert "1[" == ['1', '['];
    assert "1[" + ['a'] == "1[a";
    ValidStep("1[", 'a');
    assert "1[a" + ['2'] == "1[a2";
    ValidStep("1[a", '2');
    assert "1[a2" + [']'] == "1[a2]";
    ValidStep("1[a2", ']');
  }

  lemma TwoDigitsRun2()
    ensures Run("12") == Some(Scan([], ["1"], "2", ""))
  {
    assert "" + ['1'] == "1";
    RunStep("", '1');
    StepDigit(Scan([], [], "", ""), '1');
    assert "1" + ['2'] == "12";
    RunStep("1", '2');
    StepDigit(Scan([], [], "1", ""), '2');
    assert Scan([], [], "1", "").strings + ["1"] == ["1"];
  }

  lemma TwoDigitsRun4()
    ensures Run("12[a") == Some(Scan([2], ["1"], "a", ""))
  {
    TwoDigitsRun2();
    assert "12" + ['['] == "12[";
    RunStep("12", '[');
    assert IsNumeral("2") && NumeralValue("2") == 2;
    StepOpen(Scan([], ["1"], "2", ""));
    assert Scan([], ["1"], "2", "").counts + [2] == [2];
    assert "12[" + ['a'] == "12[a";
    RunStep("12[", 'a');
    StepLetter(Scan([2], ["1"], "", ""), 'a');
    assert Scan([2], ["1"], "", "").token + ['a'] == "a";
  }

  lemma TwoDigitsRun()
    ensures Run("12[a]") == Some(Scan([], ["1"], "", "aa"))
  {
    TwoDigitsRun4();
    assert "12[a" + [']'] == "12[a]";
    RunStep("12[a", ']');
    TwoDigitsStep5();
  }

  lemma TwoDigitsStep5()
    ensures Step(Scan([2], ["1"], "a", ""), ']') == Some(Scan([], ["1"], "", "aa"))
  {
    StepClose(Scan([2], ["1"], "a", ""));
    assert Scan([2], ["1"], "a", "").strings + ["a"] == ["1", "a"];
    assert ["1", "a"][..1] == ["1"] && ["1", "a"][1] == "a";
    assert [2][..0] == [] && [2][0] == 2;
    assert "a" + "" == "a";
    assert Repeat("a", 2) == "aa";
  }

  lemma TwoDigitsValid()
    ensures ValidPrefix("12[a]") && Depth("12[a]") == 0
  {
    assert "" + ['1'] == "1";
    ValidStep("", '1');
    assert "1" + ['2'] == "12";
    ValidStep("1", '2');
    assert "12" + ['['] == "12[";
    ValidStep("12", '[');
    assert "12[" + ['a'] == "12[a";
    ValidStep("12[", 'a');
    assert "12[a" + [']'] == "12[a]";
    ValidStep("12[a", ']');
  }

  /** The outermost repetitions of the two nested test vectors. */
  lemma OuterRepeats()
    ensures Repeat("b" + "aaa", 2) == "baaabaaa"
    ensures Repeat("az" + "bbcc", 2) == "azbbccazbbcc"
  {
    assert "b" + "aaa" == "baaa";
    assert Repeat("baaa", 2) == "baaabaaa";
    assert "az" + "bbcc" == "azbbcc";
    assert Repeat("azbbcc", 2) == "azbbccazbbcc";
  }

  /** "4[ab]" decodes to "abababab". */
  lemma FourAbDecodes()
    ensures IsValid("4[ab]") && Run("4[ab]").Some? && Run("4[ab]").value.suffix == "abababab"
  {
    FourAbValid();
    FourAbRun();
  }

  /** "2[b3[a]]" decodes to "baaabaaa". */
  lemma NestedDecodes()
    ensures IsValid("2[b3[a]]") && Run("2[b3[a]]").Some? && Run("2[b3[a]]").value.suffix == "baaabaaa"
  {
    NestedValid();
    NestedRun();
    OuterRepeats();
  }

  /** "2[az1[bb2[c]]]" decodes to "azbbccazbbcc". */
  lemma DeepDecodes()
    ensures IsValid("2[az1[bb2[c]]]") && Run("2[az1[bb2[c]]]").Some?
    ensures Run("2[az1[bb2[c]]]").value.suffix == "azbbccazbbcc"
  {
    DeepValid();
    DeepRun();
    OuterRepeats();
  }

  /** The empty text is valid and decodes to "". */
  lemma EmptyDecodes()
    ensures IsValid("") && Run("") == Some(Scan([], [], "", ""))
  {
  }

  /**
   * A digit between the letters ends the string that will be popped:
   * "1[a2]" passes validate and decodes to "2".
   */
  lemma DigitInsideDecodes()
    ensures IsValid("1[a2]") && Run("1[a2]").Some? && Run("1[a2]").value.suffix == "2"
  {
    DigitInsideValid();
    DigitInsideRun();
  }

  /** Each digit ends the token before it, so only the last digit counts: "12[a]" decodes to "aa". */
  lemma TwoDigitsDecodes()
    ensures IsValid("12[a]") && Run("12[a]").Some? && Run("12[a]").value.suffix == "aa"
  {
    TwoDigitsValid();
    TwoDigitsRun();
  }

  /** "2[b3[a]" leaves a `[` open. */
  lemma UnclosedRejected()
    ensures !IsValid("2[b3[a]")
  {
    NestedValid6();
    assert "2[b3[a" + [']'] == "2[b3[a]";
    ValidStep("2[b3[a", ']');
  }

  /** "[b3[a]]" opens a bracket at index 0. */
  lemma OpenFirstRejected()
    ensures !IsValid("[b3[a]]")
  {
    RejectsOpenWithoutCount("[b3[a]]", 0);
  }

  /** "2[b3[]]" has a `]` right after a `[`. */
  lemma EmptyBracketsRejected()
    ensures !IsValid("2[b3[]]")
  {
    RejectsOpenBeforeNonLetter("2[b3[]]", 4);
  }

  /** "4[ab" never closes its bracket. */
  lemma NeverClosedRejected()
    ensures !IsValid("4[ab")
  {
    OpenTwoLetters('4', 'a', 'b');
    assert "4[ab" == ['4', '[', 'a', 'b'];
  }

  /** "4[ab]]]" closes more brackets than it opens. */
  lemma ExtraCloseRejected()
    ensures !IsValid("4[ab]]]")
  {
    FourAbValid();
    assert "4[ab]" + [']'] == "4[ab]]";
    ValidStep("4[ab]", ']');
    assert "4[ab]]]"[..6] == "4[ab]]";
    RejectsUnbalanced("4[ab]]]", 6);
  }
}
