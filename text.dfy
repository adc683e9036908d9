/**
 * Character classes and string helpers shared by the three routines, for
 * ASCII text: Python's str.isalpha, str.isdigit and str.lower restricted to
 * code points below 128, and the repetition that `+=` in a loop builds.
 */
module Text {

  /** Every character is an ASCII code point. */
  predicate IsAscii(s: string) {
    forall i :: 0 <= i < |s| ==> s[i] as int < 128
  }

  predicate IsUpper(c: char) { 'A' <= c <= 'Z' }

  predicate IsLower(c: char) { 'a' <= c <= 'z' }

  predicate IsLetter(c: char) { IsUpper(c) || IsLower(c) }

  predicate IsDigit(c: char) { '0' <= c <= '9' }

  /** Python's `str.isalpha()`: at least one character, and every character a letter. */
  predicate IsAlpha(s: string)
    ensures s == [] ==> !IsAlpha(s)
    ensures IsAlpha(s) ==> forall c :: c in s ==> IsLetter(c)
  {
    |s| > 0 && forall i :: 0 <= i < |s| ==> IsLetter(s[i])
  }

  /** Python's `str.isdigit()` on ASCII text. */
  predicate IsNumeral(s: string) {
    |s| > 0 && forall i :: 0 <= i < |s| ==> IsDigit(s[i])
  }

  function ToLower(c: char): (r: char)
    ensures IsLetter(c) ==> IsLower(r)
    ensures !IsUpper(c) ==> r == c
    ensures IsUpper(c) ==> r as int - 'a' as int == c as int - 'A' as int
  {
    if IsUpper(c) then (c as int - 'A' as int + 'a' as int) as char else c
  }

  /** Python's `str.lower()` on ASCII text: the same length, each character lowered. */
  function Lower(s: string): (r: string)
    ensures |r| == |s|
    ensures forall i :: 0 <= i < |s| ==> r[i] == ToLower(s[i])
    ensures IsAlpha(s) ==> forall i :: 0 <= i < |r| ==> IsLower(r[i])
  {
    seq(|s|, i requires 0 <= i < |s| => ToLower(s[i]))
  }

  /** Python's `int(w)` on a string of decimal digits. */
  function NumeralValue(w: string): (v: nat)
    requires IsNumeral(w)
    ensures |w| == 1 ==> v == w[0] as int - '0' as int
    ensures v < Power10(|w|)
  {
    var d := w[|w| - 1] as int - '0' as int;
    if |w| == 1 then d else 10 * NumeralValue(w[..|w| - 1]) + d
  }

  function Power10(n: nat): nat {
    if n == 0 then 1 else 10 * Power10(n - 1)
  }

  /** `w` written `n` times in a row, as `r += w` repeated `n` times builds it. */
  function Repeat<T>(w: seq<T>, n: nat): (r: seq<T>)
    ensures forall x :: x in r ==> x in w
  {
    if n == 0 then [] else Repeat(w, n - 1) + w
  }

  lemma {:induction false} RepeatLength<T>(w: seq<T>, n: nat)
    ensures |Repeat(w, n)| == n * |w|
  {
    if n > 0 {
      RepeatLength(w, n - 1);
      calc {
        |Repeat(w, n)|;
        (n - 1) * |w| + |w|;
        { assert (n - 1) * |w| + |w| == n * |w|; }
        n * |w|;
      }
    }
  }

  lemma {:induction false} RepeatCount<T>(x: T, n: nat)
    ensures multiset(Repeat([x], n)) == multiset{x}[x := n]
  {
    if n > 0 {
      RepeatCount(x, n - 1);
    }
  }
}
