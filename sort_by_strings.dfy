/**
 * sort_by_strings (p1.py): reorder the letters of `s` by the order in which
 * they appear in the pattern `t`, with a 26-slot counting sort that
 * overwrites a copy of `s.lower()` in place.
 */
module SortByStrings {
  import opened Wrappers
  import opened Text

  /** CHAR_COUNT: one counter per letter of the alphabet. */
  const CharCount: nat := 26
  /** FIRST_CHAR: the letter counted in slot 0. */
  const FirstChar: char := 'a'

  /** The counter slot of a lower-case letter, `ord(c) - ord(FIRST_CHAR)`. */
  function Slot(c: char): (k: int)
    ensures IsLower(c) ==> 0 <= k < CharCount
  {
    c as int - FirstChar as int
  }

  /** The letter whose count sits in slot `k`. */
  function Letter(k: nat): (c: char)
    requires k < CharCount
    ensures IsLower(c) && Slot(c) == k
  {
    (FirstChar as int + k) as char
  }

  /** The first position of `c` in `order`, or `|order|` when `c` is absent. */
  function Position(order: string, c: char): (k: nat)
    ensures k <= |order|
    ensures k < |order| ==> order[k] == c
  {
    if order == [] then 0
    else if order[0] == c then 0
    else
      assert order == [order[0]] + order[1..];
      1 + Position(order[1..], c)
  }

  /** The position is that of the first occurrence, and it is `|order|` exactly when `c` is absent. */
  lemma {:induction false} PositionIsFirst(order: string, c: char)
    ensures Position(order, c) < |order| ==> c !in order[..Position(order, c)]
    ensures Position(order, c) == |order| <==> c !in order
  {
    if order != [] && order[0] != c {
      PositionIsFirst(order[1..], c);
      assert order == [order[0]] + order[1..];
      assert order[..Position(order, c)] == [order[0]] + order[1..][..Position(order[1..], c)];
    }
  }

  /** Letters of `r` come in the order of their first appearance in `order`. */
  predicate InPatternOrder(r: string, order: string) {
    forall p, q :: 0 <= p < q < |r| ==> Position(order, r[p]) <= Position(order, r[q])
  }

  /**
   * The letters of `ls` still to be placed once the pattern `order` has been
   * walked: the count of every letter of `order` drops to zero.
   */
  function Pending(ls: string, order: string): multiset<char>
  {
    if order == [] then multiset(ls)
    else Pending(ls, order[..|order| - 1])[order[|order| - 1] := 0]
  }

  /**
   * The arrangement the pattern prescribes: walking `order`, each letter is
   * written as many times as it is still pending in `ls` (so a repeated
   * pattern letter contributes only at its first occurrence).
   */
  function Arrange(ls: string, order: string): string
  {
    if order == [] then []
    else
      var init, c := order[..|order| - 1], order[|order| - 1];
      Arrange(ls, init) + Repeat([c], Pending(ls, init)[c])
  }

  /** What the call returns a string for: both strings are letters only and every letter of `s` is in `t`. */
  predicate Sortable(s: string, t: string) {
    IsAlpha(s) && IsAlpha(t) && forall c :: c in Lower(s) ==> c in Lower(t)
  }

  /** Every letter is either already written or still pending, never both and never lost. */
  lemma {:induction false} ArrangeAccountsForAll(ls: string, order: string)
    ensures multiset(Arrange(ls, order)) + Pending(ls, order) == multiset(ls)
  {
    if order != [] {
      var init, c := order[..|order| - 1], order[|order| - 1];
      ArrangeAccountsForAll(ls, init);
      var before := Pending(ls, init);
      RepeatCount(c, before[c]);
      assert multiset(Repeat([c], before[c])) + before[c := 0] == before;
    }
  }

  /** A letter is still pending exactly when it occurs in `ls` but not in `order`. */
  lemma {:induction false} PendingMembers(ls: string, order: string)
    ensures forall c :: c in Pending(ls, order) <==> c in ls && c !in order
  {
    if order != [] {
      var init := order[..|order| - 1];
      PendingMembers(ls, init);
      assert order == init + [order[|order| - 1]];
    }
  }

  /** Only letters of the pattern are written. */
  lemma {:induction false} ArrangeMembers(ls: string, order: string)
    ensures forall c :: c in Arrange(ls, order) ==> c in order
  {
    if order != [] {
      var init, c := order[..|order| - 1], order[|order| - 1];
      ArrangeMembers(ls, init);
      assert order == init + [c];
    }
  }

  /** A letter written while walking `order` has the same first position in a longer pattern. */
  lemma PositionInExtension(order: string, c: char, more: string)
    requires c in order
    ensures Position(order + more, c) == Position(order, c)
  {
    var k := Position(order, c);
    var ext := order + more;
    PositionIsFirst(order, c);
    PositionIsFirst(ext, c);
    assert ext[..k] == order[..k];
    assert ext[k] == c;
  }

  /** The arrangement lists the letters in the order the pattern first names them. */
  lemma {:induction false} ArrangeInPatternOrder(ls: string, order: string)
    ensures InPatternOrder(Arrange(ls, order), order)
  {
    if order != [] {
      var init, c := order[..|order| - 1], order[|order| - 1];
      assert order == init + [c];
      ArrangeInPatternOrder(ls, init);
      ArrangeMembers(ls, init);
      var left, right := Arrange(ls, init), Repeat([c], Pending(ls, init)[c]);
      var r := left + right;
      forall x | x in left
        ensures Position(order, x) == Position(init, x) < |init|
      {
        PositionIsFirst(init, x);
        PositionInExtension(init, x, [c]);
      }
      if right != [] {
        PendingMembers(ls, init);
        assert c in Pending(ls, init);
        assert c !in init;
        PositionIsFirst(order, c);
        assert Position(order, c) == |init|;
      }
      forall p, q | 0 <= p < q < |r|
        ensures Position(order, r[p]) <= Position(order, r[q])
      {
        if q < |left| {
          assert r[p] == left[p] && r[q] == left[q];
        } else if p >= |left| {
          assert r[p] in right && r[q] in right;
        } else {
          assert r[p] in left && r[q] in right;
        }
      }
    }
  }

  /**
   * When every letter of `ls` occurs in `order`, the arrangement is a
   * permutation of `ls` in pattern order.
   */
  lemma ArrangePermutes(ls: string, order: string)
    requires forall c :: c in ls ==> c in order
    ensures multiset(Arrange(ls, order)) == multiset(ls)
    ensures |Arrange(ls, order)| == |ls|
    ensures InPatternOrder(Arrange(ls, order), order)
  {
    ArrangeAccountsForAll(ls, order);
    PendingMembers(ls, order);
    assert Pending(ls, order) == multiset{};
    ArrangeInPatternOrder(ls, order);
  }

  /** Dropping the first letter keeps pattern order. */
  lemma TailInPatternOrder(a: string, order: string)
    requires a != [] && InPatternOrder(a, order)
    ensures InPatternOrder(a[1..], order)
  {
    forall i, j | 0 <= i < j < |a[1..]|
      ensures Position(order, a[1..][i]) <= Position(order, a[1..][j])
    {
      assert a[1..][i] == a[i + 1] && a[1..][j] == a[j + 1];
    }
  }

  /** Of two arrangements of the same letters in pattern order, the first letters agree. */
  lemma FirstLettersAgree(a: string, b: string, order: string)
    requires a != [] && multiset(a) == multiset(b)
    requires forall c :: c in a ==> c in order
    requires InPatternOrder(a, order) && InPatternOrder(b, order)
    ensures b != [] && a[0] == b[0]
  {
    assert a[0] in multiset(b);
    assert b != [];
    assert b[0] in multiset(a);
    var p :| 0 <= p < |b| && b[p] == a[0];
    var q :| 0 <= q < |a| && a[q] == b[0];
    assert Position(order, b[0]) <= Position(order, a[0]) by {
      assert p == 0 || Position(order, b[0]) <= Position(order, b[p]);
    }
    assert Position(order, a[0]) <= Position(order, b[0]) by {
      assert q == 0 || Position(order, a[0]) <= Position(order, a[q]);
    }
    assert a[0] in order && b[0] in order;
    PositionIsFirst(order, a[0]);
    PositionIsFirst(order, b[0]);
  }

  /**
   * Two arrangements of the same letters, all named by `order` and both in
   * pattern order, are the same string.
   */
  lemma {:induction false} PatternOrderUnique(a: string, b: string, order: string)
    requires multiset(a) == multiset(b)
    requires forall c :: c in a ==> c in order
    requires InPatternOrder(a, order) && InPatternOrder(b, order)
    ensures a == b
  {
    if a == [] {
      assert |multiset(b)| == 0;
    } else {
      FirstLettersAgree(a, b, order);
      assert a == [a[0]] + a[1..] && b == [b[0]] + b[1..];
      assert multiset(a) == multiset{a[0]} + multiset(a[1..]);
      assert multiset(b) == multiset{b[0]} + multiset(b[1..]);
      assert multiset(a[1..]) == multiset(a) - multiset{a[0]};
      assert multiset(b[1..]) == multiset(b) - multiset{b[0]};
      forall c | c in a[1..] ensures c in order {
        assert c in a;
      }
      TailInPatternOrder(a, order);
      TailInPatternOrder(b, order);
      PatternOrderUnique(a[1..], b[1..], order);
    }
  }

  /**
   * The arrangement is the only permutation of `ls` in pattern order: the
   * contract of SortBy determines its result.
   */
  lemma ArrangeIsTheOnlyOrdering(ls: string, order: string, r: string)
    requires forall c :: c in ls ==> c in order
    requires multiset(r) == multiset(ls) && InPatternOrder(r, order)
    ensures r == Arrange(ls, order)
  {
    ArrangePermutes(ls, order);
    ArrangeMembers(ls, order);
    PatternOrderUnique(Arrange(ls, order), r, order);
  }

  /** Neighbours from position `i` on are in pattern order, checked pair by pair. */
  predicate NeighboursInPatternOrder(r: string, order: string, i: nat)
    decreases |r| - i
  {
    i + 1 >= |r| || (Position(order, r[i]) <= Position(order, r[i + 1]) && NeighboursInPatternOrder(r, order, i + 1))
  }

  lemma {:induction false} NeighboursSuffice(r: string, order: string, i: nat)
    requires NeighboursInPatternOrder(r, order, i)
    decreases |r| - i
    ensures forall p, q :: i <= p < q < |r| ==> Position(order, r[p]) <= Position(order, r[q])
  {
    if i + 1 < |r| {
      NeighboursSuffice(r, order, i + 1);
    }
  }

  /** A letter cannot occur more often than the multiset has elements. */
  lemma MultiplicityAtMostSize(m: multiset<char>, x: char)
    ensures m[x] <= |m|
  {
    var copies := Repeat([x], m[x]);
    RepeatCount(x, m[x]);
    RepeatLength([x], m[x]);
    assert m == m[x := 0] + multiset(copies);
  }

  /**
   * The inner `while counts[index] > 0` loop: write the letter `c` as often
   * as its counter says, from position `iter` on, and run the counter down
   * to zero.
   */
  method WriteRun(toSort: array<char>, counts: array<int>, iter: nat, c: char) returns (next: nat)
    requires IsLower(c) && counts.Length == CharCount
    requires 0 <= counts[Slot(c)] && iter + counts[Slot(c)] <= toSort.Length
    modifies toSort, counts
    ensures next == iter + old(counts[Slot(c)])
    ensures toSort[..next] == old(toSort[..iter]) + Repeat([c], old(counts[Slot(c)]))
    ensures counts[..] == old(counts[..])[Slot(c) := 0]
    ensures forall k :: next <= k < toSort.Length ==> toSort[k] == old(toSort[k])
  {
    var index := Slot(c);
    next := iter;
    while counts[index] > 0
      invariant 0 <= counts[index] <= old(counts[index])
      invariant next == iter + (old(counts[index]) - counts[index])
      invariant toSort[..next] == old(toSort[..iter]) + Repeat([c], old(counts[index]) - counts[index])
      invariant counts[..] == old(counts[..])[index := counts[index]]
      invariant forall k :: next <= k < toSort.Length ==> toSort[k] == old(toSort[k])
    {
      ghost var written, n := toSort[..next], old(counts[index]) - counts[index];
      toSort[next] := c;
      assert toSort[..next + 1] == written + [c];
      next := next + 1;
      counts[index] := counts[index] - 1;
    }
  }

  /** The first loop: count each letter of the lower-cased text in its slot. */
  method CountLetters(toSort: array<char>) returns (counts: array<int>)
    requires forall i :: 0 <= i < toSort.Length ==> IsLower(toSort[i])
    ensures fresh(counts) && counts.Length == CharCount
    ensures forall x :: 0 <= x < CharCount ==> counts[x] == multiset(toSort[..])[Letter(x)]
  {
    counts := new int[CharCount](_ => 0);
    for k := 0 to toSort.Length
      invariant forall x :: 0 <= x < CharCount ==> counts[x] == multiset(toSort[..k])[Letter(x)]
    {
      var c := toSort[k];
      assert toSort[..k + 1] == toSort[..k] + [c];
      counts[Slot(c)] := counts[Slot(c)] + 1;
    }
    assert toSort[..toSort.Length] == toSort[..];
  }

  /**
   * The second loop: walk the pattern and write each letter's run, so that
   * the first `iter` cells hold the arrangement and the rest of the letters
   * are still pending.
   */
  method OrderLetters(toSort: array<char>, counts: array<int>, ghost ls: string, order: string)
      returns (iter: nat)
    requires toSort.Length == |ls| && counts.Length == CharCount
    requires forall i :: 0 <= i < |order| ==> IsLower(order[i])
    requires forall x :: 0 <= x < CharCount ==> counts[x] == multiset(ls)[Letter(x)]
    modifies toSort, counts
    ensures iter <= toSort.Length
    ensures toSort[..iter] == Arrange(ls, order)
    ensures iter + |Pending(ls, order)| == |ls|
    ensures forall x :: 0 <= x < CharCount ==> counts[x] == Pending(ls, order)[Letter(x)]
    ensures forall k :: iter <= k < toSort.Length ==> toSort[k] == old(toSort[k])
  {
    iter := 0;
    assert order[..0] == [];
    for i := 0 to |order|
      invariant iter <= toSort.Length
      invariant toSort[..iter] == Arrange(ls, order[..i])
      invariant iter + |Pending(ls, order[..i])| == |ls|
      invariant forall x :: 0 <= x < CharCount ==> counts[x] == Pending(ls, order[..i])[Letter(x)]
      invariant forall k :: iter <= k < toSort.Length ==> toSort[k] == old(toSort[k])
    {
      var c := order[i];
      ghost var before := Pending(ls, order[..i]);
      PatternStep(ls, order, i);
      assert counts[Slot(c)] == before[c] by {
        assert Letter(Slot(c)) == c;
      }
      MultiplicityAtMostSize(before, c);
      iter := WriteRun(toSort, counts, iter, c);
      forall x | 0 <= x < CharCount
        ensures counts[x] == Pending(ls, order[..i + 1])[Letter(x)]
      {
        assert x != Slot(c) ==> Letter(x) != c;
      }
    }
    assert order[..|order|] == order;
  }

  /** One more letter of the pattern: its run is appended and its count drops to zero. */
  lemma PatternStep(ls: string, order: string, i: nat)
    requires i < |order|
    ensures Pending(ls, order[..i + 1]) == Pending(ls, order[..i])[order[i] := 0]
    ensures Arrange(ls, order[..i + 1])
         == Arrange(ls, order[..i]) + Repeat([order[i]], Pending(ls, order[..i])[order[i]])
    ensures |Arrange(ls, order[..i + 1])| + |Pending(ls, order[..i + 1])| == |ls|
  {
    assert order[..i + 1][..i] == order[..i];
    ArrangeAccountsForAll(ls, order[..i + 1]);
  }

  /**
   * sort_by_strings: None unless `s` and `t` are non-empty strings of letters
   * and `t` names every letter of `s`; otherwise `s.lower()` reordered by the
   * first positions of its letters in `t.lower()`.
   */
  method SortBy(s: string, t: string) returns (r: Option<string>)
    requires IsAscii(s) && IsAscii(t)
    ensures r.Some? <==> Sortable(s, t)
    ensures r.Some? ==> r.value == Arrange(Lower(s), Lower(t))
    ensures r.Some? ==> |r.value| == |s| && multiset(r.value) == multiset(Lower(s))
    ensures r.Some? ==> InPatternOrder(r.value, Lower(t))
    ensures r.Some? ==> forall i :: 0 <= i < |r.value| ==> IsLower(r.value[i])
  {
    if !IsAlpha(s) || !IsAlpha(t) {
      return None;
    }
    var ls, order := Lower(s), Lower(t);
    var toSort := new char[|ls|](i requires 0 <= i < |ls| => ls[i]);
    assert toSort[..] == ls;
    var counts := CountLetters(toSort);
    var iter := OrderLetters(toSort, counts, ls, order);

    // Letters of toSort that are not present in the order string
    PendingMembers(ls, order);
    if iter != |ls| {
      assert Pending(ls, order) != multiset{};
      ghost var missing :| missing in Pending(ls, order);
      return None;
    }
    assert toSort[..] == toSort[..iter];
    ArrangePermutes(ls, order);
    r := Some(toSort[..]);
    forall i | 0 <= i < |r.value|
      ensures IsLower(r.value[i])
    {
      assert r.value[i] in multiset(ls);
    }
  }

  /**
   * A worked example follows from the contract alone: once `r` is shown to
   * be a permutation of `s.lower()` in the order of `t.lower()`, it is the
   * arrangement.
   */
  lemma Example(s: string, t: string, ls: string, lt: string, r: string)
    requires Lower(s) == ls && Lower(t) == lt
    requires IsAlpha(s) && IsAlpha(t)
    requires forall c :: c in ls ==> c in lt
    requires multiset(r) == multiset(ls) && NeighboursInPatternOrder(r, lt, 0)
    ensures Sortable(s, t) && Arrange(Lower(s), Lower(t)) == r
  {
    NeighboursSuffice(r, lt, 0);
    ArrangeIsTheOnlyOrdering(ls, lt, r);
  }

  lemma CardLower()
    ensures Lower("drac") == "drac" && Lower("carding") == "carding"
  {
  }

  lemma CardLetters()
    ensures IsAlpha("drac") && IsAlpha("carding")
  {
  }

  lemma CardCovered()
    ensures forall c :: c in "drac" ==> c in "carding"
  {
  }

  lemma CardPermutes()
    ensures multiset("card") == multiset("drac")
  {
  }

  lemma CardPositions()
    ensures Position("carding", 'c') == 0
    ensures Position("carding", 'a') == 1
    ensures Position("carding", 'r') == 2
    ensures Position("carding", 'd') == 3
  {
  }

  lemma CardOrder()
    ensures NeighboursInPatternOrder("card", "carding", 0)
  {
    CardPositions();
  }

  lemma CardExample()
    ensures Sortable("drac", "carding") && Arrange(Lower("drac"), Lower("carding")) == "card"
  {
    CardLower();
    CardLetters();
    CardCovered();
    CardPermutes();
    CardOrder();
    Example("drac", "carding", "drac", "carding", "card");
  }

  lemma GuardLower()
    ensures Lower("agurd") == "agurd" && Lower("guards") == "guards"
  {
  }

  lemma GuardLetters()
    ensures IsAlpha("agurd") && IsAlpha("guards")
  {
  }

  lemma GuardCovered()
    ensures forall c :: c in "agurd" ==> c in "guards"
  {
  }

  lemma GuardPermutes()
    ensures multiset("guard") == multiset("agurd")
  {
  }

  lemma GuardPositions()
    ensures Position("guards", 'g') == 0
    ensures Position("guards", 'u') == 1
    ensures Position("guards", 'a') == 2
    ensures Position("guards", 'r') == 3
    ensures Position("guards", 'd') == 4
  {
  }

  lemma GuardOrder()
    ensures NeighboursInPatternOrder("guard", "guards", 0)
  {
    GuardPositions();
  }

  lemma GuardExample()
    ensures Sortable("agurd", "guards") && Arrange(Lower("agurd"), Lower("guards")) == "guard"
  {
    GuardLower();
    GuardLetters();
    GuardCovered();
    GuardPermutes();
    GuardOrder();
    Example("agurd", "guards", "agurd", "guards", "guard");
  }

  lemma ZaLower()
    ensures Lower("az") == "az" && Lower("za") == "za"
  {
  }

  lemma ZaLetters()
    ensures IsAlpha("az") && IsAlpha("za")
  {
  }

  lemma ZaCovered()
    ensures forall c :: c in "az" ==> c in "za"
  {
  }

  lemma ZaPermutes()
    ensures multiset("za") == multiset("az")
  {
  }

  lemma ZaPositions()
    ensures Position("za", 'z') == 0
    ensures Position("za", 'a') == 1
  {
  }

  lemma ZaOrder()
    ensures NeighboursInPatternOrder("za", "za", 0)
  {
    ZaPositions();
  }

  lemma ZaExample()
    ensures Sortable("az", "za") && Arrange(Lower("az"), Lower("za")) == "za"
  {
    ZaLower();
    ZaLetters();
    ZaCovered();
    ZaPermutes();
    ZaOrder();
    Example("az", "za", "az", "za", "za");
  }

  lemma ZhaLower()
    ensures Lower("AHZ") == "ahz" && Lower("JZHAG") == "jzhag"
  {
  }

  lemma ZhaLetters()
    ensures IsAlpha("AHZ") && IsAlpha("JZHAG")
  {
  }

  lemma ZhaCovered()
    ensures forall c :: c in "ahz" ==> c in "jzhag"
  {
  }

  lemma ZhaPermutes()
    ensures multiset("zha") == multiset("ahz")
  {
  }

  lemma ZhaPositions()
    ensures Position("jzhag", 'z') == 1
    ensures Position("jzhag", 'h') == 2
    ensures Position("jzhag", 'a') == 3
  {
  }

  lemma ZhaOrder()
    ensures NeighboursInPatternOrder("zha", "jzhag", 0)
  {
    ZhaPositions();
  }

  /** Upper-case input gives lower-case output. */
  lemma ZhaExample()
    ensures Sortable("AHZ", "JZHAG") && Arrange(Lower("AHZ"), Lower("JZHAG")) == "zha"
  {
    ZhaLower();
    ZhaLetters();
    ZhaCovered();
    ZhaPermutes();
    ZhaOrder();
    Example("AHZ", "JZHAG", "ahz", "jzhag", "zha");
  }

  lemma TheerawLower()
    ensures Lower("weather") == "weather" && Lower("therapyw") == "therapyw"
  {
  }

  lemma TheerawLetters()
    ensures IsAlpha("weather") && IsAlpha("therapyw")
  {
  }

  lemma TheerawCovered()
    ensures forall c :: c in "weather" ==> c in "therapyw"
  {
  }

  lemma TheerawPermutes()
    ensures multiset("theeraw") == multiset("weather")
  {
  }

  lemma TheerawPositions()
    ensures Position("therapyw", 't') == 0
    ensures Position("therapyw", 'h') == 1
    ensures Position("therapyw", 'e') == 2
    ensures Position("therapyw", 'r') == 3
    ensures Position("therapyw", 'a') == 4
    ensures Position("therapyw", 'w') == 7
  {
  }

  lemma TheerawOrder()
    ensures NeighboursInPatternOrder("theeraw", "therapyw", 0)
  {
    TheerawPositions();
  }

  /** A repeated letter of `s` is written as a run. */
  lemma TheerawExample()
    ensures Sortable("weather", "therapyw") && Arrange(Lower("weather"), Lower("therapyw")) == "theeraw"
  {
    TheerawLower();
    TheerawLetters();
    TheerawCovered();
    TheerawPermutes();
    TheerawOrder();
    Example("weather", "therapyw", "weather", "therapyw", "theeraw");
  }

  /** The inputs p1.py's tests expect None for. */
  lemma UnsortableExamples()
    ensures !Sortable("14numbers5", "number")
    ensures !Sortable("agurd", "guar")
    ensures !Sortable("", "test")
  {
    assert !IsLetter("14numbers5"[0]);
    assert Lower("agurd") == "agurd" && Lower("guar") == "guar";
    assert 'd' in "agurd" && 'd' !in "guar";
  }
}
