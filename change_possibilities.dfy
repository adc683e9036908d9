/**
 * change_possibilities (p3.py): the number of ways to make `amount` out of
 * the given coin denominations, order of coins not mattering, computed by
 * the classic one-array dynamic programme.
 */
module ChangePossibilities {

  /** The code is only meant for positive coin values (a zero coin would make the inner loop add an entry to itself). */
  predicate AllPositive(coins: seq<int>) {
    forall i :: 0 <= i < |coins| ==> coins[i] > 0
  }

  /**
   * The number of multisets of coins drawn from `coins` whose values sum to
   * `n`: for the last denomination `d`, choose how many copies `k` of it to
   * use (0 <= k <= n / d), and make the remaining `n - k * d` from the other
   * denominations. Two equal denominations count as two different coins,
   * as they do in the code.
   */
  function Combinations(n: nat, coins: seq<int>): nat
    requires AllPositive(coins)
    decreases |coins|, 0, 0
  {
    if coins == [] then
      (if n == 0 then 1 else 0)
    else
      var d := coins[|coins| - 1];
      CopiesUpTo(n, coins[..|coins| - 1], d, n / d)
  }

  /** The sum, over k = 0 .. m, of the ways to make `n - k * d` from `rest`. */
  function CopiesUpTo(n: nat, rest: seq<int>, d: int, m: nat): nat
    requires AllPositive(rest) && d > 0 && m * d <= n
    decreases |rest|, 1, m
  {
    var others := Combinations(n - m * d, rest);
    if m == 0 then others else CopiesUpTo(n, rest, d, m - 1) + others
  }

  lemma MultipleBound(n: nat, d: int, m: nat)
    requires d > 0 && m == n / d
    ensures m * d <= n < (m + 1) * d
  {
  }

  /**
   * Shifting the sum by one copy: the terms k = 1 .. m for `n` are the terms
   * k = 0 .. m - 1 for `n - d`.
   */
  lemma {:induction false} CopiesShift(n: nat, rest: seq<int>, d: int, m: nat)
    requires AllPositive(rest) && d > 0 && m * d <= n && m >= 1
    ensures CopiesUpTo(n, rest, d, m)
         == Combinations(n, rest) + CopiesUpTo(n - d, rest, d, m - 1)
  {
    assert n - m * d == (n - d) - (m - 1) * d;
    if m > 1 {
      assert (m - 1) * d <= n;
      CopiesShift(n, rest, d, m - 1);
    }
  }

  /**
   * The recurrence the array update implements: the ways to make `n` with
   * `coins + [d]` are the ways without `d` plus, when `d <= n`, the ways to
   * make `n - d` still allowing `d`.
   */
  lemma AddCoin(n: nat, coins: seq<int>, d: int)
    requires AllPositive(coins) && d > 0
    ensures AllPositive(coins + [d])
    ensures Combinations(n, coins + [d])
         == Combinations(n, coins) + (if n >= d then Combinations(n - d, coins + [d]) else 0)
  {
    var ext := coins + [d];
    assert ext[..|ext| - 1] == coins;
    assert Combinations(n, ext) == CopiesUpTo(n, coins, d, n / d);
    if n >= d {
      assert Combinations(n - d, ext) == CopiesUpTo(n - d, coins, d, (n - d) / d);
      QuotientStep(n, d);
      CopiesShift(n, coins, d, n / d);
    } else {
      assert n / d == 0;
    }
  }

  lemma QuotientStep(n: nat, d: int)
    requires 0 < d <= n
    ensures (n - d) / d == n / d - 1 && 1 <= n / d && (n / d) * d <= n
  {
    var q := (n - d) / d;
    MultipleBound(n - d, d, q);
    assert (q + 1) * d == q * d + d && (q + 2) * d == (q + 1) * d + d;
    QuotientUnique(n, d, q + 1);
  }

  /** The quotient is the only `q` with `q * d <= n < (q + 1) * d`. */
  lemma QuotientUnique(n: nat, d: int, q: nat)
    requires d > 0 && q * d <= n < (q + 1) * d
    ensures n / d == q
  {
    var m := n / d;
    MultipleBound(n, d, m);
    MulMonotone(m + 1, q, d);
    MulMonotone(q + 1, m, d);
  }

  lemma MulMonotone(a: int, b: int, d: int)
    requires d > 0
    ensures a <= b ==> a * d <= b * d
  {
    assert b * d - a * d == (b - a) * d;
  }

  /** A denomination larger than the amount adds no way (the inner range is empty). */
  lemma LargeCoinChangesNothing(n: nat, coins: seq<int>, d: int)
    requires AllPositive(coins) && d > n
    ensures AllPositive(coins + [d])
    ensures Combinations(n, coins + [d]) == Combinations(n, coins)
  {
    AddCoin(n, coins, d);
  }

  /** Allowing one more denomination never loses a way: the array entries never decrease. */
  lemma MoreCoinsMoreWays(n: nat, coins: seq<int>, d: int)
    requires AllPositive(coins) && d > 0
    ensures AllPositive(coins + [d])
    ensures Combinations(n, coins) <= Combinations(n, coins + [d])
  {
    AddCoin(n, coins, d);
  }

  /** The amount 0 has exactly one way, the empty multiset, whatever the coins. */
  lemma {:induction false} ZeroAmountOneWay(coins: seq<int>)
    requires AllPositive(coins)
    ensures Combinations(0, coins) == 1
  {
    if coins != [] {
      ZeroAmountOneWay(coins[..|coins| - 1]);
    }
  }

  /**
   * The dynamic programme of change_possibilities: `arr[j]` holds, after the
   * first `i` denominations, the ways to make `j` from those denominations.
   */
  method ChangePossibilities(amount: nat, denominations: seq<int>) returns (ways: int)
    requires AllPositive(denominations)
    ensures ways == Combinations(amount, denominations)
  {
    var arr := new int[amount + 1](_ => 0);
    arr[0] := 1;
    assert denominations[..0] == [];
    for i := 0 to |denominations|
      invariant forall j :: 0 <= j <= amount ==> arr[j] == Combinations(j, denominations[..i])
    {
      var d := denominations[i];
      ghost var before := denominations[..i];
      assert denominations[..i + 1] == before + [d];
      forall j | 0 <= j < d && j <= amount
        ensures Combinations(j, before + [d]) == Combinations(j, before)
      {
        LargeCoinChangesNothing(j, before, d);
      }
      var j := d;
      while j <= amount
        invariant d <= j
        invariant forall k :: 0 <= k < j && k <= amount ==> arr[k] == Combinations(k, before + [d])
        invariant forall k :: j <= k <= amount ==> arr[k] == Combinations(k, before)
      {
        AddCoin(j, before, d);
        arr[j] := arr[j] + arr[j - d];
        j := j + 1;
      }
    }
    assert denominations[..|denominations|] == denominations;
    ways := arr[amount];
  }

  /** With the single coin 1 there is exactly one way to make any amount. */
  lemma {:induction false} OnlyOnes(n: nat)
    ensures Combinations(n, [1]) == 1
  {
    assert [1] == [] + [1];
    AddCoin(n, [], 1);
    if n >= 1 {
      OnlyOnes(n - 1);
    }
  }

  /** With coins 1 and 2, an amount `n` is made with 0 .. n / 2 twos. */
  lemma {:induction false} OnesAndTwos(n: nat)
    ensures Combinations(n, [1, 2]) == n / 2 + 1
  {
    assert [1, 2] == [1] + [2];
    AddCoin(n, [1], 2);
    OnlyOnes(n);
    if n >= 2 {
      OnesAndTwos(n - 2);
    }
  }

  /** With coins 1, 2 and 3, taking the 3s out: the recurrence for the third coin. */
  lemma WithThrees(n: nat)
    ensures Combinations(n, [1, 2, 3]) == n / 2 + 1 + (if n >= 3 then Combinations(n - 3, [1, 2, 3]) else 0)
  {
    assert [1, 2, 3] == [1, 2] + [3];
    AddCoin(n, [1, 2], 3);
    OnesAndTwos(n);
  }

  /** The cases p3.py's tests check. */
  lemma WorkedExamples()
    ensures Combinations(4, [1, 2, 3]) == 4
    ensures Combinations(6, [1, 2, 3]) == 7
    ensures Combinations(0, [1, 2]) == 1
    ensures Combinations(7, [1, 2, 3, 7]) == 9
  {
    WithThrees(0); WithThrees(1); WithThrees(3); WithThrees(4); WithThrees(6); WithThrees(7);
    OnesAndTwos(0);
    assert [1, 2, 3, 7] == [1, 2, 3] + [7];
    AddCoin(7, [1, 2, 3], 7);
    ZeroAmountOneWay([1, 2, 3, 7]);
  }
}
