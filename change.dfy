/** The change calculator of the vending machine (`calculate_change`):
    greedy decomposition of an amount over the fixed denominations.
    Money is counted in integer cents. */
module Change {

  /** The denominations of `coins`, in cents, in their descending order. */
  const Coins: seq<nat> := [200, 100, 50, 20, 10, 5, 2, 1]

  lemma {:induction false} CoinsDescending()
    ensures |Coins| == 8
    ensures forall i :: 0 <= i < |Coins| ==> Coins[i] > 0
    ensures forall i :: 0 < i < |Coins| ==> Coins[i] < Coins[i - 1]
    ensures Coins[|Coins| - 1] == 1
  {
  }

  /** What is left of `amount` once the greedy step has taken its coins of
      the first `k` denominations. */
  function Remainder(amount: nat, k: nat): nat
    requires k <= |Coins|
  {
    if k == 0 then amount
    else
      CoinsDescending();
      Remainder(amount, k - 1) % Coins[k - 1]
  }

  /** The value, in cents, of `counts[i]` coins of `Coins[i]` for every i. */
  function Value(counts: seq<nat>): nat
    requires |counts| <= |Coins|
  {
    if counts == [] then 0
    else Value(counts[..|counts| - 1]) + counts[|counts| - 1] * Coins[|counts| - 1]
  }

  /** `counts` is what the greedy algorithm returns for `amount`: one count
      per denomination, each taking as many coins of that denomination as
      fit in what is left and leaving less than one such coin. */
  predicate IsGreedyChange(counts: seq<nat>, amount: nat) {
    && |counts| == |Coins|
    && forall i :: 0 <= i < |Coins| ==> TakesGreedily(counts[i], amount, i)
  }

  /** `count` coins of denomination `i` are what the greedy step takes from
      what is left of `amount` after the larger denominations. */
  predicate TakesGreedily(count: nat, amount: nat, i: nat)
    requires i < |Coins|
  {
    count * Coins[i] + Remainder(amount, i + 1) == Remainder(amount, i) && Remainder(amount, i + 1) < Coins[i]
  }

  /** The greedy change gives back exactly the amount. */
  lemma {:induction false} GreedyChangeIsExact(counts: seq<nat>, amount: nat)
    requires IsGreedyChange(counts, amount)
    ensures Value(counts) == amount
  {
    CoinsDescending();
    ValuePlusRemainder(counts, amount, |Coins|);
    assert counts[..|Coins|] == counts;
    assert Remainder(amount, |Coins|) < Coins[|Coins| - 1] == 1;
  }

  lemma {:induction false} ValuePlusRemainder(counts: seq<nat>, amount: nat, k: nat)
    requires IsGreedyChange(counts, amount) && k <= |Coins|
    ensures Value(counts[..k]) + Remainder(amount, k) == amount
  {
    if k > 0 {
      ValuePlusRemainder(counts, amount, k - 1);
      assert counts[..k][..k - 1] == counts[..k - 1];
    }
  }

  /** The greedy counts are determined by the amount: there is one answer. */
  lemma {:induction false} GreedyChangeIsUnique(c1: seq<nat>, c2: seq<nat>, amount: nat)
    requires IsGreedyChange(c1, amount) && IsGreedyChange(c2, amount)
    ensures c1 == c2
  {
    CoinsDescending();
    forall i | 0 <= i < |Coins| ensures c1[i] == c2[i] {
      var c, r := Coins[i], Remainder(amount, i) - Remainder(amount, i + 1);
      assert c1[i] * c == r;
      assert c2[i] * c == r;
      CancelPositiveFactor(c1[i], c2[i], c);
    }
  }

  lemma {:induction false} CancelPositiveFactor(a: nat, b: nat, c: nat)
    requires c > 0 && a * c == b * c
    ensures a == b
  {
  }

  /** One greedy step at denomination `i`: the coins taken and what is left. */
  lemma {:induction false} GreedyStep(amount: nat, i: nat)
    requires i < |Coins|
    ensures Coins[i] > 0
    ensures TakesGreedily(Remainder(amount, i) / Coins[i], amount, i)
  {
    CoinsDescending();
    var r, c := Remainder(amount, i), Coins[i];
    assert Remainder(amount, i + 1) == r % c;
    assert (r / c) * c + r % c == r;
  }

  /** `calculate_change`: for each denomination in order, take
      `change // coin` coins and keep `change % coin`. */
  method CalculateChange(change: nat) returns (counts: seq<nat>)
    ensures IsGreedyChange(counts, change)
    ensures Value(counts) == change
    ensures counts == ChangeFor(change)
  {
    CoinsDescending();
    counts := [];
    var rest := change;
    for i := 0 to |Coins|
      invariant |counts| == i
      invariant rest == Remainder(change, i)
      invariant forall j :: 0 <= j < i ==> TakesGreedily(counts[j], change, j)
    {
      GreedyStep(change, i);
      var coin := Coins[i];
      counts := counts + [rest / coin];
      rest := rest % coin;
    }
    GreedyChangeIsExact(counts, change);
    GreedyChangeIsUnique(counts, ChangeFor(change), change);
  }

  /** The greedy counts of `amount` for the first `k` denominations. */
  function GreedyCounts(amount: nat, k: nat): (counts: seq<nat>)
    requires k <= |Coins|
    ensures |counts| == k
    ensures forall i :: 0 <= i < k ==> TakesGreedily(counts[i], amount, i)
  {
    if k == 0 then []
    else
      var prefix := GreedyCounts(amount, k - 1);
      var counts := prefix + [Remainder(amount, k - 1) / Coins[k - 1]];
      GreedyStep(amount, k - 1);
      assert forall i :: 0 <= i < k - 1 ==> counts[i] == prefix[i];
      counts
  }

  /** The greedy change of `amount` as a value, for the parts of the model
      that are functions and so cannot call `CalculateChange`. */
  function ChangeFor(amount: nat): (counts: seq<nat>)
    ensures IsGreedyChange(counts, amount)
  {
    GreedyCounts(amount, |Coins|)
  }

  /** The number of coins in `counts`. */
  function CoinCount(counts: seq<nat>): nat {
    if counts == [] then 0 else CoinCount(counts[..|counts| - 1]) + counts[|counts| - 1]
  }

  /** The value and the number of coins of a full count vector, written
      out denomination by denomination. */
  lemma {:induction false} EightCounts(c: seq<nat>)
    requires |c| == |Coins|
    ensures Value(c) == 200 * c[0] + 100 * c[1] + 50 * c[2] + 20 * c[3] + 10 * c[4] + 5 * c[5] + 2 * c[6] + c[7]
    ensures CoinCount(c) == c[0] + c[1] + c[2] + c[3] + c[4] + c[5] + c[6] + c[7]
  {
    assert c[..8] == c;
    PrefixStep(c, 8);
    PrefixStep(c, 7);
    PrefixStep(c, 6);
    PrefixStep(c, 5);
    PrefixStep(c, 4);
    PrefixStep(c, 3);
    PrefixStep(c, 2);
    PrefixStep(c, 1);
  }

  lemma {:induction false} PrefixStep(c: seq<nat>, k: nat)
    requires 0 < k <= |c| <= |Coins|
    ensures Value(c[..k]) == Value(c[..k - 1]) + c[k - 1] * Coins[k - 1]
    ensures CoinCount(c[..k]) == CoinCount(c[..k - 1]) + c[k - 1]
  {
    assert c[..k][..k - 1] == c[..k - 1];
  }

  /** Some coins of `c` can be exchanged for fewer larger ones: two coins
      for the next one up (2 x 1 = 2, 2 x 5 = 10, 2 x 10 = 20, 2 x 50 = 100,
      2 x 100 = 200), three for two (3 x 2 = 5 + 1, 3 x 20 = 50 + 10), or three
      for one (2 x 2 + 1 = 5, 2 x 20 + 10 = 50). */
  predicate Exchangeable(c: seq<nat>)
    requires |c| == |Coins|
  {
    || c[7] >= 2 || c[6] >= 3 || (c[6] == 2 && c[7] == 1) || c[5] >= 2 || c[4] >= 2
    || c[3] >= 3 || (c[3] == 2 && c[4] == 1) || c[2] >= 2 || c[1] >= 2
  }

  /** The first exchange that applies, from the smallest coins up. */
  function Exchange(c: seq<nat>): (d: seq<nat>)
    requires |c| == |Coins| && Exchangeable(c)
    ensures |d| == |Coins|
  {
    if c[7] >= 2 then [c[0], c[1], c[2], c[3], c[4], c[5], c[6] + 1, c[7] - 2]
    else if c[6] >= 3 then [c[0], c[1], c[2], c[3], c[4], c[5] + 1, c[6] - 3, c[7] + 1]
    else if c[6] == 2 && c[7] == 1 then [c[0], c[1], c[2], c[3], c[4], c[5] + 1, 0, 0]
    else if c[5] >= 2 then [c[0], c[1], c[2], c[3], c[4] + 1, c[5] - 2, c[6], c[7]]
    else if c[4] >= 2 then [c[0], c[1], c[2], c[3] + 1, c[4] - 2, c[5], c[6], c[7]]
    else if c[3] >= 3 then [c[0], c[1], c[2] + 1, c[3] - 3, c[4] + 1, c[5], c[6], c[7]]
    else if c[3] == 2 && c[4] == 1 then [c[0], c[1], c[2] + 1, 0, 0, c[5], c[6], c[7]]
    else if c[2] >= 2 then [c[0], c[1] + 1, c[2] - 2, c[3], c[4], c[5], c[6], c[7]]
    else [c[0] + 1, c[1] - 2, c[2], c[3], c[4], c[5], c[6], c[7]]
  }

  /** An exchange keeps the value and gives back fewer coins. */
  lemma {:induction false} ExchangeShrinks(c: seq<nat>)
    requires |c| == |Coins| && Exchangeable(c)
    ensures Value(Exchange(c)) == Value(c)
    ensures CoinCount(Exchange(c)) < CoinCount(c)
  {
    EightCounts(c);
    EightCounts(Exchange(c));
  }

  /** No way of paying `amount` in these denominations uses fewer coins
      than the greedy change: any other way can be exchanged for one with
      fewer coins and the same value, and a way that admits no exchange is
      the greedy change. */
  lemma {:induction false} GreedyIsOptimal(amount: nat, counts: seq<nat>)
    requires |counts| == |Coins| && Value(counts) == amount
    ensures CoinCount(ChangeFor(amount)) <= CoinCount(counts)
    decreases CoinCount(counts)
  {
    if Exchangeable(counts) {
      ExchangeShrinks(counts);
      GreedyIsOptimal(amount, Exchange(counts));
    } else {
      FewestIsGreedy(counts);
      GreedyChangeIsUnique(counts, ChangeFor(amount), amount);
    }
  }

  /** Counts that admit no exchange leave, after each denomination, less
      than one coin of it: they are the greedy change of their value. */
  lemma {:induction false} FewestIsGreedy(c: seq<nat>)
    requires |c| == |Coins| && !Exchangeable(c)
    ensures IsGreedyChange(c, Value(c))
  {
    GreedyAbove(c);
    GreedyBelow(Value(c), c);
  }

  /** The greedy step takes the counts of `c` for the four largest
      denominations. */
  lemma {:induction false} GreedyAbove(c: seq<nat>)
    requires |c| == |Coins| && !Exchangeable(c)
    ensures Remainder(Value(c), 4) == 10 * c[4] + 5 * c[5] + 2 * c[6] + c[7]
    ensures forall i :: 0 <= i < 4 ==> TakesGreedily(c[i], Value(c), i)
  {
    EightCounts(c);
    TailBounds(c);
    var a := Value(c);
    var t4 := 10 * c[4] + 5 * c[5] + 2 * c[6] + c[7];
    var t3 := 20 * c[3] + t4;
    var t2 := 50 * c[2] + t3;
    var t1 := 100 * c[1] + t2;
    assert Remainder(a, 0) == a == 200 * c[0] + t1;
    RemainderStep(a, 0, 200, c[0], t1);
    RemainderStep(a, 1, 100, c[1], t2);
    RemainderStep(a, 2, 50, c[2], t3);
    RemainderStep(a, 3, 20, c[3], t4);
  }

  /** The greedy step takes the counts of `c` for the four smallest
      denominations, from what the larger ones leave. */
  lemma {:induction false} GreedyBelow(a: nat, c: seq<nat>)
    requires |c| == |Coins| && !Exchangeable(c)
    requires Remainder(a, 4) == 10 * c[4] + 5 * c[5] + 2 * c[6] + c[7]
    ensures forall i :: 4 <= i < |Coins| ==> TakesGreedily(c[i], a, i)
  {
    TailBounds(c);
    var t7 := c[7];
    var t6 := 2 * c[6] + t7;
    var t5 := 5 * c[5] + t6;
    RemainderStep(a, 4, 10, c[4], t5);
    RemainderStep(a, 5, 5, c[5], t6);
    RemainderStep(a, 6, 2, c[6], t7);
    RemainderStep(a, 7, 1, c[7], 0);
  }

  /** Without an exchange, the coins below each denomination are worth
      less than one coin of it. */
  lemma {:induction false} TailBounds(c: seq<nat>)
    requires |c| == |Coins| && !Exchangeable(c)
    ensures c[7] < 2
    ensures 2 * c[6] + c[7] < 5
    ensures 5 * c[5] + 2 * c[6] + c[7] < 10
    ensures 10 * c[4] + 5 * c[5] + 2 * c[6] + c[7] < 20
    ensures 20 * c[3] + 10 * c[4] + 5 * c[5] + 2 * c[6] + c[7] < 50
    ensures 50 * c[2] + 20 * c[3] + 10 * c[4] + 5 * c[5] + 2 * c[6] + c[7] < 100
    ensures 100 * c[1] + 50 * c[2] + 20 * c[3] + 10 * c[4] + 5 * c[5] + 2 * c[6] + c[7] < 200
  {
  }

  /** When what is left before denomination `i` is `n` such coins and less
      than one more, the greedy step takes the `n` coins. */
  lemma {:induction false} RemainderStep(amount: nat, i: nat, coin: nat, n: nat, rest: nat)
    requires i < |Coins| && coin == Coins[i]
    requires Remainder(amount, i) == n * coin + rest && rest < coin
    ensures Remainder(amount, i + 1) == rest
    ensures TakesGreedily(n, amount, i)
  {
    CoinsDescending();
    ModOfDenomination(n, rest, coin);
  }

  /** Taking whole coins of a denomination leaves the part below one coin. */
  lemma {:induction false} ModOfDenomination(n: nat, rest: nat, m: nat)
    requires rest < m
    requires m == 200 || m == 100 || m == 50 || m == 20 || m == 10 || m == 5 || m == 2 || m == 1
    ensures (n * m + rest) % m == rest
  {
  }

  /** Seventy-five cents come back as one coin each of 50, 20 and 5. */
  lemma {:induction false} ChangeOfSeventyFive()
    ensures ChangeFor(75) == [0, 0, 1, 1, 0, 1, 0, 0]
  {
    var counts: seq<nat> := [0, 0, 1, 1, 0, 1, 0, 0];
    assert Remainder(75, 1) == 75;
    assert Remainder(75, 2) == 75;
    assert Remainder(75, 3) == 25;
    assert Remainder(75, 4) == 5;
    assert Remainder(75, 5) == 5;
    assert Remainder(75, 6) == 0;
    assert Remainder(75, 7) == 0;
    assert Remainder(75, 8) == 0;
    assert TakesGreedily(0, 75, 0) && TakesGreedily(0, 75, 1) && TakesGreedily(1, 75, 2);
    assert TakesGreedily(1, 75, 3) && TakesGreedily(0, 75, 4) && TakesGreedily(1, 75, 5);
    assert TakesGreedily(0, 75, 6) && TakesGreedily(0, 75, 7);
    assert IsGreedyChange(counts, 75);
    GreedyChangeIsUnique(ChangeFor(75), counts, 75);
  }

  /** Nothing to give back: every count is zero. */
  lemma {:induction false} ChangeOfZero()
    ensures ChangeFor(0) == [0, 0, 0, 0, 0, 0, 0, 0]
  {
    var counts: seq<nat> := [0, 0, 0, 0, 0, 0, 0, 0];
    forall k | 0 <= k <= |Coins| ensures Remainder(0, k) == 0 {
      RemainderOfZero(k);
    }
    assert IsGreedyChange(counts, 0);
    GreedyChangeIsUnique(ChangeFor(0), counts, 0);
  }

  lemma {:induction false} RemainderOfZero(k: nat)
    requires k <= |Coins|
    ensures Remainder(0, k) == 0
  {
    if k > 0 {
      RemainderOfZero(k - 1);
    }
  }
}
