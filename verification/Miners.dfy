/** Miners of constant speed under the retarget rule, measured with error, by whole shares, or exactly. */
module Miners {
  import opened Powers
  import opened Difficulty
  import opened VarDiff

  lemma Product(a: real, b: real, x: real)
    requires a < b && 0.0 < x
    ensures a * x < b * x
  {
  }

  lemma Cancel(t: real, a: real, b: real)
    requires 0.0 < t && t * a < t * b
    ensures a < b
  {
  }

  // ---------------------------------------------------------------- measured with relative error

  /** The measured rate is within a third of the true one, ideal * target / d. */
  ghost predicate WithinAThird(ideal: real, target: real, d: nat, rate: real) {
    2.0 * ideal * target <= 3.0 * rate * d as real <= 4.0 * ideal * target
  }

  lemma SlowThird(ideal: real, target: real, d: real, rate: real)
    requires 0.0 < target && 0.0 < d && 2.0 * ideal * target <= 3.0 * rate * d && rate < target * 0.5
    ensures 4.0 * ideal < 3.0 * d
  {
    Product(rate, target * 0.5, d);
    assert 3.0 * rate * d == 3.0 * (rate * d) && 2.0 * ideal * target == target * (2.0 * ideal);
    assert 3.0 * ((target * 0.5) * d) == target * (1.5 * d);
    Cancel(target, 2.0 * ideal, 1.5 * d);
  }

  lemma FastThird(ideal: real, target: real, d: real, rate: real)
    requires 0.0 < target && 0.0 < d && 3.0 * rate * d <= 4.0 * ideal * target && rate > target * 2.0
    ensures 3.0 * d < 2.0 * ideal
  {
    Product(target * 2.0, rate, d);
    assert 3.0 * rate * d == 3.0 * (rate * d) && 4.0 * ideal * target == target * (4.0 * ideal);
    assert 3.0 * ((target * 2.0) * d) == target * (6.0 * d);
    Cancel(target, 6.0 * d, 4.0 * ideal);
  }

  /** An error of a third leaves a cut: two thirds of the ideal difficulty. */
  lemma ThirdIsSeparated(ideal: real, target: real, d: nat, rate: real)
    requires 0.0 < target && 0 < d && WithinAThird(ideal, target, d, rate)
    ensures Separated(ideal * 2.0 / 3.0, target, d, rate)
  {
    if rate < target * 0.5 {
      SlowThird(ideal, target, d as real, rate);
    } else if rate > target * 2.0 {
      FastThird(ideal, target, d as real, rate);
    }
  }

  /** A third is the most error the rule can stand: whatever larger error e is allowed, there is a
      miner whose difficulty it halves and then doubles again. */
  lemma HuntsBeyondAThird(e: real) returns (ideal: real, low: real, high: real)
    requires 1.0 / 3.0 < e < 1.0
    ensures ideal > 0.0
    ensures low * 2.0 == (1.0 - e) * ideal && NextDifficulty(2, low, 1.0, 1) == 1
    ensures high * 1.0 == (1.0 + e) * ideal && NextDifficulty(1, high, 1.0, 1) == 2
  {
    var p, q := 1.0 - e, 1.0 + e;
    var a, b := 1.0 / q, 1.0 / (2.0 * p);
    ideal := a + b;
    assert p * a < 0.5 && 2.0 * p * b == 1.0 by {
      assert q * a == 1.0 && 2.0 * p < q;
      Product(2.0 * p, q, a);
    }
    assert q * a == 1.0 && q * b > 1.0 by {
      Product(2.0 * p, q, b);
    }
    assert p * ideal == p * a + p * b && q * ideal == q * a + q * b;
    low, high := p * ideal / 2.0, q * ideal;
    assert low < 0.5 && high > 2.0;
  }

  // ---------------------------------------------------------------- measured by whole shares

  /** The shares a miner is expected to find in some milliseconds. */
  function Expected(ideal: real, target: real, d: nat, elapsed: nat): real
    requires d > 0
  {
    ideal * target / d as real * (elapsed as real / 60000.0)
  }

  /** A window counted a whole number of shares, less than one off the expected number. */
  ghost predicate Counted(ideal: real, target: real, d: nat, shares: nat, elapsed: nat) {
    d > 0 && Expected(ideal, target, d, elapsed) - 1.0 < shares as real < Expected(ideal, target, d, elapsed) + 1.0
  }

  /** Over at least a minute, a count less than one share off is a rate less than one off. */
  lemma CountBounds(x: real, y: real, minutes: real)
    requires 1.0 <= minutes && x * minutes - 1.0 < y * minutes < x * minutes + 1.0
    ensures x - 1.0 < y < x + 1.0
  {
    if y >= x + 1.0 {
      OneApart(x, y, minutes);
    } else if y <= x - 1.0 {
      OneApart(y, x, minutes);
    }
  }

  lemma OneApart(a: real, b: real, m: real)
    requires a + 1.0 <= b && 1.0 <= m
    ensures a * m + 1.0 <= b * m
  {
    var more := b - a - 1.0;
    assert more * m >= 0.0;
    assert b * m == a * m + m + more * m;
  }

  /** Counting whole shares leaves a cut too, three fifths of the ideal difficulty, when the target
      is at least three shares a minute. */
  lemma WholeSharesSeparated(ideal: real, target: real, d: nat, shares: nat, elapsed: nat)
    requires 3.0 <= target && 60000 <= elapsed && Counted(ideal, target, d, shares, elapsed)
    ensures Separated(0.6 * ideal, target, d, shares as real / (elapsed as real / 60000.0))
  {
    var minutes := elapsed as real / 60000.0;
    var x, rate := ideal * target / d as real, shares as real / minutes;
    assert rate * minutes == shares as real;
    CountBounds(x, rate, minutes);
    if rate < target * 0.5 {
      assert x < 5.0 / 6.0 * target;
      AtMost(ideal, target, d as real, 5.0 / 6.0);
    } else if rate > target * 2.0 {
      assert x > 5.0 / 3.0 * target;
      AtLeast(ideal, target, d as real, 5.0 / 3.0);
    }
  }

  lemma AtMost(ideal: real, target: real, x: real, bound: real)
    requires 0.0 < target && 0.0 < x && ideal * target / x < bound * target
    ensures ideal < bound * x
  {
    Quotient(bound * target, ideal * target, x);
    assert (bound * target) * x == (bound * x) * target;
    Compare(bound * x, ideal, target);
  }

  lemma AtLeast(ideal: real, target: real, x: real, bound: real)
    requires 0.0 < target && 0.0 < x && bound * target < ideal * target / x
    ensures bound * x < ideal
  {
    Quotient(bound * target, ideal * target, x);
    assert (bound * target) * x == (bound * x) * target;
    Compare(ideal, bound * x, target);
  }

  /** Three is the least such target: at one or two shares a minute, a miner counted to within a
      share in every window has its difficulty halved and then doubled again. */
  lemma HuntsBelowThree(target: nat) returns (ideal: real, first: (nat, nat), second: (nat, nat))
    requires 1 <= target < 3
    ensures first.1 >= 60000 && Counted(ideal, target as real, 2, first.0, first.1)
    ensures second.1 >= 60000 && Counted(ideal, target as real, 1, second.0, second.1)
    ensures NextDifficulty(2, first.0 as real / (first.1 as real / 60000.0), target as real, 1) == 1
    ensures NextDifficulty(1, second.0 as real / (second.1 as real / 60000.0), target as real, 1) == 2
  {
    ideal := 1.8;
    if target == 1 {
      first, second := (0, 60000), (3, 84000);
    } else {
      first, second := (1, 63000), (5, 72000);
    }
  }

  // ---------------------------------------------------------------- measured exactly

  /** One window of a miner measured exactly. */
  function Window(ideal: real, target: real, floor: nat, d: nat): nat {
    if d == 0 then 0 else NextDifficulty(d, ideal * target / d as real, target, floor)
  }

  function AfterWindows(ideal: real, target: real, floor: nat, d: nat, n: nat): nat {
    if n == 0 then d else Window(ideal, target, floor, AfterWindows(ideal, target, floor, d, n - 1))
  }

  lemma ExactIsSeparated(ideal: real, target: real, d: nat)
    requires 0.0 <= ideal && 0.0 < target && 0 < d
    ensures Separated(0.5 * ideal, target, d, ideal * target / d as real)
  {
    RateBounds(ideal, target, d as real);
  }

  lemma ExactWindow(ideal: real, target: real, floor: nat, d: nat)
    requires InRange(0.5 * ideal, target, floor, d)
    ensures d > 0 && Separated(0.5 * ideal, target, d, ideal * target / d as real)
    ensures InRange(0.5 * ideal, target, floor, Window(ideal, target, floor, d))
  {
    assert d > 0;
    ExactIsSeparated(ideal, target, d);
    var rate := ideal * target / d as real;
    OneWindow(0.5 * ideal, target, floor, d, rate);
  }

  lemma {:induction false} ExactInRange(ideal: real, target: real, floor: nat, d: nat, n: nat)
    requires InRange(0.5 * ideal, target, floor, d)
    ensures InRange(0.5 * ideal, target, floor, AfterWindows(ideal, target, floor, d, n))
  {
    if n > 0 {
      ExactInRange(ideal, target, floor, d, n - 1);
      ExactWindow(ideal, target, floor, AfterWindows(ideal, target, floor, d, n - 1));
    }
  }

  /** The first n windows of an exactly measured miner, as a run. */
  lemma {:induction false} ExactRun(ideal: real, target: real, floor: nat, d: nat, n: nat) returns (ds: seq<nat>, rates: seq<real>)
    requires InRange(0.5 * ideal, target, floor, d)
    ensures IsRun(ds, rates, 0.5 * ideal, target, floor) && |rates| == n
    ensures forall i :: 0 <= i <= n ==> ds[i] == AfterWindows(ideal, target, floor, d, i)
  {
    if n == 0 {
      ds, rates := [d], [];
    } else {
      ds, rates := ExactRun(ideal, target, floor, d, n - 1);
      var c := ds[n - 1];
      ExactInRange(ideal, target, floor, d, n - 1);
      ExactWindow(ideal, target, floor, c);
      ds, rates := ds + [Window(ideal, target, floor, c)], rates + [ideal * target / c as real];
    }
  }

  lemma {:induction false} EveryWindowChanges(ds: seq<nat>)
    requires |ds| > 0 && forall i :: 0 <= i < |ds| - 1 ==> ds[i + 1] != ds[i]
    ensures Changes(ds) == |ds| - 1
  {
    if |ds| > 1 {
      EveryWindowChanges(ds[..|ds| - 1]);
    }
  }

  /** A difficulty is kept exactly when its rate is within a factor of two of the target, or it is
      the floor and the miner is slower than that. */
  lemma SettledIff(ideal: real, target: real, floor: nat, d: nat)
    requires InRange(0.5 * ideal, target, floor, d)
    ensures var rate := ideal * target / d as real;
            && (Window(ideal, target, floor, d) == d <==>
                  target * 0.5 <= rate <= target * 2.0 || (rate < target * 0.5 && d == floor))
            && (target * 0.5 <= rate <==> d as real <= 2.0 * ideal)
            && (rate <= target * 2.0 <==> ideal <= 2.0 * d as real)
  {
    PowersOrdered(d, floor);
    RateBounds(ideal, target, d as real);
  }

  lemma RateBounds(ideal: real, target: real, x: real)
    requires 0.0 < target && 0.0 < x
    ensures target * 0.5 <= ideal * target / x <==> x <= 2.0 * ideal
    ensures ideal * target / x <= target * 2.0 <==> ideal <= 2.0 * x
  {
    var speed := ideal * target;
    Quotient(target * 0.5, speed, x);
    Quotient(target * 2.0, speed, x);
    Compare(x, 2.0 * ideal, target);
    Compare(ideal, 2.0 * x, target);
    assert (target * 0.5) * x == 0.5 * (x * target);
    assert (target * 2.0) * x == (2.0 * x) * target;
    assert (2.0 * ideal) * target == 2.0 * speed;
  }

  lemma Quotient(bound: real, y: real, x: real)
    requires 0.0 < x
    ensures bound <= y / x <==> bound * x <= y
    ensures y / x <= bound <==> y <= bound * x
  {
    var q := y / x;
    assert q * x == y;
    Compare(bound, q, x);
    Compare(q, bound, x);
  }

  lemma Compare(a: real, b: real, x: real)
    requires 0.0 < x
    ensures a <= b <==> a * x <= b * x
  {
    if a < b {
      Product(a, b, x);
    } else if b < a {
      Product(b, a, x);
    }
  }

  /** The loop converges: the difficulty settles after n windows, where 2^n is the ratio of the
      first and the settled difficulty (or less, when the raise to the floor skips powers). */
  lemma Converges(ideal: real, target: real, floor: nat, d: nat) returns (n: nat)
    requires InRange(0.5 * ideal, target, floor, d)
    ensures var s := AfterWindows(ideal, target, floor, d, n);
            && Window(ideal, target, floor, s) == s
            && (Pow2(n) * s == d || Pow2(n) * d <= s)
    ensures n < 64
  {
    n := 0;
    var ds, rates := ExactRun(ideal, target, floor, d, 0);
    assert Pow2(0) == 1;
    while Window(ideal, target, floor, AfterWindows(ideal, target, floor, d, n)) != AfterWindows(ideal, target, floor, d, n)
      invariant n < 64
      invariant forall i :: 0 <= i < n ==>
                  AfterWindows(ideal, target, floor, d, i + 1) != AfterWindows(ideal, target, floor, d, i)
      invariant var s := AfterWindows(ideal, target, floor, d, n); Pow2(n) * s == d || Pow2(n) * d <= s
      decreases 64 - n
    {
      n := n + 1;
      ds, rates := ExactRun(ideal, target, floor, d, n);
      EveryWindowChanges(ds);
      ChangesAreLogarithmic(ds, rates, 0.5 * ideal, target, floor);
    }
  }

  /** Once settled, always settled. */
  lemma {:induction false} StaysSettled(ideal: real, target: real, floor: nat, d: nat, n: nat)
    requires Window(ideal, target, floor, d) == d
    ensures AfterWindows(ideal, target, floor, d, n) == d
  {
    if n > 0 {
      StaysSettled(ideal, target, floor, d, n - 1);
    }
  }
}
