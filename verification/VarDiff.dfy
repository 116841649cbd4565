/** Variable difficulty as a closed loop: a miner of constant speed against the retarget rule.

    A miner's speed is given by its ideal difficulty, the one at which it would find shares exactly
    at the target rate; at difficulty d it finds ideal * target / d of them per minute. What a window
    measures may be off. All that matters is that some difficulty, the cut, separates raising from
    lowering: windows read as too fast only below the cut, as too slow only above twice the cut. */
module VarDiff {
  import opened Powers
  import opened Difficulty

  /** A measured rate that the retarget rule takes the right way for a miner with this cut. */
  ghost predicate Separated(cut: real, target: real, d: nat, rate: real) {
    && (rate < target * 0.5 ==> 2.0 * cut < d as real)
    && (rate > target * 2.0 ==> d as real < cut)
  }

  /** Difficulties ds and measured rates of consecutive retarget windows. */
  ghost predicate FollowsRule(ds: seq<nat>, rates: seq<real>, target: real, floor: nat) {
    && |ds| == |rates| + 1
    && forall i :: 0 <= i < |rates| ==> ds[i + 1] == NextDifficulty(ds[i], rates[i], target, floor)
  }

  /** The same, with every measurement on the right side of the cut. */
  ghost predicate IsRun(ds: seq<nat>, rates: seq<real>, cut: real, target: real, floor: nat) {
    && FollowsRule(ds, rates, target, floor)
    && forall i :: 0 <= i < |rates| ==> Separated(cut, target, ds[i], rates[i])
  }

  /** Cuts for which no reachable difficulty doubles beyond 64 bits, and legal start and floor. */
  ghost predicate InRange(cut: real, target: real, floor: nat, start: nat) {
    && 0.0 <= cut && 2.0 * cut <= U64 as real && 0.0 < target
    && IsPow2(start) && start < U64 && IsPow2(floor) && floor < U64
  }

  /** Too slow to be doubled, now and after any further halving. */
  predicate Slow(cut: real, d: nat) {
    cut < d as real
  }

  /** Too fast to be lowered, now and after any further doubling; or nothing lower is allowed. */
  predicate Fast(cut: real, floor: nat, d: nat) {
    d <= floor || d as real < 2.0 * cut
  }

  /** A power of two above another stays at or above it when halved. */
  lemma PowersOrdered(d: nat, floor: nat)
    requires IsPow2(d) && IsPow2(floor)
    ensures floor < d ==> floor <= d / 2 && d == 2 * (d / 2)
  {
    var j: nat :| d == Pow2(j);
    var k: nat :| floor == Pow2(k);
    PowersApart(k, j);
    HalfOfPower(d);
  }

  /** A slow window raises the difficulty exactly when it is below the floor. */
  lemma SlowRaisesIff(d: nat, rate: real, target: real, floor: nat)
    requires IsPow2(d) && IsPow2(floor) && rate < target * 0.5
    ensures NextDifficulty(d, rate, target, floor) > d <==> d < floor
  {
    PowersOrdered(d, floor);
  }

  /** The tier that starts at 1 under the configured floor of 2: a miner too slow for it is raised. */
  lemma SlowMinerRaised(rate: real, target: real)
    requires rate < target * 0.5
    ensures NextDifficulty(1, rate, target, 2) == 2
  {
  }

  lemma LoweredWindow(cut: real, floor: nat, d: nat, n: nat)
    requires IsPow2(d) && IsPow2(floor) && 2.0 * cut < d as real && n == Max(d / 2, floor)
    ensures n < d ==> d == 2 * n && Slow(cut, n)
    ensures n > d ==> n == floor
    ensures Fast(cut, floor, d) ==> d <= n
    ensures floor <= d ==> n <= d
  {
    PowersOrdered(d, floor);
  }

  /** What one window can do: a move down leaves the miner slow, a move up leaves it fast, a slow
      miner never moves up past the floor and a fast one never moves down. */
  ghost predicate WindowMoves(cut: real, floor: nat, d: nat, n: nat) {
    && (n < d ==> d == 2 * n && floor <= n && Slow(cut, n))
    && (n > d ==> (n == 2 * d || n == floor) && Fast(cut, floor, n))
    && (Slow(cut, d) && floor <= d ==> n <= d)
    && (Fast(cut, floor, d) ==> d <= n)
  }

  lemma OneWindow(cut: real, target: real, floor: nat, d: nat, rate: real)
    requires InRange(cut, target, floor, d) && Separated(cut, target, d, rate)
    ensures var n := NextDifficulty(d, rate, target, floor);
            IsPow2(n) && n < U64 && WindowMoves(cut, floor, d, n)
  {
    RetargetKeepsPower(d, rate, target, floor);
    var n := NextDifficulty(d, rate, target, floor);
    if rate < target * 0.5 {
      LoweredWindow(cut, floor, d, n);
    } else if rate > target * 2.0 {
      RaisedFits(cut, d);
    }
  }

  lemma RaisedFits(cut: real, d: nat)
    requires 2.0 * cut <= U64 as real && d as real < cut
    ensures 2 * d < U64 && (2 * d) % U64 == 2 * d && d != Pow2(63)
  {
    Pow2Values();
  }

  lemma {:induction false} RunInRange(ds: seq<nat>, rates: seq<real>, cut: real, target: real, floor: nat, i: nat)
    requires IsRun(ds, rates, cut, target, floor) && i < |ds| && InRange(cut, target, floor, ds[0])
    ensures InRange(cut, target, floor, ds[i])
  {
    if i > 0 {
      RunInRange(ds, rates, cut, target, floor, i - 1);
      OneWindow(cut, target, floor, ds[i - 1], rates[i - 1]);
    }
  }

  /** After one halving the difficulty never rises again. */
  lemma {:induction false} KeepsFalling(ds: seq<nat>, rates: seq<real>, cut: real, target: real, floor: nat, i: nat, j: nat)
    requires IsRun(ds, rates, cut, target, floor) && InRange(cut, target, floor, ds[0])
    requires i < j < |ds| && ds[i + 1] < ds[i]
    ensures Slow(cut, ds[j]) && floor <= ds[j]
    ensures j < |rates| ==> ds[j + 1] <= ds[j]
  {
    RunInRange(ds, rates, cut, target, floor, j - 1);
    OneWindow(cut, target, floor, ds[j - 1], rates[j - 1]);
    if i + 1 < j {
      KeepsFalling(ds, rates, cut, target, floor, i, j - 1);
    }
    if j < |rates| {
      RunInRange(ds, rates, cut, target, floor, j);
      OneWindow(cut, target, floor, ds[j], rates[j]);
    }
  }

  /** After one raise the difficulty never falls again. */
  lemma {:induction false} KeepsRising(ds: seq<nat>, rates: seq<real>, cut: real, target: real, floor: nat, i: nat, j: nat)
    requires IsRun(ds, rates, cut, target, floor) && InRange(cut, target, floor, ds[0])
    requires i < j < |ds| && ds[i] < ds[i + 1]
    ensures Fast(cut, floor, ds[j])
    ensures j < |rates| ==> ds[j] <= ds[j + 1]
  {
    RunInRange(ds, rates, cut, target, floor, j - 1);
    OneWindow(cut, target, floor, ds[j - 1], rates[j - 1]);
    if i + 1 < j {
      KeepsRising(ds, rates, cut, target, floor, i, j - 1);
    }
    if j < |rates| {
      RunInRange(ds, rates, cut, target, floor, j);
      OneWindow(cut, target, floor, ds[j], rates[j]);
    }
  }

  /** With a cut the retarget never hunts: no run both lowers and raises the difficulty, in either
      order. */
  lemma NeverReverses(ds: seq<nat>, rates: seq<real>, cut: real, target: real, floor: nat, i: nat, j: nat)
    requires IsRun(ds, rates, cut, target, floor) && InRange(cut, target, floor, ds[0])
    requires i < |rates| && j < |rates| && ds[i + 1] < ds[i]
    ensures ds[j + 1] <= ds[j]
  {
    if i < j {
      KeepsFalling(ds, rates, cut, target, floor, i, j);
    } else if ds[j] < ds[j + 1] {
      KeepsRising(ds, rates, cut, target, floor, j, i);
      assert false;
    }
  }

  function Changes(ds: seq<nat>): nat {
    if |ds| <= 1 then 0
    else Changes(ds[..|ds| - 1]) + (if ds[|ds| - 1] != ds[|ds| - 2] then 1 else 0)
  }

  ghost predicate NonRising(ds: seq<nat>) {
    forall i :: 0 <= i < |ds| - 1 ==> ds[i + 1] <= ds[i]
  }

  ghost predicate NonFalling(ds: seq<nat>) {
    forall i :: 0 <= i < |ds| - 1 ==> ds[i] <= ds[i + 1]
  }

  lemma DoubleProduct(c: nat, x: nat)
    ensures Pow2(c + 1) * x == 2 * (Pow2(c) * x) == Pow2(c) * (2 * x)
  {
  }

  lemma {:induction false} FallingChanges(ds: seq<nat>, rates: seq<real>, cut: real, target: real, floor: nat)
    requires IsRun(ds, rates, cut, target, floor) && InRange(cut, target, floor, ds[0]) && NonRising(ds)
    ensures Pow2(Changes(ds)) * ds[|ds| - 1] == ds[0]
  {
    var n := |rates|;
    if n > 0 {
      FallingChanges(ds[..n], rates[..n - 1], cut, target, floor);
      RunInRange(ds, rates, cut, target, floor, n - 1);
      OneWindow(cut, target, floor, ds[n - 1], rates[n - 1]);
      DoubleProduct(Changes(ds[..n]), ds[n]);
    }
  }

  lemma {:induction false} RisingChanges(ds: seq<nat>, rates: seq<real>, cut: real, target: real, floor: nat)
    requires IsRun(ds, rates, cut, target, floor) && InRange(cut, target, floor, ds[0]) && NonFalling(ds)
    ensures Pow2(Changes(ds)) * ds[0] <= ds[|ds| - 1]
  {
    var n := |rates|;
    if n > 0 {
      RisingChanges(ds[..n], rates[..n - 1], cut, target, floor);
      RunInRange(ds, rates, cut, target, floor, n - 1);
      OneWindow(cut, target, floor, ds[n - 1], rates[n - 1]);
      PowersOrdered(ds[n], ds[n - 1]);
      DoubleProduct(Changes(ds[..n]), ds[0]);
    }
  }

  /** A power of two between a lower bound and 2^n. */
  ghost predicate Within(d: nat, low: nat, n: nat) {
    IsPow2(d) && low <= d <= Pow2(n)
  }

  lemma FitsU64(n: nat)
    requires n <= 63
    ensures Pow2(n) < U64
  {
    Pow2Monotone(n, 63);
    Pow2Values();
  }

  lemma RetargetStaysWithin(d: nat, rate: real, target: real, floor: nat, low: nat, n: nat)
    requires Within(d, low, n) && Within(floor, low, n) && n < 63
    ensures Within(NextDifficulty(d, rate, target, floor), low, n + 1)
  {
    FitsU64(n);
    FitsU64(n + 1);
    assert Pow2(n + 1) == 2 * Pow2(n);
    RetargetKeepsPower(d, rate, target, floor);
  }

  lemma FloorWithin(d: nat, floor: nat, e: nat, n: nat)
    requires IsPow2(floor) && Max(d, floor) == Pow2(e) && e <= n
    ensures Within(floor, Min(d, floor), n)
  {
    Pow2Monotone(e, n);
  }

  /** Whatever the rates, each change at most doubles the difficulty, and nothing wraps while the
      exponent of the larger of start and floor plus the number of changes is at most 63. */
  lemma {:induction false} RunStaysWithin(ds: seq<nat>, rates: seq<real>, target: real, floor: nat, e: nat)
    requires FollowsRule(ds, rates, target, floor) && e + Changes(ds) <= 63
    requires IsPow2(ds[0]) && IsPow2(floor) && Max(ds[0], floor) == Pow2(e)
    ensures Within(ds[|ds| - 1], Min(ds[0], floor), e + Changes(ds))
  {
    var n := |rates|;
    if n > 0 {
      RunStaysWithin(ds[..n], rates[..n - 1], target, floor, e);
      var c, low := Changes(ds[..n]), Min(ds[0], floor);
      assert Changes(ds) == c + (if ds[n] != ds[n - 1] then 1 else 0);
      if ds[n] != ds[n - 1] {
        FloorWithin(ds[0], floor, e, e + c);
        RetargetStaysWithin(ds[n - 1], rates[n - 1], target, floor, low, e + c);
      }
    } else {
      assert Changes(ds) == 0;
    }
  }

  /** The number of changes over any run is the base-two logarithm of the total move, or less when
      the one raise to the floor skips powers; so it is at most 63, however long the run. */
  lemma ChangesAreLogarithmic(ds: seq<nat>, rates: seq<real>, cut: real, target: real, floor: nat)
    requires IsRun(ds, rates, cut, target, floor) && InRange(cut, target, floor, ds[0])
    ensures var c, last := Changes(ds), ds[|ds| - 1];
            (Pow2(c) * last == ds[0] || Pow2(c) * ds[0] <= last) && c < 64
  {
    var c, last := Changes(ds), ds[|ds| - 1];
    if i :| 0 <= i < |rates| && ds[i + 1] < ds[i] {
      forall j | 0 <= j < |ds| - 1 ensures ds[j + 1] <= ds[j] {
        NeverReverses(ds, rates, cut, target, floor, i, j);
      }
      FallingChanges(ds, rates, cut, target, floor);
      RunInRange(ds, rates, cut, target, floor, |rates|);
      BelowU64(c, last, ds[0]);
    } else {
      assert forall j :: 0 <= j < |ds| - 1 ==> !(ds[j + 1] < ds[j]);
      RisingChanges(ds, rates, cut, target, floor);
      RunInRange(ds, rates, cut, target, floor, |rates|);
      BelowU64(c, ds[0], last);
    }
  }

  lemma BelowU64(c: nat, d: nat, bound: nat)
    requires 0 < d && Pow2(c) * d <= bound < U64
    ensures c < 64
  {
    ProductDominates(Pow2(c), d);
    Pow2Values();
    if c >= 64 {
      Pow2Monotone(64, c);
    }
  }

  lemma ProductDominates(a: nat, d: nat)
    requires 0 < d
    ensures a <= a * d
  {
  }
}
