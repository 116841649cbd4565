/** Difficulty arithmetic: rounding to a power of two, the pool target, and one retarget. */
module Difficulty {
  import opened Powers

  const MAX_TARGET := 0xffff_ffff_ffff_ffff_ffff_ffff_ffff_ffff_ffff_ffff_ffff_ffff_ffff_ffff_ffff_ffff

  type Hash256 = h: nat | h <= MAX_TARGET

  /** What the proof-of-work library reports for a header and a nonce. */
  datatype PowResult = PowResult(isNetworkBlock: bool, hash: Hash256)

  datatype Verdict = Verdict(isValidShare: bool, isNetworkBlock: bool)

  /** floor(log4(x)). */
  function Log4(x: real): nat
    requires x >= 1.0
    decreases x.Floor
  {
    if x < 4.0 then 0 else 1 + Log4(x / 4.0)
  }

  /** log2(d) rounded to the nearest integer, halves upwards, which is floor(log4(2 * d^2)). */
  function RoundedLog2(d: real): nat
    requires d > 1.0
  {
    Log4(2.0 * d * d)
  }

  /** The u64 power wraps, so an exponent of 64 or more gives 0. */
  function ClampToPowerOf2(d: real): nat {
    if d <= 1.0 then 1 else Pow2(RoundedLog2(d)) % U64
  }

  /** p is the rounding of d: sqrt(1/2) * p <= d < sqrt(2) * p, squared. */
  ghost predicate Rounds(p: real, d: real) {
    p * p <= 2.0 * d * d < 4.0 * p * p
  }

  /** p is at least as near to d as q on a logarithmic scale: their geometric mean is beyond d. */
  ghost predicate NearerThan(p: real, q: real, d: real) {
    (q < p ==> p * q <= d * d) && (q > p ==> d * d < p * q)
  }

  lemma {:induction false} Log4Brackets(x: real)
    requires x >= 1.0
    ensures (Pow2(2 * Log4(x)) as real) <= x < 4.0 * (Pow2(2 * Log4(x)) as real)
    decreases x.Floor
  {
    if x >= 4.0 {
      var k := Log4(x / 4.0);
      Log4Brackets(x / 4.0);
      assert Pow2(2 * k + 2) == 2 * Pow2(2 * k + 1) == 4 * Pow2(2 * k);
      assert 2 * Log4(x) == 2 * k + 2;
    }
  }

  lemma SquareOfNat(n: nat)
    ensures (n * n) as real == (n as real) * (n as real)
  {
  }

  lemma RoundsBySquare(p: nat, square: nat, d: real)
    requires square == p * p && square as real <= 2.0 * d * d < 4.0 * square as real
    ensures Rounds(p as real, d)
  {
    SquareOfNat(p);
  }

  lemma DoubleSquare(d: real)
    requires d > 1.0
    ensures 2.0 * d * d >= 1.0
  {
    assert d * d > 1.0;
  }

  /** The rounded logarithm in exact arithmetic. */
  lemma RoundedLog2Brackets(d: real)
    requires d > 1.0
    ensures Rounds(Pow2(RoundedLog2(d)) as real, d)
  {
    var k := RoundedLog2(d);
    DoubleSquare(d);
    Log4Brackets(2.0 * d * d);
    Pow2Add(k, k);
    assert 2 * k == k + k;
    RoundsBySquare(Pow2(k), Pow2(2 * k), d);
  }

  /** The exponent fits 64 bits exactly when d is below 2^63.5. */
  lemma {:induction false} RoundedLog2Fits(d: real)
    requires d > 1.0
    ensures RoundedLog2(d) < 64 <==> 2.0 * d * d < Pow2(128) as real
  {
    var k := RoundedLog2(d);
    assert d * d > 1.0;
    Log4Brackets(2.0 * d * d);
    if k < 64 {
      Pow2Monotone(2 * k + 2, 128);
      assert Pow2(2 * k + 2) == 2 * Pow2(2 * k + 1) == 4 * Pow2(2 * k);
    } else {
      Pow2Monotone(128, 2 * k);
    }
  }

  lemma HighPowersWrap(k: nat)
    requires k >= 64
    ensures Pow2(k) % U64 == 0
  {
    Pow2Add(k - 64, 64);
    assert Pow2(64) == U64 by { Pow2Values(); }
    MultipleHasNoRemainder(Pow2(k - 64));
  }

  lemma MultipleHasNoRemainder(a: nat)
    ensures (a * U64) % U64 == 0
  {
  }

  lemma LowPowersFit(k: nat)
    requires k < 64
    ensures Pow2(k) % U64 == Pow2(k)
  {
    assert Pow2(63) < U64 by { Pow2Values(); }
    Pow2Monotone(k, 63);
  }

  /** Rounding gives 0 exactly when the exponent overflows. */
  lemma ClampOverflows(d: real)
    ensures ClampToPowerOf2(d) == 0 <==> d > 1.0 && 2.0 * d * d >= Pow2(128) as real
  {
    if d > 1.0 {
      RoundedLog2Fits(d);
      if RoundedLog2(d) < 64 {
        LowPowersFit(RoundedLog2(d));
      } else {
        HighPowersWrap(RoundedLog2(d));
      }
    }
  }

  lemma MulMonotone(a: real, b: real, c: real)
    requires a <= b && 0.0 <= c
    ensures a * c <= b * c
  {
  }

  lemma GeometricMeans(p: real, q: real, d: real)
    requires 0.0 < p && 0.0 < q && 0.0 < d && Rounds(p, d)
    requires (q < p ==> 2.0 * q <= p) && (p < q ==> 2.0 * p <= q)
    ensures NearerThan(p, q, d)
  {
    if q < p {
      MulMonotone(2.0 * q, p, p);
    } else if p < q {
      MulMonotone(2.0 * p, q, p);
    }
  }

  /** Distinct powers of two are a factor of two apart. */
  lemma PowersApart(j: nat, k: nat)
    ensures Pow2(j) < Pow2(k) ==> j < k && 2 * Pow2(j) <= Pow2(k)
  {
    if k <= j {
      Pow2Monotone(k, j);
    } else {
      Pow2Monotone(j, k);
    }
  }

  lemma ClampFits(d: real)
    requires d > 1.0 && RoundedLog2(d) < 64
    ensures ClampToPowerOf2(d) == Pow2(RoundedLog2(d)) < U64
  {
    LowPowersFit(RoundedLog2(d));
  }

  /** Without overflow the result is the power of two nearest to d on a logarithmic scale. */
  lemma ClampIsNearest(d: real, j: nat)
    requires d > 1.0 && RoundedLog2(d) < 64
    ensures IsPow2(ClampToPowerOf2(d))
    ensures Rounds(ClampToPowerOf2(d) as real, d)
    ensures NearerThan(ClampToPowerOf2(d) as real, Pow2(j) as real, d)
  {
    var k := RoundedLog2(d);
    ClampFits(d);
    assert IsPow2(Pow2(k));
    RoundedLog2Brackets(d);
    var p, q := Pow2(k) as real, Pow2(j) as real;
    assert q < p ==> 2.0 * q <= p by { PowersApart(j, k); }
    assert p < q ==> 2.0 * p <= q by { PowersApart(k, j); }
    GeometricMeans(p, q, d);
  }

  lemma {:induction false} Log4Monotone(x: real, y: real)
    requires 1.0 <= x <= y
    ensures Log4(x) <= Log4(y)
    decreases x.Floor
  {
    if x >= 4.0 {
      Log4Monotone(x / 4.0, y / 4.0);
    }
  }

  /** Rounding is monotone while it does not overflow. */
  lemma ClampMonotone(c: real, d: real)
    requires c <= d && (d > 1.0 ==> RoundedLog2(d) < 64)
    ensures ClampToPowerOf2(c) <= ClampToPowerOf2(d)
  {
    if d > 1.0 {
      ClampFits(d);
      if c > 1.0 {
        MulMonotone(c, d, c);
        MulMonotone(c, d, d);
        Log4Monotone(2.0 * c * c, 2.0 * d * d);
        ClampFits(c);
        Pow2Monotone(RoundedLog2(c), RoundedLog2(d));
      }
    }
  }

  /** A number is its own rounding among the powers of two. */
  lemma RoundsItself(p: real, d: real)
    requires 0.0 < p && 0.0 < d && Rounds(p, d) && (p < d ==> 2.0 * p <= d) && (d < p ==> 2.0 * d <= p)
    ensures p == d
  {
    if p < d {
      MulMonotone(2.0 * p, d, d);
      MulMonotone(2.0 * p, d, p);
    } else if d < p {
      MulMonotone(2.0 * d, p, p);
      MulMonotone(2.0 * d, p, d);
    }
  }

  /** Rounding leaves every 64-bit power of two alone. */
  lemma ClampFixesPowers(k: nat)
    requires k < 64
    ensures ClampToPowerOf2(Pow2(k) as real) == Pow2(k)
  {
    if k > 0 {
      var d := Pow2(k) as real;
      Pow2Monotone(1, k);
      assert Pow2(1) == 2;
      RoundedLog2Brackets(d);
      var j := RoundedLog2(d);
      PowersApart(j, k);
      PowersApart(k, j);
      RoundsItself(Pow2(j) as real, d);
      Pow2Injective(j, k);
      ClampFits(d);
    }
  }

  function PoolTarget(difficulty: nat): Hash256 {
    if difficulty <= 1 then MAX_TARGET else MAX_TARGET / difficulty
  }

  function VerifyShare(pow: (nat, nat) -> PowResult, header: nat, nonce: nat, difficulty: nat): Verdict {
    var r := pow(header, nonce);
    Verdict(r.hash <= PoolTarget(difficulty), r.isNetworkBlock)
  }

  lemma DivisionBound(m: nat, x: nat, d: nat)
    requires d > 0
    ensures x <= m / d <==> x * d <= m
  {
    var q := m / d;
    assert q * d <= m < q * d + d;
    if x <= q {
      MulNatMonotone(x, q, d);
    } else {
      MulNatMonotone(q + 1, x, d);
    }
  }

  lemma MulNatMonotone(a: nat, b: nat, c: nat)
    requires a <= b
    ensures a * c <= b * c
  {
  }

  lemma MaxTargetIs()
    ensures MAX_TARGET + 1 == Pow2(256)
  {
    Pow2Values();
    Pow2Add(64, 64);
    Pow2Add(128, 128);
  }

  /** The truncating 256-bit division loses nothing: a share counts exactly when its hash times the
      difficulty is below 2^256. */
  lemma ShareMeetsDifficulty(hash: Hash256, difficulty: nat)
    ensures hash <= PoolTarget(difficulty) <==> hash * difficulty < Pow2(256)
    ensures hash * difficulty < Pow2(256) <==> hash * difficulty <= MAX_TARGET
  {
    MaxTargetIs();
    if difficulty > 1 {
      DivisionBound(MAX_TARGET, hash, difficulty);
    } else if difficulty == 1 {
      assert hash * difficulty == hash;
    } else {
      assert hash * difficulty == 0;
    }
  }

  function Max(a: nat, b: nat): nat {
    if a >= b then a else b
  }

  function Min(a: nat, b: nat): nat {
    if a <= b then a else b
  }

  /** One retarget at a measured rate of shares per minute. Doubling wraps at 64 bits. */
  function NextDifficulty(d: nat, rate: real, target: real, floor: nat): nat {
    if rate < target * 0.5 then Max(d / 2, floor)
    else if rate > target * 2.0 then (d * 2) % U64
    else d
  }

  lemma HalfOfPower(d: nat)
    requires IsPow2(d)
    ensures d > 1 ==> IsPow2(d / 2) && d == 2 * (d / 2)
  {
    var k: nat :| d == Pow2(k);
    if k > 0 {
      assert d / 2 == Pow2(k - 1);
    }
  }

  lemma DoubleOfPower(d: nat)
    requires IsPow2(d) && d < U64
    ensures IsPow2(2 * d)
    ensures if d == Pow2(63) then 2 * d == U64 else 2 * d < U64
  {
    var k: nat :| d == Pow2(k);
    Pow2Values();
    assert Pow2(k + 1) == 2 * d;
    if k < 63 {
      Pow2Monotone(k + 1, 63);
    } else if k > 63 {
      Pow2Monotone(64, k);
    }
  }

  lemma DoublingWraps(d: nat)
    requires IsPow2(d) && d < U64
    ensures (d * 2) % U64 == if d == Pow2(63) then 0 else 2 * d
  {
    DoubleOfPower(d);
  }

  /** A retarget keeps the difficulty a 64-bit power of two unless it doubles 2^63, and only then
      does the difficulty become 0. */
  lemma RetargetKeepsPower(d: nat, rate: real, target: real, floor: nat)
    requires IsPow2(d) && d < U64 && IsPow2(floor) && floor < U64
    ensures var n := NextDifficulty(d, rate, target, floor);
            var wraps := rate >= target * 0.5 && rate > target * 2.0 && d == Pow2(63);
            && (wraps <==> n == 0)
            && (!wraps ==> IsPow2(n) && n < U64 && Min(d, floor) <= n <= Max(2 * d, floor))
  {
    assert d > 0 && floor > 0;
    if rate < target * 0.5 {
      HalfOfPower(d);
    } else if rate > target * 2.0 {
      DoublingWraps(d);
      DoubleOfPower(d);
    }
  }
}
