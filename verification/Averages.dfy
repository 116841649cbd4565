/** The engine's incremental averages in closed form. */
module Averages {
  import opened Powers
  import opened Clock
  import opened Telemetry
  import opened Ledger
  import opened Oracle
  import opened Accounting
  import opened Flushes

  /** One average's shares: what each contributed when it came, and when. */
  type History = seq<(real, nat)>

  /** The time from the k-th share to the last, gap by gap. */
  function Age(h: History, k: nat): nat
    requires k < |h|
    decreases |h| - k
  {
    if k == |h| - 1 then 0 else Elapsed(h[k].1, h[k + 1].1) + Age(h, k + 1)
  }

  /** The k-th contribution, decayed by its age and some more. */
  function Decayed(h: History, k: nat, more: nat, rho: real): real
    requires k < |h|
  {
    h[k].0 * Pow(rho, Age(h, k) + more)
  }

  /** The sum of the first n contributions so decayed. */
  function DecayedPart(h: History, n: nat, more: nat, rho: real): real
    requires n <= |h|
  {
    if n == 0 then 0.0 else DecayedPart(h, n - 1, more, rho) + Decayed(h, n - 1, more, rho)
  }

  /** All of them. */
  function DecayedSum(h: History, more: nat, rho: real): real {
    DecayedPart(h, |h|, more, rho)
  }

  /** With readings that never go back, a share's age is the difference of the times. */
  lemma {:induction false} AgeIsDifference(h: History, k: nat)
    requires k < |h| && forall i, j :: 0 <= i < j < |h| ==> h[i].1 <= h[j].1
    ensures Age(h, k) == h[|h| - 1].1 - h[k].1
    decreases |h| - k
  {
    if k < |h| - 1 {
      AgeIsDifference(h, k + 1);
    }
  }

  lemma {:induction false} AgeAfter(h: History, x: (real, nat), k: nat)
    requires k < |h|
    ensures Age(h + [x], k) == Age(h, k) + Elapsed(h[|h| - 1].1, x.1)
    decreases |h| - k
  {
    if k < |h| - 1 {
      AgeAfter(h, x, k + 1);
    } else {
      assert Age(h + [x], k + 1) == 0;
    }
  }

  /** A later share ages every earlier one by the time in between. */
  lemma {:induction false} PartAfter(h: History, x: (real, nat), n: nat, more: nat, rho: real)
    requires n <= |h| && h != []
    ensures DecayedPart(h + [x], n, more, rho) == DecayedPart(h, n, Elapsed(h[|h| - 1].1, x.1) + more, rho)
  {
    if n > 0 {
      PartAfter(h, x, n - 1, more, rho);
      AgeAfter(h, x, n - 1);
      assert (h + [x])[n - 1] == h[n - 1];
      assert Age(h + [x], n - 1) + more == Age(h, n - 1) + (Elapsed(h[|h| - 1].1, x.1) + more);
    }
  }

  /** A contribution's factors: x decays by p until the last share and by q for the time after. */
  lemma Factors(h: History, k: nat, more: nat, rho: real) returns (x: real, p: real, pq: real)
    requires k < |h|
    ensures Decayed(h, k, 0, rho) == x * p && Decayed(h, k, more, rho) == x * pq && pq == p * Pow(rho, more)
  {
    var age := Age(h, k);
    x, p, pq := h[k].0, Pow(rho, age), Pow(rho, age + more);
    assert age + 0 == age;
    PowAdd(rho, age, more);
  }

  lemma DecaysMore(h: History, k: nat, more: nat, rho: real)
    requires k < |h|
    ensures Decayed(h, k, more, rho) == Decayed(h, k, 0, rho) * Pow(rho, more)
  {
    var x, p, pq := Factors(h, k, more, rho);
    Reassociate(x, p, Pow(rho, more), pq, Decayed(h, k, 0, rho), Decayed(h, k, more, rho));
  }

  lemma Reassociate(x: real, p: real, q: real, pq: real, xp: real, xpq: real)
    requires pq == p * q && xp == x * p && xpq == x * pq
    ensures xpq == xp * q
  {
  }

  lemma LastTerm(h: History, n: nat, more: nat, rho: real) returns (x: real, xq: real)
    requires 0 < n <= |h|
    ensures DecayedPart(h, n, 0, rho) == DecayedPart(h, n - 1, 0, rho) + x
    ensures DecayedPart(h, n, more, rho) == DecayedPart(h, n - 1, more, rho) + xq
    ensures xq == x * Pow(rho, more)
  {
    x, xq := Decayed(h, n - 1, 0, rho), Decayed(h, n - 1, more, rho);
    DecaysMore(h, n - 1, more, rho);
  }

  /** Decaying a sum once more multiplies it. */
  lemma {:induction false} PartDecays(h: History, n: nat, more: nat, rho: real)
    requires n <= |h|
    ensures DecayedPart(h, n, more, rho) == DecayedPart(h, n, 0, rho) * Pow(rho, more)
  {
    if n > 0 {
      var x, xq := LastTerm(h, n, more, rho);
      PartDecays(h, n - 1, more, rho);
      Distribute(DecayedPart(h, n - 1, 0, rho), x, Pow(rho, more), DecayedPart(h, n, 0, rho), DecayedPart(h, n - 1, more, rho), xq);
    }
  }

  lemma Distribute(a: real, b: real, q: real, sum: real, aq: real, bq: real)
    requires sum == a + b && aq == a * q && bq == b * q
    ensures sum * q == aq + bq
  {
  }

  /** A new share decays the sum by the time since the last one and adds its own contribution. */
  lemma SumAfter(h: History, x: (real, nat), rho: real)
    ensures DecayedSum(h + [x], 0, rho) ==
            if h == [] then x.0 else DecayedSum(h, 0, rho) * Pow(rho, Elapsed(h[|h| - 1].1, x.1)) + x.0
  {
    var g, n := h + [x], |h|;
    assert Age(g, n) + 0 == 0 && Pow(rho, 0) == 1.0;
    assert DecayedSum(g, 0, rho) == DecayedPart(g, n, 0, rho) + x.0;
    if h != [] {
      var dt := Elapsed(h[n - 1].1, x.1);
      PartAfter(h, x, n, 0, rho);
      assert dt + 0 == dt;
      PartDecays(h, n, dt, rho);
    }
  }

  lemma NextEmaExpanded(ema: real, difficulty: nat, dt: nat, tau: real, rho: real)
    requires tau > 0.0
    ensures NextEma(ema, difficulty, dt, tau, rho) == ema * Pow(rho, dt) + Contribution(difficulty, dt, tau, rho)
  {
  }

  /** What the shares received from a worker since it was last unknown to the engine contributed to
      its i-th average. A first share comes at no distance from itself. */
  ghost function Heard(decay: Decay, start: System, steps: seq<Step>, w: string, i: nat): History
    requires i < 7
  {
    if steps == [] then []
    else
      var before, step := steps[..|steps| - 1], steps[|steps| - 1];
      var s, h := Run(decay, start, before), Heard(decay, start, before, w, i);
      if step.Receive? && step.worker == w then
        h + [(Contribution(step.difficulty, SinceLast(h, step.now), TAUS[i], decay[i]), step.now)]
      else if step.Flush? && Enabled(decay, s, step) && w !in AfterFlush(decay, s.workers, step.at) then []
      else h
  }

  function SinceLast(h: History, now: nat): nat {
    if h == [] then 0 else Elapsed(h[|h| - 1].1, now)
  }

  /** A worker's state tells its history. */
  ghost predicate Remembers(decay: Decay, workers: Workers, w: string, h: History, i: nat)
    requires i < 7
  {
    && (w in workers <==> h != [])
    && (w in workers ==>
          workers[w].lastShare == h[|h| - 1].1 && workers[w].emas[i] == DecayedSum(h, 0, decay[i]))
  }

  lemma ShareRemembered(decay: Decay, workers: Workers, w: string, h: History, i: nat, difficulty: nat, now: nat)
    requires i < 7 && Remembers(decay, workers, w, h, i)
    ensures Remembers(decay, AfterShare(decay, workers, w, difficulty, now), w,
                      h + [(Contribution(difficulty, SinceLast(h, now), TAUS[i], decay[i]), now)], i)
  {
    var s, dt := StateOf(workers, w, now), SinceLast(h, now);
    var c := Contribution(difficulty, dt, TAUS[i], decay[i]);
    assert Elapsed(s.lastShare, now) == dt;
    NextEmaExpanded(s.emas[i], difficulty, dt, TAUS[i], decay[i]);
    SumAfter(h, (c, now), decay[i]);
    assert AfterShare(decay, workers, w, difficulty, now)[w].emas[i] == NextEma(s.emas[i], difficulty, dt, TAUS[i], decay[i]);
  }

  /** In every run each of the seven averages of a known worker is the sum of its shares'
      contributions, each decayed over the time since that share, however many flushes there were in
      between. */
  lemma {:induction false} AveragesAreSums(decay: Decay, now: nat, db: Database, steps: seq<Step>, w: string, i: nat)
    requires i < 7
    ensures Remembers(decay, Run(decay, Start(now, db), steps).workers, w, Heard(decay, Start(now, db), steps, w, i), i)
  {
    if steps != [] {
      var before, step := steps[..|steps| - 1], steps[|steps| - 1];
      AveragesAreSums(decay, now, db, before, w, i);
      if step.Receive? && step.worker == w {
        ShareRemembered(decay, Run(decay, Start(now, db), before).workers, w,
                        Heard(decay, Start(now, db), before, w, i), i, step.difficulty, step.now);
      }
    }
  }

  ghost predicate UpTo(h: History, clock: nat) {
    && (forall k :: 0 <= k < |h| ==> h[k].1 <= clock)
    && (forall k, l :: 0 <= k < l < |h| ==> h[k].1 <= h[l].1)
  }

  lemma ClockAdvances(decay: Decay, s: System, step: Step)
    requires NeverBack(s, step)
    ensures s.books.clock <= Next(decay, s, step).books.clock
    ensures step.Receive? ==> Next(decay, s, step).books.clock == step.now
  {
  }

  lemma {:induction false} HeardUpTo(decay: Decay, now: nat, db: Database, steps: seq<Step>, w: string, i: nat)
    requires i < 7
    requires forall k :: 0 <= k < |steps| ==> NeverBack(Run(decay, Start(now, db), steps[..k]), steps[k])
    ensures UpTo(Heard(decay, Start(now, db), steps, w, i), Run(decay, Start(now, db), steps).books.clock)
  {
    if steps != [] {
      var n := |steps| - 1;
      forall k | 0 <= k < n ensures NeverBack(Run(decay, Start(now, db), steps[..n][..k]), steps[..n][k]) {
        assert steps[..n][..k] == steps[..k];
      }
      HeardUpTo(decay, now, db, steps[..n], w, i);
      ClockAdvances(decay, Run(decay, Start(now, db), steps[..n]), steps[n]);
    }
  }

  lemma AgeWhenUpTo(h: History, clock: nat, k: nat)
    requires UpTo(h, clock) && k < |h|
    ensures h[k].1 + Age(h, k) == h[|h| - 1].1
  {
    AgeIsDifference(h, k);
  }

  /** When clock readings never go back, a share's age is the difference between the last share's time
      and its own. */
  lemma AgesAreDifferences(decay: Decay, now: nat, db: Database, steps: seq<Step>, w: string, i: nat, k: nat)
    requires i < 7 && k < |Heard(decay, Start(now, db), steps, w, i)|
    requires forall k :: 0 <= k < |steps| ==> NeverBack(Run(decay, Start(now, db), steps[..k]), steps[k])
    ensures var h := Heard(decay, Start(now, db), steps, w, i); h[k].1 + Age(h, k) == h[|h| - 1].1
  {
    HeardUpTo(decay, now, db, steps, w, i);
    AgeWhenUpTo(Heard(decay, Start(now, db), steps, w, i), Run(decay, Start(now, db), steps).books.clock, k);
  }

  lemma ProjectedExpanded(decay: Decay, s: WorkerState, i: nat, at: nat)
    requires i < 7
    ensures var p := s.emas[i] * Pow(decay[i], Elapsed(s.lastShare, at));
            Projected(decay, s, i, at) == if p > 0.000001 then p else 0.0
  {
  }

  /** The projection of a flush is the same sum, decayed to the flush's own time, with sums of at
      most a millionth shown as zero. */
  lemma ProjectionIsSum(decay: Decay, workers: Workers, w: string, h: History, i: nat, at: nat)
    requires i < 7 && Remembers(decay, workers, w, h, i) && w in workers
    ensures var sum := DecayedSum(h, Elapsed(h[|h| - 1].1, at), decay[i]);
            Projected(decay, workers[w], i, at) == if sum > 0.000001 then sum else 0.0
  {
    ProjectedExpanded(decay, workers[w], i, at);
    PartDecays(h, |h|, Elapsed(h[|h| - 1].1, at), decay[i]);
  }

  /** Shares more than a millisecond apart pull an average towards the instantaneous rate and never
      past it. */
  lemma NextEmaIsBetween(ema: real, difficulty: nat, dt: nat, tau: real, rho: real)
    requires dt > 1 && tau > 0.0 && 0.0 < rho < 1.0
    ensures var rate := (difficulty * 4_294_967_296) as real / (dt as real / 1000.0);
            var next := NextEma(ema, difficulty, dt, tau, rho);
            (ema <= rate ==> ema <= next <= rate) && (rate <= ema ==> rate <= next <= ema)
  {
    PowBounds(rho, dt);
    var rate := (difficulty * KASPA_DIFF_CONSTANT) as real / (dt as real / 1000.0);
    NextEmaExpanded(ema, difficulty, dt, tau, rho);
    Blend(ema, rate, Pow(rho, dt));
  }

  lemma Blend(a: real, b: real, p: real)
    requires 0.0 <= p <= 1.0
    ensures var c := a * p + b * (1.0 - p);
            (a <= b ==> a <= c <= b) && (b <= a ==> b <= c <= a)
  {
    var c := a * p + b * (1.0 - p);
    assert c == a + (b - a) * (1.0 - p) == b + (a - b) * p;
    if a <= b {
      NonNegative(b - a, 1.0 - p);
      NonNegative(b - a, p);
    }
    if b <= a {
      NonNegative(a - b, 1.0 - p);
      NonNegative(a - b, p);
    }
  }

  lemma NonNegative(x: real, y: real)
    requires 0.0 <= x && 0.0 <= y
    ensures 0.0 <= x * y
  {
  }

  /** A share a millisecond or less after the worker's last one, and its first share, adds the whole
      rate it stands for over each window: 2^32 hashes per unit of difficulty, over 1, 3, 8, 21, 55, 144
      and 377 seconds. */
  lemma BurstShare(decay: Decay, workers: Workers, w: string, difficulty: nat, now: nat, i: nat)
    requires i < 7 && (w in workers ==> now <= workers[w].lastShare + 1)
    ensures var prior := StateOf(workers, w, now);
            AfterShare(decay, workers, w, difficulty, now)[w].emas[i] ==
            prior.emas[i] * Pow(decay[i], if now > prior.lastShare then 1 else 0)
            + (difficulty * Pow2(32)) as real / [1.0, 3.0, 8.0, 21.0, 55.0, 144.0, 377.0][i]
    ensures w !in workers ==> StateOf(workers, w, now).emas[i] == 0.0
  {
    assert Pow2(32) == 4_294_967_296 by { Pow2Add(16, 16); Pow2Values(); }
    var prior := StateOf(workers, w, now);
    var dt := Elapsed(prior.lastShare, now);
    NextEmaExpanded(prior.emas[i], difficulty, dt, TAUS[i], decay[i]);
  }

  // ---------------------------------------------------------------- who is evicted

  /** A flush evicts a worker exactly when its last share is 30 s old or older and its 8-second average,
      decayed to the flush, is at most 5 billion hashes a second. */
  lemma EvictedIff(decay: Decay, now: nat, db: Database, steps: seq<Step>, w: string, at: nat)
    requires w in Run(decay, Start(now, db), steps).workers
    ensures var h := Heard(decay, Start(now, db), steps, w, 2);
            && h != []
            && (w !in AfterFlush(decay, Run(decay, Start(now, db), steps).workers, at) <==>
                  h[|h| - 1].1 + 30_000 <= at && DecayedSum(h, at - h[|h| - 1].1, decay[2]) <= 5_000_000_000.0)
  {
    var workers, h := Run(decay, Start(now, db), steps).workers, Heard(decay, Start(now, db), steps, w, 2);
    AveragesAreSums(decay, now, db, steps, w, 2);
    ProjectionIsSum(decay, workers, w, h, 2, at);
  }

  /** The difficulty received from a worker since it was last unknown to the engine. */
  ghost function HeardDifficulty(decay: Decay, start: System, steps: seq<Step>, w: string): nat {
    if steps == [] then 0
    else
      var before, step := steps[..|steps| - 1], steps[|steps| - 1];
      var s, d := Run(decay, start, before), HeardDifficulty(decay, start, before, w);
      if step.Receive? && step.worker == w then d + step.difficulty
      else if step.Flush? && Enabled(decay, s, step) && w !in AfterFlush(decay, s.workers, step.at) then 0
      else d
  }

  /** That is what a worker's state says it contributed. */
  lemma {:induction false} ContributedIsHeard(decay: Decay, now: nat, db: Database, steps: seq<Step>, w: string)
    ensures var workers, heard := Run(decay, Start(now, db), steps).workers, HeardDifficulty(decay, Start(now, db), steps, w);
            heard == if w in workers then workers[w].contributed else 0
  {
    if steps != [] {
      ContributedIsHeard(decay, now, db, steps[..|steps| - 1], w);
    }
  }

  // ---------------------------------------------------------------- the published hashrates

  lemma {:induction false} LedgerKeepsRates(s: Store, commands: seq<Command>)
    requires forall i :: 0 <= i < |commands| ==> !commands[i].SetHashrate?
    ensures ApplyAll(s, commands).rates == s.rates
  {
    if commands != [] {
      LedgerKeepsRates(s, commands[..|commands| - 1]);
    }
  }

  /** The hashrate a flush shows for a worker. */
  function Shown(decay: Decay, state: WorkerState, now: nat): real {
    if Online(decay, state, now) then Projected(decay, state, HASHRATE_WINDOW, now) else 0.0
  }

  /** After its first command a worker's others set no hashrate. */
  lemma OneRateEach(decay: Decay, w: string, state: WorkerState, now: nat)
    ensures var all := WorkerCommands(decay, w, state, now);
            && all[0] == SetHashrate(w, Shown(decay, state, now))
            && forall i :: 0 < i < |all| ==> !all[i].SetHashrate?
  {
    if Online(decay, state, now) && state.unflushed > 0 {
      var ledger := LedgerCommands(w, state);
      assert WorkerCommands(decay, w, state, now)[1..] == ledger;
      forall i | 0 <= i < |ledger| ensures !ledger[i].SetHashrate? {
        if i >= 3 {
          assert ledger[i] == Pushes(Tagged(w, state.pending))[i - 3];
        }
      }
      forall i | 0 < i < |ledger| + 1 ensures !WorkerCommands(decay, w, state, now)[i].SetHashrate? {
        assert WorkerCommands(decay, w, state, now)[i] == ledger[i - 1];
      }
    }
  }

  lemma WorkerRate(decay: Decay, s: Store, w: string, state: WorkerState, now: nat)
    ensures ApplyAll(s, WorkerCommands(decay, w, state, now)).rates == s.rates[w := Shown(decay, state, now)]
  {
    var all := WorkerCommands(decay, w, state, now);
    OneRateEach(decay, w, state, now);
    ApplyOne(s, all[0]);
    assert all == [all[0]] + all[1..];
    ApplyAllConcat(s, [all[0]], all[1..]);
    LedgerKeepsRates(ApplyAll(s, [all[0]]), all[1..]);
  }

  ghost predicate Known(workers: Workers, order: seq<string>) {
    forall w :: w in order ==> w in workers
  }

  ghost function FlushedRates(decay: Decay, s: Store, workers: Workers, order: seq<string>, now: nat): map<string, real>
    requires Known(workers, order)
  {
    ApplyAll(s, Pipeline(decay, workers, order, now)).rates
  }

  lemma FlushOneMore(decay: Decay, s: Store, workers: Workers, order: seq<string>, w: string, now: nat)
    requires Known(workers, order) && w in workers
    ensures Known(workers, order + [w])
    ensures FlushedRates(decay, s, workers, order + [w], now) ==
            FlushedRates(decay, s, workers, order, now)[w := Shown(decay, workers[w], now)]
  {
    var before := Pipeline(decay, workers, order, now);
    assert (order + [w])[..|order|] == order;
    ApplyAllConcat(s, before, WorkerCommands(decay, w, workers[w], now));
    WorkerRate(decay, ApplyAll(s, before), w, workers[w], now);
  }

  ghost predicate ShownIn(rates: map<string, real>, w: string, rate: real) {
    w in rates && rates[w] == rate
  }

  lemma ShownAfter(rates: map<string, real>, v: string, x: real, w: string, y: real)
    requires if v == w then x == y else ShownIn(rates, w, y)
    ensures ShownIn(rates[v := x], w, y)
  {
  }

  /** A whole flush publishes for every worker its projected hashrate, or zero for one it evicts. */
  lemma {:induction false} FlushPublishes(decay: Decay, s: Store, workers: Workers, order: seq<string>, now: nat, w: string)
    requires Known(workers, order) && w in order
    ensures ShownIn(FlushedRates(decay, s, workers, order, now), w, Shown(decay, workers[w], now))
  {
    var most, v := order[..|order| - 1], order[|order| - 1];
    assert order == most + [v];
    if v != w {
      FlushPublishes(decay, s, workers, most, now, w);
    }
    FlushOneMore(decay, s, workers, most, v, now);
    ShownAfter(FlushedRates(decay, s, workers, most, now), v, Shown(decay, workers[v], now), w, Shown(decay, workers[w], now));
  }
}
