/** The accounting engine: one state per worker, fed by accepted shares and flushed once a second
    into a pipeline of ledger commands.

    Times are milliseconds. The decay exp(-dt / tau) of window i is decay[i]^dt, where decay[i] is
    its value for one millisecond. */
module Telemetry {
  import opened Powers
  import opened Clock
  import opened Shares

  const KASPA_DIFF_CONSTANT: nat := 4_294_967_296
  const TAUS: seq<real> := [1.0, 3.0, 8.0, 21.0, 55.0, 144.0, 377.0]
  const HASHRATE_WINDOW: nat := 2
  const ONLINE_HASHRATE: real := 5_000_000_000.0
  const IDLE_LIMIT: nat := 30_000

  /** One factor per averaging window. */
  type Decay = d: seq<real> | |d| == 7 && forall i :: 0 <= i < |d| ==> 0.0 < d[i] < 1.0
    witness [0.5, 0.5, 0.5, 0.5, 0.5, 0.5, 0.5]

  type Emas = e: seq<real> | |e| == 7 witness [0.0, 0.0, 0.0, 0.0, 0.0, 0.0, 0.0]

  datatype WorkerState = WorkerState(
    lastShare: nat,
    emas: Emas,
    contributed: nat,
    unflushed: nat,
    pending: seq<(nat, nat)>)

  type Workers = map<string, WorkerState>

  datatype Command =
    | SetHashrate(worker: string, rate: real)
    | SRem(worker: string)
    | IncrWallet(wallet: string, amount: nat)
    | SAdd(worker: string)
    | IncrShares(worker: string, amount: nat)
    | RPush(share: Share)

  function NewWorker(now: nat): WorkerState {
    WorkerState(now, [0.0, 0.0, 0.0, 0.0, 0.0, 0.0, 0.0], 0, 0, [])
  }

  /** What a share adds to an average dt milliseconds after the one before it. */
  function Contribution(difficulty: nat, dt: nat, tau: real, rho: real): real
    requires tau > 0.0
  {
    var work := (difficulty * KASPA_DIFF_CONSTANT) as real;
    if dt > 1 then work / (dt as real / 1000.0) * (1.0 - Pow(rho, dt)) else work / tau
  }

  function NextEma(ema: real, difficulty: nat, dt: nat, tau: real, rho: real): real
    requires tau > 0.0
  {
    var alpha := 1.0 - Pow(rho, dt);
    ema * (1.0 - alpha) + Contribution(difficulty, dt, tau, rho)
  }

  function NextEmas(decay: Decay, emas: Emas, difficulty: nat, dt: nat): Emas {
    seq(7, i requires 0 <= i < 7 => NextEma(emas[i], difficulty, dt, TAUS[i], decay[i]))
  }

  function StateOf(workers: Workers, worker: string, now: nat): WorkerState {
    if worker in workers then workers[worker] else NewWorker(now)
  }

  function AfterShare(decay: Decay, workers: Workers, worker: string, difficulty: nat, now: nat): Workers {
    var s := StateOf(workers, worker, now);
    workers[worker := WorkerState(
      now,
      NextEmas(decay, s.emas, difficulty, Elapsed(s.lastShare, now)),
      s.contributed + difficulty,
      s.unflushed + difficulty,
      s.pending + [(difficulty, now)])]
  }

  /** An average decayed to the present; tiny values count as zero. */
  function Projected(decay: Decay, s: WorkerState, i: nat, now: nat): real
    requires i < 7
  {
    var alpha := 1.0 - Pow(decay[i], Elapsed(s.lastShare, now));
    var p := s.emas[i] * (1.0 - alpha);
    if p > 0.000001 then p else 0.0
  }

  predicate Online(decay: Decay, s: WorkerState, now: nat) {
    Projected(decay, s, HASHRATE_WINDOW, now) > ONLINE_HASHRATE || Elapsed(s.lastShare, now) < IDLE_LIMIT
  }

  /** A worker's pending shares as events. */
  function Tagged(worker: string, pending: seq<(nat, nat)>): seq<Share> {
    seq(|pending|, i requires 0 <= i < |pending| => Share(worker, pending[i].0, pending[i].1))
  }

  function Pushes(shares: seq<Share>): seq<Command> {
    seq(|shares|, i requires 0 <= i < |shares| => RPush(shares[i]))
  }

  function LedgerHeads(worker: string, s: WorkerState): seq<Command> {
    [IncrWallet(WalletOf(worker), s.unflushed), SAdd(worker), IncrShares(worker, s.unflushed)]
  }

  /** The ledger commands of a worker with difficulty to flush. */
  function LedgerCommands(worker: string, s: WorkerState): seq<Command> {
    LedgerHeads(worker, s) + Pushes(Tagged(worker, s.pending))
  }

  function WorkerCommands(decay: Decay, worker: string, s: WorkerState, now: nat): seq<Command> {
    if !Online(decay, s, now) then [SetHashrate(worker, 0.0), SRem(worker)]
    else [SetHashrate(worker, Projected(decay, s, HASHRATE_WINDOW, now))]
         + (if s.unflushed > 0 then LedgerCommands(worker, s) else [])
  }

  function Flushed(s: WorkerState): WorkerState {
    if s.unflushed > 0 then s.(unflushed := 0, pending := []) else s
  }

  /** The pipeline of a flush that visits the workers in the given order. */
  function Pipeline(decay: Decay, workers: Workers, order: seq<string>, now: nat): seq<Command>
    requires forall w :: w in order ==> w in workers
  {
    if order == [] then []
    else
      var last := order[|order| - 1];
      Pipeline(decay, workers, order[..|order| - 1], now) + WorkerCommands(decay, last, workers[last], now)
  }

  /** What a flush leaves: the online workers, without what was flushed. */
  function AfterFlush(decay: Decay, workers: Workers, now: nat): Workers {
    map w | w in workers && Online(decay, workers[w], now) :: Flushed(workers[w])
  }

  ghost predicate NoRepeats(order: seq<string>) {
    forall i, j :: 0 <= i < j < |order| ==> order[i] != order[j]
  }

  /** Each worker once. */
  ghost predicate IsOrder(order: seq<string>, workers: Workers) {
    NoRepeats(order) && forall w :: w in order <==> w in workers
  }

  /** A worker's state during a flush, before the removals. */
  ghost function Visited(decay: Decay, workers: Workers, w: string, visited: bool, now: nat): WorkerState
    requires w in workers
  {
    if visited && Online(decay, workers[w], now) then Flushed(workers[w]) else workers[w]
  }

  /** The state of a flush partway through its loop over the workers. */
  ghost predicate MidFlush(decay: Decay, before: Workers, workers: Workers, now: nat, unseen: set<string>,
                           order: seq<string>, pipeline: seq<Command>, keysToRemove: seq<string>)
  {
    && unseen <= before.Keys
    && NoRepeats(order)
    && (forall w :: w in order <==> w in before && w !in unseen)
    && pipeline == Pipeline(decay, before, order, now)
    && workers.Keys == before.Keys
    && (forall w :: w in before ==> workers[w] == Visited(decay, before, w, w in order, now))
    && (forall w :: w in keysToRemove <==> w in order && !Online(decay, before[w], now))
  }

  lemma MidFlushStep(decay: Decay, before: Workers, workers: Workers, now: nat, unseen: set<string>,
                     order: seq<string>, pipeline: seq<Command>, keysToRemove: seq<string>, w: string)
    requires MidFlush(decay, before, workers, now, unseen, order, pipeline, keysToRemove) && w in unseen
    ensures w in workers && workers[w] == before[w]
    ensures var online := Online(decay, workers[w], now);
            MidFlush(decay, before, if online then workers[w := Flushed(workers[w])] else workers, now, unseen - {w},
                     order + [w], pipeline + WorkerCommands(decay, w, workers[w], now),
                     if online then keysToRemove else keysToRemove + [w])
  {
    assert (order + [w])[..|order|] == order;
  }

  lemma MidFlushEnds(decay: Decay, before: Workers, workers: Workers, now: nat,
                     order: seq<string>, pipeline: seq<Command>, keysToRemove: seq<string>)
    requires MidFlush(decay, before, workers, now, {}, order, pipeline, keysToRemove)
    ensures workers - (set k | k in keysToRemove) == AfterFlush(decay, before, now)
  {
  }

  class AccountingEngine {
    const decay: Decay
    var workerStates: Workers

    constructor (decay: Decay)
      ensures workerStates == map[] && this.decay == decay
    {
      this.decay := decay;
      workerStates := map[];
    }

    /** The loop over the averaging windows. */
    method UpdateEmas(emas: Emas, difficulty: nat, dt: nat) returns (next: Emas)
      ensures next == NextEmas(decay, emas, difficulty, dt)
    {
      var updated: seq<real> := emas;
      for i := 0 to 7
        invariant |updated| == 7
        invariant forall k :: 0 <= k < i ==> updated[k] == NextEma(emas[k], difficulty, dt, TAUS[k], decay[k])
        invariant forall k :: i <= k < 7 ==> updated[k] == emas[k]
      {
        updated := updated[i := NextEma(updated[i], difficulty, dt, TAUS[i], decay[i])];
      }
      next := updated;
    }

    /** The share arm. */
    method OnShare(worker: string, difficulty: nat, now: nat)
      modifies this
      ensures workerStates == AfterShare(decay, old(workerStates), worker, difficulty, now)
    {
      var state := if worker in workerStates then workerStates[worker] else NewWorker(now);
      var emas := UpdateEmas(state.emas, difficulty, Elapsed(state.lastShare, now));
      workerStates := workerStates[worker := WorkerState(
        now, emas, state.contributed + difficulty, state.unflushed + difficulty, state.pending + [(difficulty, now)])];
    }

    /** The flush arm, up to sending the pipeline. The workers are visited in some order. */
    method OnFlush(now: nat) returns (order: seq<string>, pipeline: seq<Command>)
      modifies this
      ensures IsOrder(order, old(workerStates))
      ensures pipeline == Pipeline(decay, old(workerStates), order, now)
      ensures workerStates == AfterFlush(decay, old(workerStates), now)
    {
      ghost var before := workerStates;
      var keysToRemove: seq<string>;
      order, pipeline, keysToRemove := [], [], [];
      var unseen := workerStates.Keys;
      while unseen != {}
        invariant MidFlush(decay, before, workerStates, now, unseen, order, pipeline, keysToRemove)
        decreases |unseen|
      {
        var worker :| worker in unseen;
        MidFlushStep(decay, before, workerStates, now, unseen, order, pipeline, keysToRemove, worker);
        unseen := unseen - {worker};
        var state := workerStates[worker];
        if !Online(decay, state, now) {
          keysToRemove := keysToRemove + [worker];
        } else {
          workerStates := workerStates[worker := Flushed(state)];
        }
        pipeline := pipeline + WorkerCommands(decay, worker, state, now);
        order := order + [worker];
      }
      MidFlushEnds(decay, before, workerStates, now, order, pipeline, keysToRemove);
      RemoveKeys(keysToRemove);
    }

    method RemoveKeys(keys: seq<string>)
      modifies this
      ensures workerStates == old(workerStates) - (set k | k in keys)
    {
      for i := 0 to |keys|
        invariant workerStates == old(workerStates) - (set k | k in keys[..i])
      {
        workerStates := workerStates - {keys[i]};
      }
      assert keys[..|keys|] == keys;
    }
  }
}
