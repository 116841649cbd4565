/** Share accounting end to end: the engine, the Redis stores, the oracle and its database as one
    machine whose steps interleave freely and may fail.

    A flush applies any prefix of its pipeline. A trim may fail after its batch was read. A
    transaction may fail at any call, or take effect although its commit reports an error. */
module Accounting {
  import opened Options
  import opened Shares
  import opened Telemetry
  import opened Ledger
  import opened Oracle
  import opened Settlement

  /** Where the oracle is with its batch. */
  datatype Phase = Waiting | Read(batch: seq<Share>) | Trimmed(batch: seq<Share>)

  /** What has happened to shares so far; nothing depends on it. received: taken off the channel;
      lost: dropped with an evicted worker, a cut pipeline or a failed transaction, or skipped;
      duplicated: read again after a failed trim; credited: in the database; pushed and trimmed: put
      on and taken off the event queue. clock is the last reading, lastFlush the last flush's. */
  datatype Books = Books(
    received: seq<Share>,
    lost: seq<Share>,
    duplicated: seq<Share>,
    credited: seq<Share>,
    pushed: seq<Share>,
    trimmed: seq<Share>,
    clock: nat,
    lastFlush: nat)

  datatype System = System(workers: Workers, store: Store, phase: Phase, db: Database, books: Books)

  datatype Step =
    | Receive(worker: string, difficulty: nat, now: nat)
    | Flush(at: nat, order: seq<string>, applied: nat)
    | ReadBatch(ok: bool)
    | TrimBatch(ok: bool)
    | SettleBatch(wallets: seq<string>, attempt: Attempt, price: Option<real>)

  function Start(now: nat, db: Database): System {
    System(map[], EMPTY_STORE, Waiting, db, Books([], [], [], [], [], [], now, now))
  }

  /** The pending shares of the workers a flush finds offline. */
  function Evicted(decay: Decay, workers: Workers, order: seq<string>, now: nat): seq<Share>
    requires forall w :: w in order ==> w in workers
  {
    if order == [] then []
    else
      var last := order[|order| - 1];
      Evicted(decay, workers, order[..|order| - 1], now)
      + (if Online(decay, workers[last], now) then [] else Tagged(last, workers[last].pending))
  }

  /** The events without a worker name. */
  function Nameless(shares: seq<Share>): seq<Share> {
    if shares == [] then []
    else Nameless(shares[..|shares| - 1]) + (if shares[|shares| - 1].worker == "" then [shares[|shares| - 1]] else [])
  }

  ghost predicate Enabled(decay: Decay, s: System, step: Step) {
    match step
    case Receive(_, _, _) => true
    case Flush(at, order, applied) =>
      IsOrder(order, s.workers) && applied <= |Pipeline(decay, s.workers, order, at)|
    case ReadBatch(_) => s.phase.Waiting?
    case TrimBatch(_) => s.phase.Read?
    case SettleBatch(wallets, _, _) => s.phase.Trimmed? && Enumerates(wallets, Aggregate(s.phase.batch))
  }

  ghost function AfterReceive(decay: Decay, s: System, worker: string, difficulty: nat, now: nat): System {
    s.(workers := AfterShare(decay, s.workers, worker, difficulty, now),
       books := s.books.(received := s.books.received + [Share(worker, difficulty, now)], clock := now))
  }

  ghost function AfterFlushing(decay: Decay, s: System, now: nat, order: seq<string>, applied: nat): System
    requires IsOrder(order, s.workers) && applied <= |Pipeline(decay, s.workers, order, now)|
  {
    var pipeline := Pipeline(decay, s.workers, order, now);
    s.(workers := AfterFlush(decay, s.workers, now),
       store := ApplyAll(s.store, pipeline[..applied]),
       books := s.books.(lost := s.books.lost + Evicted(decay, s.workers, order, now) + Pushed(pipeline[applied..]),
                         pushed := s.books.pushed + Pushed(pipeline[..applied]),
                         clock := now, lastFlush := now))
  }

  function FirstOf(buffer: seq<Share>): seq<Share> {
    if |buffer| > BATCH_LIMIT then buffer[..BATCH_LIMIT] else buffer
  }

  function AfterRead(s: System, ok: bool): System {
    if ok && s.store.buffer != [] then s.(phase := Read(FirstOf(s.store.buffer))) else s
  }

  /** LTRIM n -1. */
  function Drop(buffer: seq<Share>, n: nat): seq<Share> {
    if n <= |buffer| then buffer[n..] else []
  }

  function AfterTrim(s: System, ok: bool): System
    requires s.phase.Read?
  {
    var batch := s.phase.batch;
    if ok then
      s.(store := s.store.(buffer := Drop(s.store.buffer, |batch|)),
         phase := Trimmed(batch),
         books := s.books.(trimmed := s.books.trimmed + batch))
    else s.(phase := Trimmed(batch), books := s.books.(duplicated := s.books.duplicated + batch))
  }

  function AfterSettling(s: System, wallets: seq<string>, attempt: Attempt, price: Option<real>): System
    requires s.phase.Trimmed?
  {
    var batch := s.phase.batch;
    var applies := Applies(batch, attempt);
    s.(phase := Waiting,
       db := Settle(s.db, batch, wallets, attempt, price),
       books := s.books.(credited := s.books.credited + (if applies then Named(batch) else []),
                         lost := s.books.lost + (if applies then Nameless(batch) else batch)))
  }

  /** One step; a step that is not possible changes nothing. */
  ghost function Next(decay: Decay, s: System, step: Step): System {
    if !Enabled(decay, s, step) then s
    else
      match step
      case Receive(worker, difficulty, now) => AfterReceive(decay, s, worker, difficulty, now)
      case Flush(at, order, applied) => AfterFlushing(decay, s, at, order, applied)
      case ReadBatch(ok) => AfterRead(s, ok)
      case TrimBatch(ok) => AfterTrim(s, ok)
      case SettleBatch(wallets, attempt, price) => AfterSettling(s, wallets, attempt, price)
  }

  ghost function Run(decay: Decay, start: System, steps: seq<Step>): System {
    if steps == [] then start
    else Next(decay, Run(decay, start, steps[..|steps| - 1]), steps[|steps| - 1])
  }

  /** The batch off the queue and not yet settled. */
  function InFlight(s: System): seq<Share> {
    if s.phase.Trimmed? then s.phase.batch else []
  }

  function PendingOf(workers: Workers, v: string): seq<Share> {
    if v in workers then Tagged(v, workers[v].pending) else []
  }

  // ---------------------------------------------------------------- reads

  /** A read takes the first 501 events, or all there are; a read that fails or finds none is tried
      again. Reading changes nothing else. */
  lemma ReadTakes(decay: Decay, s: System, ok: bool)
    requires s.phase.Waiting?
    ensures var t := Next(decay, s, ReadBatch(ok));
            && (if ok && s.store.buffer != []
                then t.phase.Read? && t.phase.batch <= s.store.buffer
                     && (|t.phase.batch| == 501 || (|t.phase.batch| < 501 && t.phase.batch == s.store.buffer))
                else t.phase.Waiting?)
            && t.(phase := s.phase) == s
  {
    assert s.store.buffer[..|s.store.buffer|] == s.store.buffer;
  }

  /** The books' clock is the last reading, and lastFlush the last flush's. */
  lemma BooksTellTime(decay: Decay, s: System, step: Step)
    requires Enabled(decay, s, step)
    ensures var b, t := s.books, Next(decay, s, step).books;
            && t.clock == (if step.Receive? then step.now else if step.Flush? then step.at else b.clock)
            && t.lastFlush == (if step.Flush? then step.at else b.lastFlush)
  {
  }

  // ---------------------------------------------------------------- what a flush does per worker

  lemma {:induction false} OnlyTagged(v: string, w: string, pending: seq<(nat, nat)>)
    ensures Only(v, Tagged(w, pending)) == if v == w then Tagged(w, pending) else []
  {
    if pending != [] {
      var n := |pending| - 1;
      OnlyTagged(v, w, pending[..n]);
      assert Tagged(w, pending)[..n] == Tagged(w, pending[..n]);
    }
  }

  lemma WorkerPushes(decay: Decay, w: string, s: WorkerState, now: nat)
    ensures Pushed(WorkerCommands(decay, w, s, now)) ==
            if Online(decay, s, now) && s.unflushed > 0 then Tagged(w, s.pending) else []
  {
    var all := WorkerCommands(decay, w, s, now);
    SingleCommand(all[0], "");
    if !Online(decay, s, now) {
      SingleCommand(all[1], "");
      PushedConcat([all[0]], [all[1]]);
      assert all == [all[0]] + [all[1]];
    } else if s.unflushed > 0 {
      HeadsAndPushes(w, s, "", Tagged(w, s.pending));
      PushedConcat([all[0]], LedgerCommands(w, s));
    } else {
      assert all == [all[0]];
    }
  }

  /** Of a worker's shares, a flush pushes its pending ones when it is online and has difficulty to
      flush, drops them when it is offline, and never touches another worker's. */
  lemma {:induction false} FlushPerWorker(decay: Decay, workers: Workers, order: seq<string>, now: nat, v: string)
    requires NoRepeats(order) && forall w :: w in order ==> w in workers
    ensures Only(v, Pushed(Pipeline(decay, workers, order, now))) ==
            if v in order && Online(decay, workers[v], now) && workers[v].unflushed > 0
            then Tagged(v, workers[v].pending) else []
    ensures Only(v, Evicted(decay, workers, order, now)) ==
            if v in order && !Online(decay, workers[v], now) then Tagged(v, workers[v].pending) else []
  {
    if order != [] {
      var n := |order| - 1;
      var w := order[n];
      FlushPerWorker(decay, workers, order[..n], now, v);
      WorkerPushes(decay, w, workers[w], now);
      PushedConcat(Pipeline(decay, workers, order[..n], now), WorkerCommands(decay, w, workers[w], now));
      OnlyConcat(v, Pushed(Pipeline(decay, workers, order[..n], now)), Pushed(WorkerCommands(decay, w, workers[w], now)));
      OnlyConcat(v, Evicted(decay, workers, order[..n], now),
                 if Online(decay, workers[w], now) then [] else Tagged(w, workers[w].pending));
      OnlyTagged(v, w, workers[w].pending);
    }
  }

  /** What a flush makes of a worker's pending shares: pushed, dropped or kept, never two of these. */
  lemma FlushSplitsPending(decay: Decay, workers: Workers, order: seq<string>, now: nat, v: string)
    requires IsOrder(order, workers)
    ensures PendingOf(workers, v) ==
            Only(v, Pushed(Pipeline(decay, workers, order, now)))
            + Only(v, Evicted(decay, workers, order, now))
            + PendingOf(AfterFlush(decay, workers, now), v)
  {
    FlushPerWorker(decay, workers, order, now, v);
    FlushKeeps(decay, workers, now, v);
    OneOfThree(PendingOf(workers, v), Only(v, Pushed(Pipeline(decay, workers, order, now))),
               Only(v, Evicted(decay, workers, order, now)), PendingOf(AfterFlush(decay, workers, now), v));
  }

  lemma FlushKeeps(decay: Decay, workers: Workers, now: nat, v: string)
    ensures PendingOf(AfterFlush(decay, workers, now), v) ==
            if v in workers && Online(decay, workers[v], now) && workers[v].unflushed == 0
            then Tagged(v, workers[v].pending) else []
  {
  }

  lemma OneOfThree<T>(all: seq<T>, a: seq<T>, b: seq<T>, c: seq<T>)
    requires (a == all && b == c == []) || (b == all && a == c == []) || (c == all && a == b == [])
    ensures all == a + b + c
  {
  }
}
