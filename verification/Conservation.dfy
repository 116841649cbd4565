/** Nothing is created or destroyed: laws of every run of the accounting machine. */
module Conservation {
  import opened Sequences
  import opened Shares
  import opened Telemetry
  import opened Ledger
  import opened Oracle
  import opened Settlement
  import opened Accounting

  // ---------------------------------------------------------------- the queue

  /** The queue is first in, first out: what was pushed is what was trimmed off followed by what is
      still there, and a batch that was read is still at the front until it is trimmed. */
  ghost predicate QueueInvariant(s: System) {
    && s.books.pushed == s.books.trimmed + s.store.buffer
    && (s.phase.Read? ==> s.phase.batch != [] && s.phase.batch <= s.store.buffer)
    && (s.phase.Trimmed? ==> s.phase.batch != [])
  }

  lemma FlushKeepsQueue(decay: Decay, s: System, now: nat, order: seq<string>, applied: nat)
    requires QueueInvariant(s) && IsOrder(order, s.workers) && applied <= |Pipeline(decay, s.workers, order, now)|
    ensures QueueInvariant(AfterFlushing(decay, s, now, order, applied))
  {
    var cut := Pipeline(decay, s.workers, order, now)[..applied];
    ApplyAllPosts(s.store, cut, "");
    Reassociated(s.books.trimmed, s.store.buffer, Pushed(cut));
  }

  lemma TrimKeepsQueue(s: System, ok: bool)
    requires QueueInvariant(s) && s.phase.Read?
    ensures QueueInvariant(AfterTrim(s, ok))
  {
    var batch := s.phase.batch;
    assert s.store.buffer == batch + s.store.buffer[|batch|..];
    assert s.books.trimmed + batch + s.store.buffer[|batch|..] == s.books.trimmed + s.store.buffer;
  }

  lemma QueueKeeps(decay: Decay, s: System, step: Step)
    requires QueueInvariant(s)
    ensures QueueInvariant(Next(decay, s, step))
  {
    if Enabled(decay, s, step) {
      match step
      case Flush(at, order, applied) => FlushKeepsQueue(decay, s, at, order, applied);
      case TrimBatch(ok) => TrimKeepsQueue(s, ok);
      case _ =>
    }
  }

  /** In every run, with any appends between a read and its trim, and whatever fails. */
  lemma {:induction false} QueueIsFifo(decay: Decay, now: nat, db: Database, steps: seq<Step>)
    ensures QueueInvariant(Run(decay, Start(now, db), steps))
  {
    if steps != [] {
      QueueIsFifo(decay, now, db, steps[..|steps| - 1]);
      QueueKeeps(decay, Run(decay, Start(now, db), steps[..|steps| - 1]), steps[|steps| - 1]);
    }
  }

  // ---------------------------------------------------------------- conservation, share by share

  function Count(shares: seq<Share>, x: Share): nat {
    multiset(shares)[x]
  }

  /** Every share received, and every extra copy read, is in exactly one place. */
  ghost predicate Conserved(s: System, x: Share) {
    Count(s.books.received, x) + Count(s.books.duplicated, x) ==
    Count(PendingOf(s.workers, x.worker), x) + Count(s.store.buffer, x) + Count(InFlight(s), x)
    + Count(s.books.credited, x) + Count(s.books.lost, x)
  }

  lemma CountConcat(a: seq<Share>, b: seq<Share>, x: Share)
    ensures Count(a + b, x) == Count(a, x) + Count(b, x)
  {
  }

  lemma CountLast(shares: seq<Share>, x: Share)
    requires shares != []
    ensures Count(shares, x) == Count(shares[..|shares| - 1], x) + (if shares[|shares| - 1] == x then 1 else 0)
  {
    assert shares == shares[..|shares| - 1] + [shares[|shares| - 1]];
  }

  lemma {:induction false} NamedAndNameless(shares: seq<Share>, x: Share)
    ensures Count(shares, x) == Count(Named(shares), x) + Count(Nameless(shares), x)
  {
    if shares != [] {
      var n := |shares| - 1;
      NamedAndNameless(shares[..n], x);
      CountLast(shares, x);
      CountConcat(Named(shares[..n]), [shares[n]], x);
      CountConcat(Nameless(shares[..n]), [shares[n]], x);
    }
  }

  lemma ReceiveConserves(decay: Decay, s: System, worker: string, difficulty: nat, now: nat, x: Share)
    requires Conserved(s, x)
    ensures Conserved(AfterReceive(decay, s, worker, difficulty, now), x)
  {
    var t := AfterReceive(decay, s, worker, difficulty, now);
    var added := [Share(worker, difficulty, now)];
    CountConcat(s.books.received, added, x);
    if x.worker == worker {
      assert PendingOf(t.workers, worker) == PendingOf(s.workers, worker) + added;
      CountConcat(PendingOf(s.workers, worker), added, x);
    }
  }

  lemma CountPendingAtFlush(decay: Decay, workers: Workers, order: seq<string>, now: nat, x: Share)
    requires IsOrder(order, workers)
    ensures Count(PendingOf(workers, x.worker), x) ==
            Count(Pushed(Pipeline(decay, workers, order, now)), x)
            + Count(Evicted(decay, workers, order, now), x)
            + Count(PendingOf(AfterFlush(decay, workers, now), x.worker), x)
  {
    var v := x.worker;
    var pushed, evicted := Pushed(Pipeline(decay, workers, order, now)), Evicted(decay, workers, order, now);
    FlushSplitsPending(decay, workers, order, now, v);
    CountConcat(Only(v, pushed) + Only(v, evicted), PendingOf(AfterFlush(decay, workers, now), v), x);
    CountConcat(Only(v, pushed), Only(v, evicted), x);
    OnlyCounts(pushed, x);
    OnlyCounts(evicted, x);
  }

  lemma CountCut(pipeline: seq<Command>, applied: nat, x: Share)
    requires applied <= |pipeline|
    ensures Count(Pushed(pipeline), x) == Count(Pushed(pipeline[..applied]), x) + Count(Pushed(pipeline[applied..]), x)
  {
    PushedSplit(pipeline, applied);
    CountSplit(Pushed(pipeline), Pushed(pipeline[..applied]), Pushed(pipeline[applied..]), x);
  }

  lemma PushedSplit(pipeline: seq<Command>, applied: nat)
    requires applied <= |pipeline|
    ensures Pushed(pipeline) == Pushed(pipeline[..applied]) + Pushed(pipeline[applied..])
  {
    PushedConcat(pipeline[..applied], pipeline[applied..]);
    assert pipeline[..applied] + pipeline[applied..] == pipeline;
  }

  lemma CountSplit(all: seq<Share>, a: seq<Share>, b: seq<Share>, x: Share)
    requires all == a + b
    ensures Count(all, x) == Count(a, x) + Count(b, x)
  {
    CountConcat(a, b, x);
  }

  lemma FlushConserves(decay: Decay, s: System, now: nat, order: seq<string>, applied: nat, x: Share)
    requires Conserved(s, x)
    requires IsOrder(order, s.workers) && applied <= |Pipeline(decay, s.workers, order, now)|
    ensures Conserved(AfterFlushing(decay, s, now, order, applied), x)
  {
    var pipeline := Pipeline(decay, s.workers, order, now);
    var evicted := Evicted(decay, s.workers, order, now);
    CountPendingAtFlush(decay, s.workers, order, now, x);
    CountCut(pipeline, applied, x);
    ApplyAllPosts(s.store, pipeline[..applied], "");
    CountConcat(s.store.buffer, Pushed(pipeline[..applied]), x);
    CountConcat(s.books.lost + evicted, Pushed(pipeline[applied..]), x);
    CountConcat(s.books.lost, evicted, x);
  }

  lemma TrimConserves(s: System, ok: bool, x: Share)
    requires Conserved(s, x) && QueueInvariant(s) && s.phase.Read?
    ensures Conserved(AfterTrim(s, ok), x)
  {
    var batch := s.phase.batch;
    if ok {
      assert s.store.buffer == batch + s.store.buffer[|batch|..];
      CountConcat(batch, s.store.buffer[|batch|..], x);
    } else {
      CountConcat(s.books.duplicated, batch, x);
    }
  }

  lemma SettleConserves(decay: Decay, s: System, step: Step, x: Share)
    requires Conserved(s, x) && step.SettleBatch? && Enabled(decay, s, step)
    ensures Conserved(Next(decay, s, step), x)
  {
    var batch := s.phase.batch;
    NamedAndNameless(batch, x);
    CountConcat(s.books.lost, Nameless(batch), x);
    CountConcat(s.books.lost, batch, x);
    CountConcat(s.books.credited, Named(batch), x);
  }

  /** Conservation of single shares in every run. */
  lemma {:induction false} EveryShareIsSomewhere(decay: Decay, now: nat, db: Database, steps: seq<Step>, x: Share)
    ensures Conserved(Run(decay, Start(now, db), steps), x)
  {
    if steps != [] {
      var before, step := steps[..|steps| - 1], steps[|steps| - 1];
      var s := Run(decay, Start(now, db), before);
      EveryShareIsSomewhere(decay, now, db, before, x);
      QueueIsFifo(decay, now, db, before);
      if Enabled(decay, s, step) {
        match step
        case Receive(worker, difficulty, at) => ReceiveConserves(decay, s, worker, difficulty, at, x);
        case Flush(at, order, applied) => FlushConserves(decay, s, at, order, applied, x);
        case ReadBatch(_) =>
        case TrimBatch(ok) => TrimConserves(s, ok, x);
        case SettleBatch(_, _, _) => SettleConserves(decay, s, step, x);
      }
    }
  }

  lemma RunSnoc(decay: Decay, start: System, steps: seq<Step>, step: Step)
    ensures Run(decay, start, steps + [step]) == Next(decay, Run(decay, start, steps), step)
  {
    assert (steps + [step])[..|steps|] == steps;
  }

  /** The engine after its first share. */
  lemma FirstShare(decay: Decay, db: Database)
    ensures var workers := AfterReceive(decay, Start(0, db), "w", 1, 0).workers;
            && IsOrder(["w"], workers) && workers["w"].unflushed == 1 && workers["w"].pending == [(1, 0)]
            && Online(decay, workers["w"], 0)
            && Pipeline(decay, workers, ["w"], 0) == WorkerCommands(decay, "w", workers["w"], 0)
  {
    var workers := AfterReceive(decay, Start(0, db), "w", 1, 0).workers;
    OneWorkerPipeline(decay, workers, "w", 0);
  }

  lemma OneWorkerPipeline(decay: Decay, workers: Workers, w: string, now: nat)
    requires w in workers
    ensures Pipeline(decay, workers, [w], now) == WorkerCommands(decay, w, workers[w], now)
  {
    assert [w][..|[w]| - 1] == [];
    assert Pipeline(decay, workers, [], now) == [];
  }

  lemma OneShareQueued(decay: Decay, db: Database) returns (steps: seq<Step>)
    ensures var s := Run(decay, Start(0, db), steps);
            s.phase.Waiting? && s.store.buffer == [Share("w", 1, 0)] && s.books.received == [Share("w", 1, 0)]
            && s.books.credited == []
  {
    var s := AfterReceive(decay, Start(0, db), "w", 1, 0);
    RunSnoc(decay, Start(0, db), [], Receive("w", 1, 0));
    FirstShare(decay, db);
    var pipeline := Pipeline(decay, s.workers, ["w"], 0);
    assert pipeline[..|pipeline|] == pipeline;
    WorkerPushes(decay, "w", s.workers["w"], 0);
    assert Tagged("w", [(1, 0)]) == [Share("w", 1, 0)];
    ApplyAllPosts(s.store, pipeline, "");
    steps := [] + [Receive("w", 1, 0)];
    RunSnoc(decay, Start(0, db), steps, Flush(0, ["w"], |pipeline|));
    steps := steps + [Flush(0, ["w"], |pipeline|)];
  }

  // ---------------------------------------------------------------- conservation, wallet by wallet

  /** All pending shares of all workers. */
  ghost function PendingShares(workers: Workers): multiset<Share>
    decreases |workers|
  {
    if workers == map[] then multiset{}
    else var w :| w in workers; multiset(PendingOf(workers, w)) + PendingShares(workers - {w})
  }

  function Unflushed(workers: Workers): map<string, nat> {
    map w | w in workers :: workers[w].unflushed
  }

  lemma OtherWorker(w: string, pending: seq<(nat, nat)>, x: Share)
    requires x.worker != w
    ensures Count(Tagged(w, pending), x) == 0
  {
    OnlyTagged(x.worker, w, pending);
    OnlyCounts(Tagged(w, pending), x);
  }

  lemma {:induction false} PendingSharesCount(workers: Workers, x: Share)
    ensures PendingShares(workers)[x] == Count(PendingOf(workers, x.worker), x)
    decreases |workers|
  {
    if workers != map[] {
      var w :| w in workers && PendingShares(workers) == multiset(PendingOf(workers, w)) + PendingShares(workers - {w});
      var rest := workers - {w};
      PendingSharesCount(rest, x);
      assert PendingShares(workers)[x] == Count(PendingOf(workers, w), x) + PendingShares(rest)[x];
      if w != x.worker {
        OtherWorker(w, workers[w].pending, x);
        assert PendingOf(rest, x.worker) == PendingOf(workers, x.worker);
      } else {
        assert PendingOf(rest, x.worker) == [];
      }
    }
  }

  lemma {:induction false} PendingWeight(workers: Workers, wallet: string)
    requires UnflushedIsPending(workers)
    ensures Weight(wallet, PendingShares(workers)) == Total(wallet, Unflushed(workers))
    decreases |workers|
  {
    if workers != map[] {
      var w :| w in workers && PendingShares(workers) == multiset(PendingOf(workers, w)) + PendingShares(workers - {w});
      PendingWeight(workers - {w}, wallet);
      WeightUnion(wallet, multiset(PendingOf(workers, w)), PendingShares(workers - {w}));
      OwnWeight(workers, w, wallet);
      UnflushedWithout(workers, w, wallet);
    }
  }

  lemma OwnWeight(workers: Workers, w: string, wallet: string)
    requires UnflushedIsPending(workers) && w in workers
    ensures Weight(wallet, multiset(PendingOf(workers, w))) == if WalletOf(w) == wallet then workers[w].unflushed else 0
  {
    WeightOfSeq(wallet, PendingOf(workers, w));
    TaggedWeight(wallet, w, workers[w].pending);
  }

  lemma UnflushedWithout(workers: Workers, w: string, wallet: string)
    requires w in workers
    ensures Total(wallet, Unflushed(workers)) ==
            (if WalletOf(w) == wallet then workers[w].unflushed else 0) + Total(wallet, Unflushed(workers - {w}))
  {
    TotalRemove(wallet, Unflushed(workers), w);
    assert Unflushed(workers) - {w} == Unflushed(workers - {w});
  }

  /** In every run each worker's unflushed difficulty is the sum of its pending shares. */
  lemma {:induction false} PendingSumsAgree(decay: Decay, now: nat, db: Database, steps: seq<Step>)
    ensures UnflushedIsPending(Run(decay, Start(now, db), steps).workers)
  {
    if steps != [] {
      var before, step := steps[..|steps| - 1], steps[|steps| - 1];
      var s := Run(decay, Start(now, db), before);
      PendingSumsAgree(decay, now, db, before);
      if step.Receive? {
        var prior := StateOf(s.workers, step.worker, step.now).pending;
        assert (prior + [(step.difficulty, step.now)])[..|prior|] == prior;
      }
    }
  }

  /** In every run the database has paid out for exactly the credited shares. */
  lemma {:induction false} YieldIsCredited(decay: Decay, now: nat, db: Database, steps: seq<Step>, wallet: string)
    ensures var s := Run(decay, Start(now, db), steps);
            YieldOf(s.db.reservoirs, wallet) ==
            YieldOf(db.reservoirs, wallet) + SeqWeight(wallet, s.books.credited) as real * KAS_PER_DIFFICULTY
  {
    if steps != [] {
      var before, step := steps[..|steps| - 1], steps[|steps| - 1];
      var s := Run(decay, Start(now, db), before);
      YieldIsCredited(decay, now, db, before, wallet);
      if step.SettleBatch? && Enabled(decay, s, step) {
        var batch := s.phase.batch;
        SettleOutcome(s.db, batch, step.wallets, step.attempt, step.price);
        YieldIsDifficulty(s.db.reservoirs, batch, wallet);
        SeqWeightConcat(wallet, s.books.credited, Named(batch));
        assert s.books.credited + [] == s.books.credited;
      }
    }
  }

  lemma WeightOfThree(wallet: string, a: multiset<Share>, b: multiset<Share>, c: multiset<Share>)
    ensures Weight(wallet, a + b + c) == Weight(wallet, a) + Weight(wallet, b) + Weight(wallet, c)
  {
    WeightUnion(wallet, a, b);
    WeightUnion(wallet, a + b, c);
  }

  lemma Contents(p: multiset<Share>, q: multiset<Share>, a: multiset<Share>, b: multiset<Share>,
                 c: multiset<Share>, d: multiset<Share>, e: multiset<Share>, x: Share)
    requires p[x] + q[x] == a[x] + b[x] + c[x] + d[x] + e[x]
    ensures (p + q)[x] == (a + b + c + (d + e))[x]
  {
  }

  lemma WeightOfFive(wallet: string, a: multiset<Share>, b: multiset<Share>, c: multiset<Share>,
                     d: multiset<Share>, e: multiset<Share>)
    ensures Weight(wallet, a + b + c + (d + e)) ==
            Weight(wallet, a) + Weight(wallet, b) + Weight(wallet, c) + Weight(wallet, d) + Weight(wallet, e)
  {
    WeightUnion(wallet, d, e);
    WeightOfThree(wallet, a, b, c);
    WeightUnion(wallet, a + b + c, d + e);
  }

  /** End to end, for every wallet, in every run: the difficulty received, with any read twice after
      a failed trim, is the difficulty still unflushed, plus queued, plus in the batch at hand, plus
      lost, plus what the database has paid out at the fixed rate. */
  lemma EndToEnd(decay: Decay, now: nat, db: Database, steps: seq<Step>, wallet: string)
    ensures var s := Run(decay, Start(now, db), steps);
            var paid := SeqWeight(wallet, s.books.credited);
            && SeqWeight(wallet, s.books.received) + SeqWeight(wallet, s.books.duplicated) ==
               Total(wallet, Unflushed(s.workers)) + SeqWeight(wallet, s.store.buffer)
               + SeqWeight(wallet, InFlight(s)) + paid + SeqWeight(wallet, s.books.lost)
            && YieldOf(s.db.reservoirs, wallet) - YieldOf(db.reservoirs, wallet) == paid as real * KAS_PER_DIFFICULTY
  {
    var s := Run(decay, Start(now, db), steps);
    YieldIsCredited(decay, now, db, steps, wallet);
    PendingSumsAgree(decay, now, db, steps);
    PendingWeight(s.workers, wallet);
    var received, duplicated := multiset(s.books.received), multiset(s.books.duplicated);
    var buffer, batch := multiset(s.store.buffer), multiset(InFlight(s));
    var credited, lost := multiset(s.books.credited), multiset(s.books.lost);
    var pending := PendingShares(s.workers);
    forall x: Share
      ensures (received + duplicated)[x] == (pending + buffer + batch + (credited + lost))[x]
    {
      EveryShareIsSomewhere(decay, now, db, steps, x);
      PendingSharesCount(s.workers, x);
      Contents(received, duplicated, pending, buffer, batch, credited, lost, x);
    }
    assert received + duplicated == pending + buffer + batch + (credited + lost);
    WeightUnion(wallet, received, duplicated);
    WeightOfFive(wallet, pending, buffer, batch, credited, lost);
    WeightOfSeq(wallet, s.books.received);
    WeightOfSeq(wallet, s.books.duplicated);
    WeightOfSeq(wallet, s.store.buffer);
    WeightOfSeq(wallet, InFlight(s));
    WeightOfSeq(wallet, s.books.credited);
    WeightOfSeq(wallet, s.books.lost);
  }

  // ---------------------------------------------------------------- balances and tax rows

  /** From a consistent database, every run keeps balances and tax ledger in agreement. */
  lemma {:induction false} BalancesAgree(decay: Decay, now: nat, db: Database, steps: seq<Step>)
    requires Consistent(db)
    ensures Consistent(Run(decay, Start(now, db), steps).db)
  {
    if steps != [] {
      var before, step := steps[..|steps| - 1], steps[|steps| - 1];
      var s := Run(decay, Start(now, db), before);
      BalancesAgree(decay, now, db, before);
      if step.SettleBatch? && Enabled(decay, s, step) {
        SettleKeepsConsistent(s.db, s.phase.batch, step.wallets, step.attempt, step.price);
      }
    }
  }
}
