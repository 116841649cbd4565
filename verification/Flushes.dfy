/** What flushes do to the ledgers, the worker index and the engine's workers, over every run. */
module Flushes {
  import opened Sequences
  import opened Shares
  import opened Clock
  import opened Telemetry
  import opened Ledger
  import opened Oracle
  import opened Accounting
  import opened Conservation

  // ---------------------------------------------------------------- the ledgers

  /** The three ledgers of a wallet in the order a flush writes them. */
  ghost predicate LedgersOrdered(s: System, wallet: string) {
    Get(s.store.wallets, wallet) >= Total(wallet, s.store.shares) >= SeqWeight(wallet, s.books.pushed)
  }

  ghost predicate LedgersLevel(s: System, wallet: string) {
    Get(s.store.wallets, wallet) == Total(wallet, s.store.shares) == SeqWeight(wallet, s.books.pushed)
  }

  /** A flush whose pipeline goes through whole. */
  ghost predicate IsWhole(decay: Decay, s: System, step: Step) {
    step.Flush? && Enabled(decay, s, step) ==>
      step.applied == |Pipeline(decay, s.workers, step.order, step.at)|
  }

  ghost predicate WholeFlushes(decay: Decay, start: System, steps: seq<Step>) {
    forall i :: 0 <= i < |steps| ==> IsWhole(decay, Run(decay, start, steps[..i]), steps[i])
  }

  lemma LedgersAtFlush(decay: Decay, s: System, now: nat, order: seq<string>, applied: nat, wallet: string)
    requires UnflushedIsPending(s.workers) && LedgersOrdered(s, wallet)
    requires IsOrder(order, s.workers) && applied <= |Pipeline(decay, s.workers, order, now)|
    ensures var t := AfterFlushing(decay, s, now, order, applied);
            LedgersOrdered(t, wallet)
  {
    var cut := Pipeline(decay, s.workers, order, now)[..applied];
    PipelineCut(decay, s.workers, order, now, wallet, applied);
    ApplyAllPosts(s.store, cut, wallet);
    SeqWeightConcat(wallet, s.books.pushed, Pushed(cut));
  }

  lemma LedgersAtStep(decay: Decay, s: System, step: Step, wallet: string)
    requires UnflushedIsPending(s.workers) && LedgersOrdered(s, wallet)
    ensures LedgersOrdered(Next(decay, s, step), wallet)
  {
    if step.Flush? && Enabled(decay, s, step) {
      LedgersAtFlush(decay, s, step.at, step.order, step.applied, wallet);
    }
  }

  /** In every run, wherever flushes were cut short: a wallet's ledger is at least the sum of its
      workers' ledgers, and that is at least what was pushed to the oracle for it. */
  lemma {:induction false} LedgersInOrder(decay: Decay, now: nat, db: Database, steps: seq<Step>, wallet: string)
    ensures LedgersOrdered(Run(decay, Start(now, db), steps), wallet)
  {
    if steps != [] {
      var before, step := steps[..|steps| - 1], steps[|steps| - 1];
      LedgersInOrder(decay, now, db, before, wallet);
      PendingSumsAgree(decay, now, db, before);
      LedgersAtStep(decay, Run(decay, Start(now, db), before), step, wallet);
    }
  }

  /** A flush cut short while some but not all of a worker's difficulty had been written for the
      wallet. */
  ghost predicate Tears(decay: Decay, s: System, step: Step, wallet: string) {
    step.Flush? && Enabled(decay, s, step) && TornAt(decay, s.workers, step.order, step.at, wallet, step.applied)
  }

  ghost predicate NeverTorn(decay: Decay, start: System, steps: seq<Step>, wallet: string) {
    steps == [] ||
    var n := |steps| - 1;
    NeverTorn(decay, start, steps[..n], wallet) && !Tears(decay, Run(decay, start, steps[..n]), steps[n], wallet)
  }

  lemma LevelAtStep(decay: Decay, s: System, step: Step, wallet: string)
    requires UnflushedIsPending(s.workers) && LedgersOrdered(s, wallet)
    ensures LedgersLevel(Next(decay, s, step), wallet) <==> LedgersLevel(s, wallet) && !Tears(decay, s, step, wallet)
  {
    if step.Flush? && Enabled(decay, s, step) {
      var cut := Pipeline(decay, s.workers, step.order, step.at)[..step.applied];
      PipelineCut(decay, s.workers, step.order, step.at, wallet, step.applied);
      LevelUnlessTorn(decay, s.workers, step.order, step.at, wallet, step.applied);
      ApplyAllPosts(s.store, cut, wallet);
      SeqWeightConcat(wallet, s.books.pushed, Pushed(cut));
    }
  }

  /** Exactly when the three are equal: when no flush was ever cut short inside the commands of one
      of the wallet's workers. What a cut has torn apart stays apart. */
  lemma {:induction false} LedgersAgreeIff(decay: Decay, now: nat, db: Database, steps: seq<Step>, wallet: string)
    ensures LedgersLevel(Run(decay, Start(now, db), steps), wallet) <==> NeverTorn(decay, Start(now, db), steps, wallet)
  {
    if steps != [] {
      var before, step := steps[..|steps| - 1], steps[|steps| - 1];
      LedgersAgreeIff(decay, now, db, before, wallet);
      LedgersInOrder(decay, now, db, before, wallet);
      PendingSumsAgree(decay, now, db, before);
      LevelAtStep(decay, Run(decay, Start(now, db), before), step, wallet);
    }
  }

  /** Flushes that go through whole tear nothing. */
  lemma {:induction false} LedgersAgree(decay: Decay, now: nat, db: Database, steps: seq<Step>, wallet: string)
    requires WholeFlushes(decay, Start(now, db), steps)
    ensures NeverTorn(decay, Start(now, db), steps, wallet) && LedgersLevel(Run(decay, Start(now, db), steps), wallet)
  {
    if steps != [] {
      var n := |steps| - 1;
      WholePrefix(decay, Start(now, db), steps);
      LedgersAgree(decay, now, db, steps[..n], wallet);
      PendingSumsAgree(decay, now, db, steps[..n]);
      WholeTearsNothing(decay, Run(decay, Start(now, db), steps[..n]), steps[n], wallet);
      LedgersAgreeIff(decay, now, db, steps, wallet);
    }
  }

  lemma WholeTearsNothing(decay: Decay, s: System, step: Step, wallet: string)
    requires UnflushedIsPending(s.workers) && IsWhole(decay, s, step)
    ensures !Tears(decay, s, step, wallet)
  {
    if step.Flush? && Enabled(decay, s, step) {
      PipelineCut(decay, s.workers, step.order, step.at, wallet, step.applied);
      LevelUnlessTorn(decay, s.workers, step.order, step.at, wallet, step.applied);
    }
  }

  /** One share received, and its flush cut after two commands. */
  function CutRun(): seq<Step> {
    [Receive("w", 1, 0), Flush(0, ["w"], 2)]
  }

  lemma CutPosts(decay: Decay, state: WorkerState)
    requires Online(decay, state, 0) && state.unflushed == 1
    ensures var cut := WorkerCommands(decay, "w", state, 0)[..2];
            PostedToWallet(cut, "w") == 1 && PostedToShares(cut, "w") == 0
  {
    var all := WorkerCommands(decay, "w", state, 0);
    assert all[..2] == [all[0]] + LedgerHeads("w", state)[..1];
    assert WalletOf("w") == "w";
    HeadsPost("w", state, "w", 1);
    SingleCommand(all[0], "w");
    PostedConcat([all[0]], LedgerHeads("w", state)[..1], "w");
  }

  /** The wallet's ledger has the share, its worker's has not. */
  lemma CutLedgersDisagree(decay: Decay, db: Database)
    ensures var s := Run(decay, Start(0, db), CutRun());
            Get(s.store.wallets, "w") == 1 && Total("w", s.store.shares) == 0
  {
    var s := AfterReceive(decay, Start(0, db), "w", 1, 0);
    var flush := Flush(0, ["w"], 2);
    RunSnoc(decay, Start(0, db), [], Receive("w", 1, 0));
    FirstShare(decay, db);
    RunSnoc(decay, Start(0, db), [] + [Receive("w", 1, 0)], flush);
    assert CutRun() == [] + [Receive("w", 1, 0)] + [flush];
    CutPosts(decay, s.workers["w"]);
    ApplyAllPosts(s.store, Pipeline(decay, s.workers, ["w"], 0)[..2], "w");
  }

  // ---------------------------------------------------------------- eviction

  /** Clock readings never go back. */
  predicate NeverBack(s: System, step: Step) {
    match step
    case Receive(_, _, now) => s.books.clock <= now
    case Flush(at, _, _) => s.books.clock <= at
    case _ => true
  }

  /** And flushes come less than 30 s apart. */
  predicate Timely(s: System, step: Step) {
    NeverBack(s, step) && (step.Flush? ==> step.at < s.books.lastFlush + IDLE_LIMIT)
  }

  ghost predicate TimelyRun(decay: Decay, start: System, steps: seq<Step>) {
    forall i :: 0 <= i < |steps| ==> Timely(Run(decay, start, steps[..i]), steps[i])
  }

  /** Unflushed work is more recent than the last flush. */
  ghost predicate Recent(s: System) {
    && s.books.lastFlush <= s.books.clock
    && forall w :: w in s.workers ==>
         && s.workers[w].lastShare <= s.books.clock
         && (s.workers[w].unflushed > 0 ==> s.books.lastFlush <= s.workers[w].lastShare)
  }

  lemma TimelyKeepsRecent(decay: Decay, s: System, step: Step)
    requires Recent(s) && Timely(s, step)
    ensures Recent(Next(decay, s, step))
  {
  }

  lemma {:induction false} WorkIsRecent(decay: Decay, now: nat, db: Database, steps: seq<Step>)
    requires TimelyRun(decay, Start(now, db), steps)
    ensures Recent(Run(decay, Start(now, db), steps))
  {
    if steps != [] {
      var n := |steps| - 1;
      forall i | 0 <= i < n ensures Timely(Run(decay, Start(now, db), steps[..n][..i]), steps[..n][i]) {
        assert steps[..n][..i] == steps[..i];
      }
      WorkIsRecent(decay, now, db, steps[..n]);
      TimelyKeepsRecent(decay, Run(decay, Start(now, db), steps[..n]), steps[n]);
    }
  }

  /** On time, a flush evicts only workers with nothing left to flush, whether or not pipelines
      went through. */
  lemma EvictsOnlyFlushed(decay: Decay, now: nat, db: Database, steps: seq<Step>, flush: Step, w: string)
    requires TimelyRun(decay, Start(now, db), steps) && flush.Flush?
    requires var s := Run(decay, Start(now, db), steps);
             Timely(s, flush) && w in s.workers && w !in AfterFlush(decay, s.workers, flush.at)
    ensures Run(decay, Start(now, db), steps).workers[w].unflushed == 0
  {
    WorkIsRecent(decay, now, db, steps);
    var s := Run(decay, Start(now, db), steps);
    assert Elapsed(s.workers[w].lastShare, flush.at) >= IDLE_LIMIT;
  }

  // ---------------------------------------------------------------- the workers' own ledgers

  /** The difficulty of some shares. */
  function Sum(shares: seq<Share>): nat {
    if shares == [] then 0 else Sum(shares[..|shares| - 1]) + shares[|shares| - 1].difficulty
  }

  lemma {:induction false} SumConcat(a: seq<Share>, b: seq<Share>)
    ensures Sum(a + b) == Sum(a) + Sum(b)
  {
    if b == [] {
      assert a + b == a;
    } else {
      SumConcat(a, b[..|b| - 1]);
      ConcatLast(a, b);
    }
  }

  lemma {:induction false} SumTagged(worker: string, pending: seq<(nat, nat)>)
    ensures Sum(Tagged(worker, pending)) == PendingSum(pending)
  {
    if pending != [] {
      var n := |pending| - 1;
      SumTagged(worker, pending[..n]);
      assert Tagged(worker, pending)[..n] == Tagged(worker, pending[..n]);
    }
  }

  /** What commands add to one worker's ledger. */
  function PostedTo(commands: seq<Command>, w: string): nat {
    if commands == [] then 0
    else
      var c := commands[|commands| - 1];
      PostedTo(commands[..|commands| - 1], w) + (if c.IncrShares? && c.worker == w then c.amount else 0)
  }

  lemma {:induction false} PostedToConcat(a: seq<Command>, b: seq<Command>, w: string)
    ensures PostedTo(a + b, w) == PostedTo(a, w) + PostedTo(b, w)
  {
    if b == [] {
      assert a + b == a;
    } else {
      PostedToConcat(a, b[..|b| - 1], w);
      ConcatLast(a, b);
    }
  }

  lemma {:induction false} PushesPostNothing(shares: seq<Share>, w: string)
    ensures PostedTo(Pushes(shares), w) == 0
  {
    if shares != [] {
      PushesPostNothing(shares[..|shares| - 1], w);
      assert Pushes(shares)[..|shares| - 1] == Pushes(shares[..|shares| - 1]);
    }
  }

  lemma {:induction false} ApplyPosts(s: Store, commands: seq<Command>, w: string)
    ensures Get(ApplyAll(s, commands).shares, w) == Get(s.shares, w) + PostedTo(commands, w)
  {
    if commands != [] {
      ApplyPosts(s, commands[..|commands| - 1], w);
    }
  }

  lemma PostedToSnoc(commands: seq<Command>, c: Command, w: string)
    ensures PostedTo(commands + [c], w) == PostedTo(commands, w) + (if c.IncrShares? && c.worker == w then c.amount else 0)
  {
    assert (commands + [c])[..|commands|] == commands;
  }

  lemma HeadsPostTo(v: string, s: WorkerState, w: string)
    ensures PostedTo(LedgerHeads(v, s), w) == if v == w then s.unflushed else 0
  {
    var heads := LedgerHeads(v, s);
    PostedToSnoc([], heads[0], w);
    PostedToSnoc([heads[0]], heads[1], w);
    PostedToSnoc([heads[0], heads[1]], heads[2], w);
    FirstThree(heads, 3);
  }

  lemma WorkerPostsTo(decay: Decay, v: string, s: WorkerState, now: nat, w: string)
    ensures PostedTo(WorkerCommands(decay, v, s, now), w) == if v == w && Online(decay, s, now) then s.unflushed else 0
  {
    var all := WorkerCommands(decay, v, s, now);
    PostedToSnoc([], all[0], w);
    assert [] + [all[0]] == [all[0]];
    if !Online(decay, s, now) {
      PostedToSnoc([all[0]], all[1], w);
      assert all == [all[0]] + [all[1]];
    } else if s.unflushed > 0 {
      HeadsPostTo(v, s, w);
      PushesPostNothing(Tagged(v, s.pending), w);
      PostedToConcat(LedgerHeads(v, s), Pushes(Tagged(v, s.pending)), w);
      PostedToConcat([all[0]], LedgerCommands(v, s), w);
    } else {
      assert all == [all[0]];
    }
  }

  lemma {:induction false} PipelinePostsTo(decay: Decay, workers: Workers, order: seq<string>, now: nat, w: string)
    requires NoRepeats(order) && forall v :: v in order ==> v in workers
    ensures PostedTo(Pipeline(decay, workers, order, now), w) ==
            if w in order && Online(decay, workers[w], now) then workers[w].unflushed else 0
  {
    if order != [] {
      var n := |order| - 1;
      PipelinePostsTo(decay, workers, order[..n], now, w);
      WorkerPostsTo(decay, order[n], workers[order[n]], now, w);
      PostedToConcat(Pipeline(decay, workers, order[..n], now), WorkerCommands(decay, order[n], workers[order[n]], now), w);
    }
  }

  /** A worker's ledger is the difficulty pushed of its own shares. */
  ghost predicate OwnLedger(s: System, w: string) {
    Get(s.store.shares, w) == Sum(Only(w, s.books.pushed))
  }

  lemma OwnLedgerAtFlush(decay: Decay, s: System, step: Step, w: string)
    requires OwnLedger(s, w) && UnflushedIsPending(s.workers)
    requires step.Flush? && Enabled(decay, s, step) && IsWhole(decay, s, step)
    ensures OwnLedger(Next(decay, s, step), w)
  {
    var pipeline := Pipeline(decay, s.workers, step.order, step.at);
    assert pipeline[..step.applied] == pipeline;
    ApplyPosts(s.store, pipeline, w);
    PipelinePostsTo(decay, s.workers, step.order, step.at, w);
    FlushPerWorker(decay, s.workers, step.order, step.at, w);
    OnlyConcat(w, s.books.pushed, Pushed(pipeline));
    SumConcat(Only(w, s.books.pushed), Only(w, Pushed(pipeline)));
    if w in s.workers {
      SumTagged(w, s.workers[w].pending);
    }
  }

  /** With whole flushes every worker's own ledger is the difficulty of its shares that were pushed. */
  lemma {:induction false} WorkerLedgersAgree(decay: Decay, now: nat, db: Database, steps: seq<Step>, w: string)
    requires WholeFlushes(decay, Start(now, db), steps)
    ensures OwnLedger(Run(decay, Start(now, db), steps), w)
  {
    if steps != [] {
      var n := |steps| - 1;
      WholePrefix(decay, Start(now, db), steps);
      WorkerLedgersAgree(decay, now, db, steps[..n], w);
      PendingSumsAgree(decay, now, db, steps[..n]);
      var s, step := Run(decay, Start(now, db), steps[..n]), steps[n];
      if step.Flush? && Enabled(decay, s, step) {
        OwnLedgerAtFlush(decay, s, step, w);
      }
    }
  }

  // ---------------------------------------------------------------- the worker index

  /** Every known worker is indexed or has difficulty to flush. */
  ghost predicate IndexCovers(s: System) {
    && s.store.index <= s.workers.Keys
    && forall w :: w in s.workers ==> w in s.store.index || s.workers[w].unflushed > 0
  }

  lemma {:induction false} ApplyAllConcat(s: Store, a: seq<Command>, b: seq<Command>)
    ensures ApplyAll(s, a + b) == ApplyAll(ApplyAll(s, a), b)
  {
    if b == [] {
      assert a + b == a;
    } else {
      var n := |b| - 1;
      ApplyAllConcat(s, a, b[..n]);
      ConcatLast(a, b);
    }
  }

  lemma {:induction false} PushesKeepIndex(s: Store, shares: seq<Share>)
    ensures ApplyAll(s, Pushes(shares)).index == s.index
  {
    if shares != [] {
      var n := |shares| - 1;
      PushesKeepIndex(s, shares[..n]);
      assert Pushes(shares)[..n] == Pushes(shares[..n]);
    }
  }

  lemma ApplyOne(s: Store, c: Command)
    ensures ApplyAll(s, [c]) == Apply(s, c)
  {
    assert [c][..0] == [];
  }

  lemma HeadsIndex(s: Store, w: string, state: WorkerState)
    ensures ApplyAll(s, LedgerHeads(w, state)).index == s.index + {w}
  {
    var h := LedgerHeads(w, state);
    assert h[..3] == h && h[..3][..2] == h[..2] && h[..2][..1] == h[..1] && h[..1][..0] == [];
    assert ApplyAll(s, h[..1]).index == s.index;
    assert ApplyAll(s, h[..2]).index == s.index + {w};
  }

  /** A worker's commands index it when it has difficulty to flush and unindex it when offline. */
  lemma WorkerIndex(decay: Decay, s: Store, w: string, state: WorkerState, now: nat)
    ensures ApplyAll(s, WorkerCommands(decay, w, state, now)).index ==
            if !Online(decay, state, now) then s.index - {w}
            else if state.unflushed > 0 then s.index + {w} else s.index
  {
    var all := WorkerCommands(decay, w, state, now);
    var s1 := ApplyAll(s, [all[0]]);
    ApplyOne(s, all[0]);
    if !Online(decay, state, now) {
      assert all == [all[0]] + [all[1]];
      assert all[..1] == [all[0]];
    } else if state.unflushed > 0 {
      ApplyAllConcat(s, [all[0]], LedgerCommands(w, state));
      ApplyAllConcat(s1, LedgerHeads(w, state), Pushes(Tagged(w, state.pending)));
      HeadsIndex(s1, w, state);
      PushesKeepIndex(ApplyAll(s1, LedgerHeads(w, state)), Tagged(w, state.pending));
    } else {
      assert all == [all[0]];
    }
  }

  lemma {:induction false} PipelineIndex(decay: Decay, s: Store, workers: Workers, order: seq<string>, now: nat, w: string)
    requires NoRepeats(order) && forall v :: v in order ==> v in workers
    ensures w in ApplyAll(s, Pipeline(decay, workers, order, now)).index <==>
              if w !in order then w in s.index
              else Online(decay, workers[w], now) && (w in s.index || workers[w].unflushed > 0)
  {
    if order != [] {
      var n := |order| - 1;
      var v := order[n];
      PipelineIndex(decay, s, workers, order[..n], now, w);
      ApplyAllConcat(s, Pipeline(decay, workers, order[..n], now), WorkerCommands(decay, v, workers[v], now));
      WorkerIndex(decay, ApplyAll(s, Pipeline(decay, workers, order[..n], now)), v, workers[v], now);
    }
  }

  /** A whole flush leaves the worker index equal to the engine's workers. */
  lemma FlushLevelsIndex(decay: Decay, s: System, now: nat, order: seq<string>)
    requires IsOrder(order, s.workers) && IndexCovers(s)
    ensures ApplyAll(s.store, Pipeline(decay, s.workers, order, now)).index == AfterFlush(decay, s.workers, now).Keys
  {
    forall w
      ensures w in ApplyAll(s.store, Pipeline(decay, s.workers, order, now)).index <==>
                w in AfterFlush(decay, s.workers, now).Keys
    {
      PipelineIndex(decay, s.store, s.workers, order, now, w);
    }
  }

  ghost predicate RealDifficulties(steps: seq<Step>) {
    forall i :: 0 <= i < |steps| && steps[i].Receive? ==> steps[i].difficulty > 0
  }

  lemma WholePrefix(decay: Decay, start: System, steps: seq<Step>)
    requires steps != [] && WholeFlushes(decay, start, steps)
    ensures WholeFlushes(decay, start, steps[..|steps| - 1])
    ensures IsWhole(decay, Run(decay, start, steps[..|steps| - 1]), steps[|steps| - 1])
  {
    var n := |steps| - 1;
    forall i | 0 <= i < n ensures IsWhole(decay, Run(decay, start, steps[..n][..i]), steps[..n][i]) {
      assert steps[..n][..i] == steps[..i];
    }
  }

  lemma TimelyPrefix(decay: Decay, start: System, steps: seq<Step>)
    requires steps != [] && TimelyRun(decay, start, steps)
    ensures TimelyRun(decay, start, steps[..|steps| - 1])
    ensures Timely(Run(decay, start, steps[..|steps| - 1]), steps[|steps| - 1])
  {
    var n := |steps| - 1;
    forall i | 0 <= i < n ensures Timely(Run(decay, start, steps[..n][..i]), steps[..n][i]) {
      assert steps[..n][..i] == steps[..i];
    }
  }

  lemma IndexAtFlush(decay: Decay, s: System, step: Step)
    requires IndexCovers(s) && step.Flush? && Enabled(decay, s, step) && IsWhole(decay, s, step)
    ensures var t := Next(decay, s, step); t.store.index == t.workers.Keys
  {
    var pipeline := Pipeline(decay, s.workers, step.order, step.at);
    assert pipeline[..step.applied] == pipeline;
    FlushLevelsIndex(decay, s, step.at, step.order);
  }

  lemma {:induction false} IndexAlwaysCovers(decay: Decay, now: nat, db: Database, steps: seq<Step>)
    requires WholeFlushes(decay, Start(now, db), steps) && RealDifficulties(steps)
    ensures IndexCovers(Run(decay, Start(now, db), steps))
  {
    if steps != [] {
      var n := |steps| - 1;
      WholePrefix(decay, Start(now, db), steps);
      IndexAlwaysCovers(decay, now, db, steps[..n]);
      var s, step := Run(decay, Start(now, db), steps[..n]), steps[n];
      if step.Flush? && Enabled(decay, s, step) {
        IndexAtFlush(decay, s, step);
      }
    }
  }

  /** When flushes go through whole, the worker index after each is the engine's set of workers,
      however late the flush and whatever fails at the oracle. */
  lemma IndexIsWorkers(decay: Decay, now: nat, db: Database, steps: seq<Step>)
    requires WholeFlushes(decay, Start(now, db), steps) && RealDifficulties(steps)
    requires steps != [] && steps[|steps| - 1].Flush?
    requires Enabled(decay, Run(decay, Start(now, db), steps[..|steps| - 1]), steps[|steps| - 1])
    ensures var s := Run(decay, Start(now, db), steps); s.store.index == s.workers.Keys
  {
    WholePrefix(decay, Start(now, db), steps);
    IndexAlwaysCovers(decay, now, db, steps[..|steps| - 1]);
    IndexAtFlush(decay, Run(decay, Start(now, db), steps[..|steps| - 1]), steps[|steps| - 1]);
  }

  // ---------------------------------------------------------------- the ledgers and what was received

  lemma {:induction false} EvictedWeight(decay: Decay, workers: Workers, order: seq<string>, now: nat, wallet: string)
    requires UnflushedIsPending(workers) && forall w :: w in order ==> w in workers
    requires forall w :: w in workers && !Online(decay, workers[w], now) ==> workers[w].unflushed == 0
    ensures SeqWeight(wallet, Evicted(decay, workers, order, now)) == 0
  {
    if order != [] {
      var n := |order| - 1;
      var w := order[n];
      EvictedWeight(decay, workers, order[..n], now, wallet);
      TaggedWeight(wallet, w, workers[w].pending);
      SeqWeightConcat(wallet, Evicted(decay, workers, order[..n], now),
                      if Online(decay, workers[w], now) then [] else Tagged(w, workers[w].pending));
    }
  }

  lemma FlushedStayPending(decay: Decay, workers: Workers, now: nat)
    requires UnflushedIsPending(workers)
    ensures UnflushedIsPending(AfterFlush(decay, workers, now))
  {
  }

  lemma FlushSplitsCount(decay: Decay, workers: Workers, order: seq<string>, now: nat, x: Share)
    requires IsOrder(order, workers)
    ensures PendingShares(workers)[x] ==
            Count(Pushed(Pipeline(decay, workers, order, now)), x) + Count(Evicted(decay, workers, order, now), x)
            + PendingShares(AfterFlush(decay, workers, now))[x]
  {
    PendingSharesCount(workers, x);
    PendingSharesCount(AfterFlush(decay, workers, now), x);
    CountPendingAtFlush(decay, workers, order, now, x);
  }

  lemma SumOfThree(all: multiset<Share>, a: seq<Share>, b: seq<Share>, c: multiset<Share>)
    requires forall x :: all[x] == Count(a, x) + Count(b, x) + c[x]
    ensures all == multiset(a) + multiset(b) + c
  {
    forall x ensures all[x] == (multiset(a) + multiset(b) + c)[x] {
      assert all[x] == Count(a, x) + Count(b, x) + c[x];
    }
  }

  lemma FlushSplitsShares(decay: Decay, workers: Workers, order: seq<string>, now: nat)
    requires IsOrder(order, workers)
    ensures PendingShares(workers) ==
            multiset(Pushed(Pipeline(decay, workers, order, now))) + multiset(Evicted(decay, workers, order, now))
            + PendingShares(AfterFlush(decay, workers, now))
  {
    var all, after := PendingShares(workers), PendingShares(AfterFlush(decay, workers, now));
    var pushed, evicted := Pushed(Pipeline(decay, workers, order, now)), Evicted(decay, workers, order, now);
    forall x ensures all[x] == Count(pushed, x) + Count(evicted, x) + after[x] {
      FlushSplitsCount(decay, workers, order, now, x);
    }
    SumOfThree(all, pushed, evicted, after);
  }

  /** The difficulty a flush finds pending for a wallet is what it pushes, drops and keeps. */
  lemma FlushSplitsWeight(decay: Decay, workers: Workers, order: seq<string>, now: nat, wallet: string)
    requires IsOrder(order, workers) && UnflushedIsPending(workers)
    ensures Total(wallet, Unflushed(workers)) ==
            SeqWeight(wallet, Pushed(Pipeline(decay, workers, order, now)))
            + SeqWeight(wallet, Evicted(decay, workers, order, now))
            + Total(wallet, Unflushed(AfterFlush(decay, workers, now)))
  {
    var pushed, evicted := Pushed(Pipeline(decay, workers, order, now)), Evicted(decay, workers, order, now);
    var after := AfterFlush(decay, workers, now);
    FlushedStayPending(decay, workers, now);
    PendingWeight(workers, wallet);
    PendingWeight(after, wallet);
    FlushSplitsShares(decay, workers, order, now);
    WeightOfThree(wallet, multiset(pushed), multiset(evicted), PendingShares(after));
    WeightOfSeq(wallet, pushed);
    WeightOfSeq(wallet, evicted);
  }

  /** All that was received for a wallet is in its ledger or unflushed. */
  ghost predicate Accounted(s: System, wallet: string) {
    SeqWeight(wallet, s.books.received) == Get(s.store.wallets, wallet) + Total(wallet, Unflushed(s.workers))
  }

  lemma ReceiveAccounted(decay: Decay, s: System, w: string, difficulty: nat, now: nat, wallet: string)
    requires Accounted(s, wallet)
    ensures Accounted(AfterReceive(decay, s, w, difficulty, now), wallet)
  {
    var t := AfterReceive(decay, s, w, difficulty, now);
    TotalUpdate(wallet, Unflushed(s.workers), w, difficulty);
    assert Unflushed(t.workers) == Unflushed(s.workers)[w := Get(Unflushed(s.workers), w) + difficulty];
    assert t.books.received[..|s.books.received|] == s.books.received;
  }

  lemma FlushAccounted(decay: Decay, s: System, step: Step, wallet: string)
    requires Accounted(s, wallet) && UnflushedIsPending(s.workers) && Recent(s)
    requires step.Flush? && Enabled(decay, s, step) && IsWhole(decay, s, step) && Timely(s, step)
    ensures Accounted(Next(decay, s, step), wallet)
  {
    var pipeline := Pipeline(decay, s.workers, step.order, step.at);
    assert pipeline[..step.applied] == pipeline;
    forall w | w in s.workers && !Online(decay, s.workers[w], step.at) ensures s.workers[w].unflushed == 0 {
      assert Elapsed(s.workers[w].lastShare, step.at) >= IDLE_LIMIT;
    }
    EvictedWeight(decay, s.workers, step.order, step.at, wallet);
    FlushSplitsWeight(decay, s.workers, step.order, step.at, wallet);
    PipelineCut(decay, s.workers, step.order, step.at, wallet, step.applied);
    ApplyAllPosts(s.store, pipeline, wallet);
  }

  /** On time and with whole flushes, a wallet's ledger and its unflushed difficulty account for all
      that was received for it, whatever fails at the oracle. */
  lemma {:induction false} LedgerAccountsForReceived(decay: Decay, now: nat, db: Database, steps: seq<Step>, wallet: string)
    requires TimelyRun(decay, Start(now, db), steps) && WholeFlushes(decay, Start(now, db), steps)
    ensures Accounted(Run(decay, Start(now, db), steps), wallet)
  {
    if steps != [] {
      var before, step := steps[..|steps| - 1], steps[|steps| - 1];
      TimelyPrefix(decay, Start(now, db), steps);
      WholePrefix(decay, Start(now, db), steps);
      LedgerAccountsForReceived(decay, now, db, before, wallet);
      WorkIsRecent(decay, now, db, before);
      PendingSumsAgree(decay, now, db, before);
      var s := Run(decay, Start(now, db), before);
      if step.Receive? {
        ReceiveAccounted(decay, s, step.worker, step.difficulty, step.now, wallet);
      } else if step.Flush? && Enabled(decay, s, step) {
        FlushAccounted(decay, s, step, wallet);
      }
    }
  }
}
