/** What holds when clocks are regular and calls succeed: nothing but shares without a worker name is
    lost, nothing is counted twice, and order is kept. */
module Faultless {
  import opened Sequences
  import opened Options
  import opened Shares
  import opened Clock
  import opened Telemetry
  import opened Ledger
  import opened Oracle
  import opened Settlement
  import opened Accounting
  import opened Conservation
  import opened Flushes

  /** A step on time, with real difficulty, whose calls go through. */
  ghost predicate Sound(decay: Decay, s: System, step: Step) {
    && Timely(s, step)
    && (Enabled(decay, s, step) ==>
          match step
          case Receive(_, difficulty, _) => difficulty > 0
          case Flush(_, _, _) => IsWhole(decay, s, step)
          case TrimBatch(ok) => ok
          case SettleBatch(_, attempt, _) => Succeeds(attempt)
          case _ => true)
  }

  ghost predicate SoundRun(decay: Decay, start: System, steps: seq<Step>) {
    forall i :: 0 <= i < |steps| ==> Sound(decay, Run(decay, start, steps[..i]), steps[i])
  }

  ghost predicate AllNameless(shares: seq<Share>) {
    forall i :: 0 <= i < |shares| ==> shares[i].worker == ""
  }

  lemma {:induction false} NamelessOnly(shares: seq<Share>)
    ensures AllNameless(Nameless(shares)) && (AllNameless(shares) ==> Named(shares) == [])
  {
    if shares != [] {
      NamelessOnly(shares[..|shares| - 1]);
    }
  }

  lemma {:induction false} NamedConcat(a: seq<Share>, b: seq<Share>)
    ensures Named(a + b) == Named(a) + Named(b)
  {
    if b == [] {
      assert a + b == a;
    } else {
      NamedConcat(a, b[..|b| - 1]);
      ConcatLast(a, b);
    }
  }

  /** A worker with a name has all its shares among the named ones. */
  lemma {:induction false} OnlyNamed(v: string, shares: seq<Share>)
    requires v != ""
    ensures Only(v, Named(shares)) == Only(v, shares)
  {
    if shares != [] {
      var n := |shares| - 1;
      OnlyNamed(v, shares[..n]);
      if shares[n].worker != "" {
        OnlyConcat(v, Named(shares[..n]), [shares[n]]);
        OnlyOne(v, shares[n]);
      } else {
        assert Named(shares) == Named(shares[..n]) && Only(v, shares) == Only(v, shares[..n]);
      }
    }
  }

  /** Difficulty and shares come and go together. */
  ghost predicate WorkersClean(workers: Workers) {
    forall w :: w in workers ==> (workers[w].unflushed > 0 <==> workers[w].pending != [])
  }

  ghost predicate Clean(s: System) {
    && Recent(s) && WorkersClean(s.workers) && QueueInvariant(s)
    && AllNameless(s.books.lost) && s.books.duplicated == []
    && Named(s.books.trimmed) == s.books.credited + Named(InFlight(s))
  }

  lemma {:induction false} NothingEvicted(decay: Decay, workers: Workers, order: seq<string>, now: nat)
    requires forall w :: w in order ==> w in workers
    requires forall w :: w in order && !Online(decay, workers[w], now) ==> workers[w].pending == []
    ensures Evicted(decay, workers, order, now) == []
  {
    if order != [] {
      NothingEvicted(decay, workers, order[..|order| - 1], now);
    }
  }

  lemma NothingToEvict(decay: Decay, s: System, step: Step)
    requires Clean(s) && Sound(decay, s, step) && step.Flush? && Enabled(decay, s, step)
    ensures Evicted(decay, s.workers, step.order, step.at) == []
  {
    forall w | w in step.order && !Online(decay, s.workers[w], step.at) ensures s.workers[w].pending == [] {
      assert Elapsed(s.workers[w].lastShare, step.at) >= IDLE_LIMIT;
    }
    NothingEvicted(decay, s.workers, step.order, step.at);
  }

  lemma FlushKeepsClean(decay: Decay, s: System, step: Step)
    requires Clean(s) && Sound(decay, s, step) && step.Flush? && Enabled(decay, s, step)
    ensures Clean(Next(decay, s, step))
  {
    var order, now := step.order, step.at;
    var pipeline := Pipeline(decay, s.workers, order, now);
    assert pipeline[..step.applied] == pipeline && pipeline[step.applied..] == [];
    NothingToEvict(decay, s, step);
    ApplyAllPosts(s.store, pipeline, "");
    TimelyKeepsRecent(decay, s, step);
    FlushKeepsQueue(decay, s, now, order, step.applied);
  }

  lemma ReceiveKeepsClean(decay: Decay, s: System, step: Step)
    requires Clean(s) && Sound(decay, s, step) && step.Receive?
    ensures Clean(Next(decay, s, step))
  {
    TimelyKeepsRecent(decay, s, step);
  }

  lemma OracleKeepsClean(decay: Decay, s: System, step: Step)
    requires Clean(s) && Sound(decay, s, step) && !step.Receive? && !step.Flush?
    ensures Clean(Next(decay, s, step))
  {
    QueueKeeps(decay, s, step);
    if Enabled(decay, s, step) {
      match step
      case ReadBatch(_) =>
      case TrimBatch(_) => NamedConcat(s.books.trimmed, s.phase.batch);
      case SettleBatch(wallets, attempt, price) => SettleKeepsClean(s, wallets, attempt, price);
    }
  }

  /** A settlement whose calls go through credits the named shares of its batch and drops the rest. */
  lemma SettlesNamed(s: System, wallets: seq<string>, attempt: Attempt, price: Option<real>)
    requires s.phase.Trimmed? && Succeeds(attempt)
    ensures var t := AfterSettling(s, wallets, attempt, price);
            && t.books.credited == s.books.credited + Named(s.phase.batch)
            && (AllNameless(s.books.lost) ==> AllNameless(t.books.lost))
  {
    NamelessOnly(s.phase.batch);
  }

  lemma SettleKeepsClean(s: System, wallets: seq<string>, attempt: Attempt, price: Option<real>)
    requires Clean(s) && s.phase.Trimmed? && Succeeds(attempt)
    ensures Clean(AfterSettling(s, wallets, attempt, price))
  {
    SettlesNamed(s, wallets, attempt, price);
  }

  lemma {:induction false} SoundRunIsClean(decay: Decay, now: nat, db: Database, steps: seq<Step>)
    requires SoundRun(decay, Start(now, db), steps)
    ensures Clean(Run(decay, Start(now, db), steps))
  {
    if steps != [] {
      var n := |steps| - 1;
      forall i | 0 <= i < n ensures Sound(decay, Run(decay, Start(now, db), steps[..n][..i]), steps[..n][i]) {
        assert steps[..n][..i] == steps[..i];
      }
      SoundRunIsClean(decay, now, db, steps[..n]);
      var s, step := Run(decay, Start(now, db), steps[..n]), steps[n];
      if Enabled(decay, s, step) {
        match step
        case Receive(_, _, _) => ReceiveKeepsClean(decay, s, step);
        case Flush(_, _, _) => FlushKeepsClean(decay, s, step);
        case _ => OracleKeepsClean(decay, s, step);
      }
    }
  }

  /** One worker's shares in the order they were received: the credited ones, then the batch at hand,
      the queue, and what its state still holds. */
  ghost predicate InOrder(s: System, v: string) {
    Only(v, s.books.received) ==
    Only(v, s.books.credited) + Only(v, InFlight(s)) + Only(v, s.store.buffer) + PendingOf(s.workers, v)
  }

  lemma PendingGrows(decay: Decay, workers: Workers, worker: string, difficulty: nat, now: nat, v: string)
    ensures PendingOf(AfterShare(decay, workers, worker, difficulty, now), v) ==
            PendingOf(workers, v) + (if v == worker then [Share(worker, difficulty, now)] else [])
  {
  }

  lemma OnlyOne(v: string, share: Share)
    ensures Only(v, [share]) == if v == share.worker then [share] else []
  {
    assert [share][..0] == [];
  }

  lemma ReceiveKeepsOrder(decay: Decay, s: System, step: Step, v: string)
    requires InOrder(s, v) && step.Receive?
    ensures InOrder(Next(decay, s, step), v)
  {
    var share := Share(step.worker, step.difficulty, step.now);
    OnlyConcat(v, s.books.received, [share]);
    OnlyOne(v, share);
    PendingGrows(decay, s.workers, step.worker, step.difficulty, step.now, v);
    Reassociated(Only(v, s.books.credited) + Only(v, InFlight(s)) + Only(v, s.store.buffer),
                PendingOf(s.workers, v), Only(v, [share]));
  }

  lemma Regroup<T>(a: seq<T>, b: seq<T>, c: seq<T>, p: seq<T>, q: seq<T>)
    ensures a + b + c + (p + q) == a + b + (c + p) + q
  {
  }

  /** A whole flush with nothing to evict moves a worker's pending shares to the end of the queue. */
  lemma WholeFlushMoves(decay: Decay, s: System, step: Step, v: string)
    requires Clean(s) && Sound(decay, s, step) && step.Flush? && Enabled(decay, s, step)
    ensures var t := Next(decay, s, step);
            var moved := Only(v, Pushed(Pipeline(decay, s.workers, step.order, step.at)));
            && PendingOf(s.workers, v) == moved + PendingOf(t.workers, v)
            && Only(v, t.store.buffer) == Only(v, s.store.buffer) + moved
            && InFlight(t) == InFlight(s) && t.books.received == s.books.received && t.books.credited == s.books.credited
  {
    var order, now, t := step.order, step.at, Next(decay, s, step);
    var pipeline := Pipeline(decay, s.workers, order, now);
    assert pipeline[..step.applied] == pipeline;
    NothingToEvict(decay, s, step);
    FlushSplitsPending(decay, s.workers, order, now, v);
    ApplyAllPosts(s.store, pipeline, "");
    OnlyConcat(v, s.store.buffer, Pushed(pipeline));
  }

  lemma FlushKeepsOrder(decay: Decay, s: System, step: Step, v: string)
    requires InOrder(s, v) && Clean(s) && Sound(decay, s, step) && step.Flush? && Enabled(decay, s, step)
    ensures InOrder(Next(decay, s, step), v)
  {
    WholeFlushMoves(decay, s, step, v);
    Regroup(Only(v, s.books.credited), Only(v, InFlight(s)), Only(v, s.store.buffer),
            Only(v, Pushed(Pipeline(decay, s.workers, step.order, step.at))),
            PendingOf(Next(decay, s, step).workers, v));
  }

  lemma TrimKeepsOrder(s: System, v: string)
    requires InOrder(s, v) && QueueInvariant(s) && s.phase.Read?
    ensures InOrder(AfterTrim(s, true), v)
  {
    var batch, rest := s.phase.batch, s.store.buffer[|s.phase.batch|..];
    assert s.store.buffer == batch + rest;
    OnlyConcat(v, batch, rest);
    RegroupFront(Only(v, s.books.credited), Only(v, batch), Only(v, rest), PendingOf(s.workers, v));
  }

  lemma RegroupFront<T>(a: seq<T>, b: seq<T>, c: seq<T>, p: seq<T>)
    ensures a + [] + (b + c) + p == a + b + c + p
  {
  }

  lemma SettleKeepsOrder(s: System, wallets: seq<string>, attempt: Attempt, price: Option<real>, v: string)
    requires InOrder(s, v) && v != "" && s.phase.Trimmed? && Succeeds(attempt)
    ensures InOrder(AfterSettling(s, wallets, attempt, price), v)
  {
    var batch := s.phase.batch;
    SettlesNamed(s, wallets, attempt, price);
    OnlyConcat(v, s.books.credited, Named(batch));
    OnlyNamed(v, batch);
    RegroupMiddle(Only(v, s.books.credited), Only(v, batch), Only(v, s.store.buffer));
  }

  lemma RegroupMiddle<T>(a: seq<T>, b: seq<T>, c: seq<T>)
    ensures (a + b) + [] + c == a + b + c
  {
  }

  lemma OracleKeepsOrder(decay: Decay, s: System, step: Step, v: string)
    requires InOrder(s, v) && v != "" && Clean(s) && Sound(decay, s, step)
    requires !step.Receive? && !step.Flush? && Enabled(decay, s, step)
    ensures InOrder(Next(decay, s, step), v)
  {
    match step
    case ReadBatch(_) =>
    case TrimBatch(_) => TrimKeepsOrder(s, v);
    case SettleBatch(wallets, attempt, price) => SettleKeepsOrder(s, wallets, attempt, price, v);
  }

  /** When every step is sound, nothing but nameless shares is ever lost, nothing is duplicated, and
      each named worker's shares reach the database exactly once and in the order they were received. */
  lemma {:induction false} ExactlyOnceInOrder(decay: Decay, now: nat, db: Database, steps: seq<Step>, v: string)
    requires SoundRun(decay, Start(now, db), steps) && v != ""
    ensures var s := Run(decay, Start(now, db), steps);
            AllNameless(s.books.lost) && s.books.duplicated == [] && InOrder(s, v)
  {
    SoundRunIsClean(decay, now, db, steps);
    if steps != [] {
      var n := |steps| - 1;
      forall i | 0 <= i < n ensures Sound(decay, Run(decay, Start(now, db), steps[..n][..i]), steps[..n][i]) {
        assert steps[..n][..i] == steps[..i];
      }
      ExactlyOnceInOrder(decay, now, db, steps[..n], v);
      SoundRunIsClean(decay, now, db, steps[..n]);
      var s, step := Run(decay, Start(now, db), steps[..n]), steps[n];
      if Enabled(decay, s, step) {
        match step
        case Receive(_, _, _) => ReceiveKeepsOrder(decay, s, step, v);
        case Flush(_, _, _) => FlushKeepsOrder(decay, s, step, v);
        case _ => OracleKeepsOrder(decay, s, step, v);
      }
    }
  }
}
