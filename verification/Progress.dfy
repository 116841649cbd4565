/** The queue drains: how soon what is queued reaches the database when the oracle's calls succeed. */
module Progress {
  import opened Options
  import opened Sequences
  import opened Shares
  import opened Telemetry
  import opened Ledger
  import opened Oracle
  import opened Settlement
  import opened Accounting
  import opened Conservation
  import opened Faultless

  /** A step whose trim or settlement, if it is one, goes through. Reads may fail. */
  predicate OracleSucceeds(step: Step) {
    match step
    case TrimBatch(ok) => ok
    case SettleBatch(_, attempt, _) => Succeeds(attempt)
    case _ => true
  }

  ghost predicate AllSucceed(steps: seq<Step>) {
    forall i :: 0 <= i < |steps| ==> OracleSucceeds(steps[i])
  }

  /** The settlements carried out. */
  ghost function Turns(decay: Decay, start: System, steps: seq<Step>): nat {
    if steps == [] then 0
    else
      var before, step := steps[..|steps| - 1], steps[|steps| - 1];
      Turns(decay, start, before) + (if step.SettleBatch? && Enabled(decay, Run(decay, start, before), step) then 1 else 0)
  }

  function Least(a: nat, b: nat): nat {
    if a <= b then a else b
  }

  /** How many places of the queue are settled, and how many will be with the batch at hand. */
  function SettledPlaces(s: System): int {
    |s.books.trimmed| - |InFlight(s)|
  }

  function TakenPlaces(s: System): nat {
    |s.books.trimmed| + (if s.phase.Read? then |s.phase.batch| else 0)
  }

  /** After k settlements, of n places queued from place first on. */
  ghost predicate OnTrack(s: System, first: nat, n: nat, k: nat) {
    && first + n <= |s.books.pushed|
    && first + Least(n, BATCH_LIMIT * k) <= SettledPlaces(s)
    && first + Least(n, BATCH_LIMIT * (if s.phase.Waiting? then k else k + 1)) <= TakenPlaces(s)
  }

  lemma TrackStep(decay: Decay, s: System, step: Step, first: nat, n: nat, k: nat)
    requires QueueInvariant(s) && OnTrack(s, first, n, k) && OracleSucceeds(step)
    ensures OnTrack(Next(decay, s, step), first, n, if step.SettleBatch? && Enabled(decay, s, step) then k + 1 else k)
  {
    if step.Flush? && Enabled(decay, s, step) {
      ApplyAllPosts(s.store, Pipeline(decay, s.workers, step.order, step.at)[..step.applied], "");
    }
  }

  /** The database has the named shares of all settled places from place first on, in order. */
  ghost predicate CreditedFrom(s: System, first: nat, credited: seq<Share>) {
    && first <= SettledPlaces(s)
    && s.books.credited == credited + Named(s.books.trimmed[first..SettledPlaces(s)])
  }

  lemma TrimmedTail(trimmed: seq<Share>, batch: seq<Share>, first: nat)
    requires first <= |trimmed|
    ensures (trimmed + batch)[first..|trimmed|] == trimmed[first..|trimmed|] && (trimmed + batch)[|trimmed|..] == batch
  {
  }

  lemma SettledTail(trimmed: seq<Share>, batch: seq<Share>, first: nat)
    requires |batch| <= |trimmed| && first <= |trimmed| - |batch| && trimmed[|trimmed| - |batch|..] == batch
    ensures Named(trimmed[first..|trimmed|]) == Named(trimmed[first..|trimmed| - |batch|]) + Named(batch)
  {
    SliceSplits(trimmed, first, |trimmed| - |batch|);
    NamedConcat(trimmed[first..|trimmed| - |batch|], batch);
  }

  /** The batch at hand is what was trimmed last. */
  ghost predicate BatchIsTail(s: System) {
    s.phase.Trimmed? ==>
      |s.phase.batch| <= |s.books.trimmed| && s.books.trimmed[|s.books.trimmed| - |s.phase.batch|..] == s.phase.batch
  }

  lemma TrimKeepsCredited(s: System, first: nat, credited: seq<Share>)
    requires CreditedFrom(s, first, credited) && s.phase.Read?
    ensures CreditedFrom(AfterTrim(s, true), first, credited) && BatchIsTail(AfterTrim(s, true))
  {
    TrimmedTail(s.books.trimmed, s.phase.batch, first);
  }

  lemma CreditedMore(before: seq<Share>, credited: seq<Share>, trimmed: seq<Share>, batch: seq<Share>, first: nat)
    requires |batch| <= |trimmed| && first <= |trimmed| - |batch| && trimmed[|trimmed| - |batch|..] == batch
    requires credited == before + Named(trimmed[first..|trimmed| - |batch|])
    ensures credited + Named(batch) == before + Named(trimmed[first..|trimmed|])
  {
    SettledTail(trimmed, batch, first);
    Regrouped(credited, before, Named(trimmed[first..|trimmed| - |batch|]), Named(batch), Named(trimmed[first..|trimmed|]));
  }

  lemma SettleKeepsCredited(s: System, wallets: seq<string>, attempt: Attempt, price: Option<real>,
                            first: nat, credited: seq<Share>)
    requires CreditedFrom(s, first, credited) && BatchIsTail(s) && s.phase.Trimmed? && Succeeds(attempt)
    ensures CreditedFrom(AfterSettling(s, wallets, attempt, price), first, credited)
  {
    var t := AfterSettling(s, wallets, attempt, price);
    CreditedMore(credited, s.books.credited, s.books.trimmed, s.phase.batch, first);
    assert t.books.credited == s.books.credited + Named(s.phase.batch) by { SettlesNamed(s, wallets, attempt, price); }
    assert t.books.trimmed == s.books.trimmed && SettledPlaces(t) == |s.books.trimmed|;
  }

  lemma CreditedStep(decay: Decay, s: System, step: Step, first: nat, credited: seq<Share>)
    requires CreditedFrom(s, first, credited) && BatchIsTail(s) && OracleSucceeds(step)
    ensures CreditedFrom(Next(decay, s, step), first, credited) && BatchIsTail(Next(decay, s, step))
  {
    if Enabled(decay, s, step) {
      match step
      case TrimBatch(_) => TrimKeepsCredited(s, first, credited);
      case SettleBatch(wallets, attempt, price) => SettleKeepsCredited(s, wallets, attempt, price, first, credited);
      case _ => OthersKeepCredited(decay, s, step);
    }
  }

  lemma OthersKeepCredited(decay: Decay, s: System, step: Step)
    requires !step.TrimBatch? && !step.SettleBatch?
    ensures var t := Next(decay, s, step);
            && t.books.credited == s.books.credited && t.books.trimmed == s.books.trimmed
            && InFlight(t) == InFlight(s) && (t.phase.Trimmed? <==> s.phase.Trimmed?)
  {
  }

  lemma {:induction false} QueueGrows(decay: Decay, start: System, steps: seq<Step>)
    requires QueueInvariant(start)
    ensures var s := Run(decay, start, steps); QueueInvariant(s) && start.books.pushed <= s.books.pushed
  {
    if steps != [] {
      var before, step := steps[..|steps| - 1], steps[|steps| - 1];
      var s := Run(decay, start, before);
      QueueGrows(decay, start, before);
      QueueKeeps(decay, s, step);
      PushedGrows(decay, s, step);
    }
  }

  lemma PushedGrows(decay: Decay, s: System, step: Step)
    ensures s.books.pushed <= Next(decay, s, step).books.pushed
  {
  }

  lemma {:induction false} StaysOnTrack(decay: Decay, start: System, steps: seq<Step>)
    requires QueueInvariant(start) && start.phase.Waiting? && AllSucceed(steps)
    ensures OnTrack(Run(decay, start, steps), |start.books.trimmed|, |start.store.buffer|, Turns(decay, start, steps))
  {
    if steps != [] {
      var before := steps[..|steps| - 1];
      StaysOnTrack(decay, start, before);
      QueueGrows(decay, start, before);
      TrackStep(decay, Run(decay, start, before), steps[|steps| - 1],
                |start.books.trimmed|, |start.store.buffer|, Turns(decay, start, before));
    }
  }

  lemma {:induction false} CreditedInOrder(decay: Decay, start: System, steps: seq<Step>)
    requires start.phase.Waiting? && AllSucceed(steps)
    ensures var s := Run(decay, start, steps);
            CreditedFrom(s, |start.books.trimmed|, start.books.credited) && BatchIsTail(s)
  {
    if steps != [] {
      var before := steps[..|steps| - 1];
      CreditedInOrder(decay, start, before);
      CreditedStep(decay, Run(decay, start, before), steps[|steps| - 1], |start.books.trimmed|, start.books.credited);
    } else {
      assert start.books.trimmed[|start.books.trimmed|..|start.books.trimmed|] == [];
    }
  }

  lemma PrefixNamed(a: seq<Share>, b: seq<Share>)
    requires a <= b
    ensures Named(a) <= Named(b)
  {
    NamedConcat(a, b[|a|..]);
    assert b == a + b[|a|..];
  }

  /** What was queued is the first part of what has been trimmed since. */
  lemma QueuedStretch(trimmed: seq<Share>, buffer: seq<Share>, trimmedLater: seq<Share>, bufferLater: seq<Share>, m: nat)
    requires trimmed + buffer <= trimmedLater + bufferLater && |trimmed| + |buffer| <= m <= |trimmedLater|
    ensures buffer <= trimmedLater[|trimmed|..m]
  {
    var all := trimmedLater + bufferLater;
    forall i | 0 <= i < |buffer| ensures buffer[i] == trimmedLater[|trimmed|..m][i] {
      assert (trimmed + buffer)[|trimmed| + i] == all[|trimmed| + i];
    }
  }

  /** Whatever is queued while the oracle waits is credited, in order and before anything else, once it
      has made enough turns of 501 places each whose trims and settlements go through; whatever else
      happens in between. */
  lemma QueuedIsCredited(decay: Decay, now: nat, db: Database, steps: seq<Step>, more: seq<Step>)
    requires var s := Run(decay, Start(now, db), steps); s.phase.Waiting?
    requires var s := Run(decay, Start(now, db), steps);
             AllSucceed(more) && |s.store.buffer| <= BATCH_LIMIT * Turns(decay, s, more)
    ensures var s := Run(decay, Start(now, db), steps);
            s.books.credited + Named(s.store.buffer) <= Run(decay, s, more).books.credited
  {
    var s := Run(decay, Start(now, db), steps);
    var t, first, n := Run(decay, s, more), |s.books.trimmed|, |s.store.buffer|;
    QueueIsFifo(decay, now, db, steps);
    QueueGrows(decay, s, more);
    StaysOnTrack(decay, s, more);
    CreditedInOrder(decay, s, more);
    QueuedStretch(s.books.trimmed, s.store.buffer, t.books.trimmed, t.store.buffer, SettledPlaces(t));
    PrefixNamed(s.store.buffer, t.books.trimmed[first..SettledPlaces(t)]);
  }
}
