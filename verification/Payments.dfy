/** Whether a share can be paid more than once: exactly which runs settle a place in the queue again. */
module Payments {
  import opened Options
  import opened Sequences
  import opened Shares
  import opened Telemetry
  import opened Ledger
  import opened Oracle
  import opened Settlement
  import opened Accounting
  import opened Conservation

  /** Places in the queue, counted from the first share ever pushed. first: where the batch at hand was
      read; paid: the end of the batch that last went through. */
  datatype Marks = Marks(first: nat, paid: nat)

  /** A settlement that goes through. */
  ghost predicate GoesThrough(decay: Decay, s: System, step: Step) {
    step.SettleBatch? && Enabled(decay, s, step) && Applies(s.phase.batch, step.attempt)
  }

  ghost function MarksAfter(decay: Decay, s: System, m: Marks, step: Step): Marks {
    if GoesThrough(decay, s, step) then m.(paid := m.first + |s.phase.batch|)
    else if step.ReadBatch? && s.phase.Waiting? then m.(first := |s.books.trimmed|)
    else m
  }

  ghost function MarksOf(decay: Decay, start: System, steps: seq<Step>): Marks {
    if steps == [] then Marks(0, 0)
    else
      var before := steps[..|steps| - 1];
      MarksAfter(decay, Run(decay, start, before), MarksOf(decay, start, before), steps[|steps| - 1])
  }

  /** The step pays the share at place p. */
  ghost predicate Pays(decay: Decay, s: System, m: Marks, step: Step, p: nat) {
    && GoesThrough(decay, s, step)
    && m.first <= p < m.first + |s.phase.batch| && s.phase.batch[p - m.first].worker != ""
  }

  /** How often the share at place p was paid. */
  ghost function PaidTimes(decay: Decay, start: System, steps: seq<Step>, p: nat): nat {
    if steps == [] then 0
    else
      var before := steps[..|steps| - 1];
      PaidTimes(decay, start, before, p)
      + (if Pays(decay, Run(decay, start, before), MarksOf(decay, start, before), steps[|steps| - 1], p) then 1 else 0)
  }

  /** A settlement goes through for a batch whose front had been paid before it was read. */
  ghost predicate PaysAgain(decay: Decay, s: System, m: Marks, step: Step) {
    GoesThrough(decay, s, step) && m.first < m.paid
  }

  ghost predicate NeverPaysAgain(decay: Decay, start: System, steps: seq<Step>) {
    steps == [] ||
    var before := steps[..|steps| - 1];
    && NeverPaysAgain(decay, start, before)
    && !PaysAgain(decay, Run(decay, start, before), MarksOf(decay, start, before), steps[|steps| - 1])
  }

  // ---------------------------------------------------------------- where the batch at hand lies

  ghost predicate Lies(pushed: seq<Share>, first: nat, batch: seq<Share>) {
    first + |batch| <= |pushed| && pushed[first..first + |batch|] == batch
  }

  /** The batch at hand is where it was read, and is cut off the queue unless its trim failed. */
  ghost predicate Located(s: System, m: Marks) {
    match s.phase
    case Waiting => true
    case Read(batch) => Lies(s.books.pushed, m.first, batch) && m.first == |s.books.trimmed| && |batch| <= |FirstOf(s.store.buffer)|
    case Trimmed(batch) =>
      && Lies(s.books.pushed, m.first, batch)
      && (m.first + |batch| == |s.books.trimmed|
          || (m.first == |s.books.trimmed| && |batch| <= |FirstOf(s.store.buffer)|))
  }

  /** A batch reaches at least to the end of what was paid, and so does the next one to be read. */
  ghost predicate Reaches(s: System, m: Marks) {
    && m.paid <= |s.books.trimmed| + |FirstOf(s.store.buffer)|
    && (!s.phase.Waiting? ==> m.paid <= m.first + |s.phase.batch|)
  }

  lemma LiesFurther(pushed: seq<Share>, more: seq<Share>, first: nat, batch: seq<Share>)
    requires Lies(pushed, first, batch)
    ensures Lies(pushed + more, first, batch)
  {
    assert (pushed + more)[first..first + |batch|] == pushed[first..first + |batch|];
  }

  lemma FlushKeepsMarks(decay: Decay, s: System, step: Step, m: Marks)
    requires Located(s, m) && Reaches(s, m) && step.Flush? && Enabled(decay, s, step)
    ensures var t := Next(decay, s, step);
            Located(t, m) && Reaches(t, m) && s.books.pushed <= t.books.pushed
  {
    var cut := Pipeline(decay, s.workers, step.order, step.at)[..step.applied];
    ApplyAllPosts(s.store, cut, "");
    if !s.phase.Waiting? {
      LiesFurther(s.books.pushed, Pushed(cut), m.first, s.phase.batch);
    }
  }

  lemma ReadKeepsMarks(s: System, ok: bool, m: Marks)
    requires Located(s, m) && Reaches(s, m) && QueueInvariant(s) && s.phase.Waiting?
    ensures var t := AfterRead(s, ok); var n := m.(first := |s.books.trimmed|); Located(t, n) && Reaches(t, n)
  {
    var batch := FirstOf(s.store.buffer);
    assert s.books.pushed[|s.books.trimmed|..|s.books.trimmed| + |batch|] == batch;
  }

  lemma TrimKeepsMarks(s: System, ok: bool, m: Marks)
    requires Located(s, m) && Reaches(s, m) && QueueInvariant(s) && s.phase.Read?
    ensures Located(AfterTrim(s, ok), m) && Reaches(AfterTrim(s, ok), m)
  {
  }

  lemma MarksKeep(decay: Decay, s: System, step: Step, m: Marks)
    requires Located(s, m) && Reaches(s, m) && QueueInvariant(s)
    ensures var t, n := Next(decay, s, step), MarksAfter(decay, s, m, step); Located(t, n) && Reaches(t, n)
  {
    if Enabled(decay, s, step) {
      match step
      case Receive(_, _, _) =>
      case Flush(_, _, _) => FlushKeepsMarks(decay, s, step, m);
      case ReadBatch(ok) => ReadKeepsMarks(s, ok, m);
      case TrimBatch(ok) => TrimKeepsMarks(s, ok, m);
      case SettleBatch(_, _, _) =>
    }
  }

  lemma {:induction false} MarksHold(decay: Decay, now: nat, db: Database, steps: seq<Step>)
    ensures var s, m := Run(decay, Start(now, db), steps), MarksOf(decay, Start(now, db), steps);
            Located(s, m) && Reaches(s, m)
  {
    if steps != [] {
      var before := steps[..|steps| - 1];
      MarksHold(decay, now, db, before);
      QueueIsFifo(decay, now, db, before);
      MarksKeep(decay, Run(decay, Start(now, db), before), steps[|steps| - 1], MarksOf(decay, Start(now, db), before));
    }
  }

  // ---------------------------------------------------------------- who was paid

  /** Where the batch at hand, or else the next one, starts. */
  function Low(s: System, m: Marks): nat {
    if s.phase.Trimmed? then m.first else |s.books.trimmed|
  }

  ghost predicate PaidAt(pushed: seq<Share>, m: Marks, paid: nat -> nat) {
    forall p: nat :: paid(p) > 0 ==> p < m.paid && p < |pushed| && pushed[p].worker != ""
  }

  /** If the front of the queue lies before the end of what was paid, some share there was paid. */
  ghost predicate FrontPaid(low: nat, m: Marks, paid: nat -> nat) {
    low < m.paid ==> exists p: nat :: low <= p < m.paid && paid(p) > 0
  }

  ghost predicate OneMore(decay: Decay, s: System, m: Marks, step: Step, paid: nat -> nat, next: nat -> nat) {
    forall p: nat :: next(p) == paid(p) + (if Pays(decay, s, m, step, p) then 1 else 0)
  }

  lemma PaidStep(decay: Decay, s: System, step: Step, m: Marks, paid: nat -> nat, next: nat -> nat)
    requires Located(s, m) && Reaches(s, m) && QueueInvariant(s)
    requires PaidAt(s.books.pushed, m, paid) && FrontPaid(Low(s, m), m, paid)
    requires OneMore(decay, s, m, step, paid, next)
    ensures var t, n := Next(decay, s, step), MarksAfter(decay, s, m, step);
            PaidAt(t.books.pushed, n, next) && FrontPaid(Low(t, n), n, next)
  {
    if GoesThrough(decay, s, step) {
      SettledStep(decay, s, step, m, paid, next);
    } else {
      UnsettledStep(decay, s, step, m);
      assert forall p: nat :: next(p) == paid(p);
    }
  }

  lemma UnsettledStep(decay: Decay, s: System, step: Step, m: Marks)
    requires Located(s, m) && Reaches(s, m) && QueueInvariant(s) && !GoesThrough(decay, s, step)
    ensures var t, n := Next(decay, s, step), MarksAfter(decay, s, m, step);
            s.books.pushed <= t.books.pushed && n.paid == m.paid && (Low(t, n) == Low(s, m) || m.paid <= Low(t, n))
  {
    if step.Flush? && Enabled(decay, s, step) {
      FlushKeepsMarks(decay, s, step, m);
    }
  }

  lemma LiesAt(pushed: seq<Share>, first: nat, batch: seq<Share>, p: nat)
    requires Lies(pushed, first, batch) && first <= p < first + |batch|
    ensures pushed[p] == batch[p - first]
  {
    assert pushed[first..first + |batch|][p - first] == pushed[p];
  }

  lemma SettledBooks(decay: Decay, s: System, step: Step)
    requires GoesThrough(decay, s, step)
    ensures var t := Next(decay, s, step);
            && t.books.credited == s.books.credited + Named(s.phase.batch) && t.books.pushed == s.books.pushed
            && t.phase.Waiting? && t.books.trimmed == s.books.trimmed
  {
  }

  lemma SettledStep(decay: Decay, s: System, step: Step, m: Marks, paid: nat -> nat, next: nat -> nat)
    requires Located(s, m) && Reaches(s, m) && PaidAt(s.books.pushed, m, paid)
    requires GoesThrough(decay, s, step) && OneMore(decay, s, m, step, paid, next)
    ensures var t, n := Next(decay, s, step), MarksAfter(decay, s, m, step);
            PaidAt(t.books.pushed, n, next) && FrontPaid(Low(t, n), n, next)
  {
    var batch, n := s.phase.batch, MarksAfter(decay, s, m, step);
    SettledBooks(decay, s, step);
    forall p: nat | next(p) > 0 ensures p < n.paid && p < |s.books.pushed| && s.books.pushed[p].worker != "" {
      if Pays(decay, s, m, step, p) {
        LiesAt(s.books.pushed, m.first, batch, p);
      }
    }
    var i :| 0 <= i < |batch| && batch[i].worker != "";
    assert Pays(decay, s, m, step, m.first + i) && next(m.first + i) > 0;
  }

  lemma {:induction false} PaidHolds(decay: Decay, now: nat, db: Database, steps: seq<Step>)
    ensures var start := Start(now, db);
            var s, m, paid := Run(decay, start, steps), MarksOf(decay, start, steps), p => PaidTimes(decay, start, steps, p);
            PaidAt(s.books.pushed, m, paid) && FrontPaid(Low(s, m), m, paid)
  {
    if steps != [] {
      var start, before, step := Start(now, db), steps[..|steps| - 1], steps[|steps| - 1];
      PaidHolds(decay, now, db, before);
      MarksHold(decay, now, db, before);
      QueueIsFifo(decay, now, db, before);
      PaidStep(decay, Run(decay, start, before), step, MarksOf(decay, start, before),
               p => PaidTimes(decay, start, before, p), p => PaidTimes(decay, start, steps, p));
    }
  }

  /** A step pays some share again exactly when its batch starts before the end of what was paid. */
  lemma AgainIff(decay: Decay, s: System, step: Step, m: Marks, paid: nat -> nat)
    requires Located(s, m) && Reaches(s, m) && PaidAt(s.books.pushed, m, paid) && FrontPaid(Low(s, m), m, paid)
    ensures PaysAgain(decay, s, m, step) <==> exists p: nat :: paid(p) > 0 && Pays(decay, s, m, step, p)
  {
    if PaysAgain(decay, s, m, step) {
      var p: nat :| m.first <= p < m.paid && paid(p) > 0;
      LiesAt(s.books.pushed, m.first, s.phase.batch, p);
      assert Pays(decay, s, m, step, p);
    }
  }

  ghost predicate AllPaidOnce(decay: Decay, start: System, steps: seq<Step>) {
    forall p: nat :: PaidTimes(decay, start, steps, p) <= 1
  }

  lemma OnceStep(decay: Decay, now: nat, db: Database, steps: seq<Step>)
    requires steps != []
    ensures var start, before := Start(now, db), steps[..|steps| - 1];
            AllPaidOnce(decay, start, steps) <==>
              && AllPaidOnce(decay, start, before)
              && !PaysAgain(decay, Run(decay, start, before), MarksOf(decay, start, before), steps[|steps| - 1])
  {
    var start, before, step := Start(now, db), steps[..|steps| - 1], steps[|steps| - 1];
    var s, m := Run(decay, start, before), MarksOf(decay, start, before);
    PaidHolds(decay, now, db, before);
    MarksHold(decay, now, db, before);
    AgainIff(decay, s, step, m, p => PaidTimes(decay, start, before, p));
    forall p: nat ensures PaidTimes(decay, start, steps, p) ==
                     PaidTimes(decay, start, before, p) + (if Pays(decay, s, m, step, p) then 1 else 0)
    {
    }
  }

  /** Exactly which runs pay every queued share at most once: those in which no settlement goes through
      for a batch whose front had been paid before. */
  lemma {:induction false} PaidOnceIff(decay: Decay, now: nat, db: Database, steps: seq<Step>)
    ensures AllPaidOnce(decay, Start(now, db), steps) <==> NeverPaysAgain(decay, Start(now, db), steps)
  {
    if steps != [] {
      PaidOnceIff(decay, now, db, steps[..|steps| - 1]);
      OnceStep(decay, now, db, steps);
    }
  }

  // ---------------------------------------------------------------- what paying means

  /** How often shares equal to x were paid, over all places. */
  function Copies(pushed: seq<Share>, paid: nat -> nat, x: Share): nat {
    if pushed == [] then 0
    else
      var last := |pushed| - 1;
      Copies(pushed[..last], paid, x) + (if pushed[last] == x then paid(last) else 0)
  }

  lemma {:induction false} CopiesEqual(pushed: seq<Share>, paid: nat -> nat, next: nat -> nat, x: Share)
    requires forall p: nat :: p < |pushed| ==> next(p) == paid(p)
    ensures Copies(pushed, next, x) == Copies(pushed, paid, x)
  {
    if pushed != [] {
      CopiesEqual(pushed[..|pushed| - 1], paid, next, x);
    }
  }

  /** Paying place p once more. */
  lemma {:induction false} CopiesBump(pushed: seq<Share>, paid: nat -> nat, next: nat -> nat, p: nat, x: Share)
    requires p < |pushed| && next(p) == paid(p) + 1 && forall q: nat :: q < |pushed| && q != p ==> next(q) == paid(q)
    ensures Copies(pushed, next, x) == Copies(pushed, paid, x) + (if pushed[p] == x then 1 else 0)
  {
    var last := |pushed| - 1;
    if p == last {
      CopiesEqual(pushed[..last], paid, next, x);
    } else {
      CopiesBump(pushed[..last], paid, next, p, x);
    }
  }

  /** Paying the named shares of a batch at place first once more. */
  ghost predicate PaysBatch(paid: nat -> nat, next: nat -> nat, first: nat, batch: seq<Share>) {
    forall p: nat :: next(p) == paid(p) + Due(first, batch, p)
  }

  function Due(first: nat, batch: seq<Share>, p: nat): nat {
    if first <= p < first + |batch| && batch[p - first].worker != "" then 1 else 0
  }

  lemma LiesShorter(pushed: seq<Share>, first: nat, batch: seq<Share>)
    requires Lies(pushed, first, batch) && batch != []
    ensures Lies(pushed, first, batch[..|batch| - 1]) && pushed[first + |batch| - 1] == batch[|batch| - 1]
  {
    assert pushed[first..first + |batch|][..|batch| - 1] == pushed[first..first + |batch| - 1];
    assert pushed[first..first + |batch|][|batch| - 1] == pushed[first + |batch| - 1];
  }

  /** Between paying all but the last share of a batch and paying all of it. */
  lemma LastDue(paid: nat -> nat, mid: nat -> nat, next: nat -> nat, first: nat, batch: seq<Share>)
    requires batch != [] && PaysBatch(paid, next, first, batch) && PaysBatch(paid, mid, first, batch[..|batch| - 1])
    ensures var last := first + |batch| - 1;
            && next(last) == mid(last) + (if batch[|batch| - 1].worker != "" then 1 else 0)
            && forall q: nat :: q != last ==> next(q) == mid(q)
  {
    forall q: nat | q != first + |batch| - 1 ensures next(q) == mid(q) {
      assert Due(first, batch[..|batch| - 1], q) == Due(first, batch, q);
    }
  }

  lemma CopiesLast(pushed: seq<Share>, mid: nat -> nat, next: nat -> nat, p: nat, x: Share)
    requires p < |pushed| && next(p) == mid(p) + (if pushed[p].worker != "" then 1 else 0)
    requires forall q: nat :: q != p ==> next(q) == mid(q)
    ensures Copies(pushed, next, x) == Copies(pushed, mid, x) + (if pushed[p] == x && x.worker != "" then 1 else 0)
  {
    if pushed[p].worker != "" {
      CopiesBump(pushed, mid, next, p, x);
    } else {
      CopiesEqual(pushed, mid, next, x);
    }
  }

  lemma CopiesLonger(pushed: seq<Share>, paid: nat -> nat, mid: nat -> nat, next: nat -> nat,
                     first: nat, batch: seq<Share>, x: Share)
    requires batch != [] && Lies(pushed, first, batch)
    requires PaysBatch(paid, mid, first, batch[..|batch| - 1]) && PaysBatch(paid, next, first, batch)
    requires Copies(pushed, mid, x) == Copies(pushed, paid, x) + Count(Named(batch[..|batch| - 1]), x)
    ensures Copies(pushed, next, x) == Copies(pushed, paid, x) + Count(Named(batch), x)
  {
    LiesShorter(pushed, first, batch);
    LastDue(paid, mid, next, first, batch);
    CopiesLast(pushed, mid, next, first + |batch| - 1, x);
    NamedLast(batch, x);
  }

  lemma {:induction false} CopiesMore(pushed: seq<Share>, paid: nat -> nat, next: nat -> nat, first: nat, batch: seq<Share>, x: Share)
    requires Lies(pushed, first, batch) && PaysBatch(paid, next, first, batch)
    ensures Copies(pushed, next, x) == Copies(pushed, paid, x) + Count(Named(batch), x)
  {
    if batch == [] {
      CopiesEqual(pushed, paid, next, x);
    } else {
      var shorter := batch[..|batch| - 1];
      var mid := (q: nat) => paid(q) + Due(first, shorter, q);
      LiesShorter(pushed, first, batch);
      CopiesMore(pushed, paid, mid, first, shorter, x);
      CopiesLonger(pushed, paid, mid, next, first, batch, x);
    }
  }

  lemma NamedLast(shares: seq<Share>, x: Share)
    requires shares != []
    ensures var last := |shares| - 1;
            Count(Named(shares), x) ==
            Count(Named(shares[..last]), x) + (if shares[last] == x && x.worker != "" then 1 else 0)
  {
    CountConcat(Named(shares[..|shares| - 1]), [shares[|shares| - 1]], x);
  }

  lemma {:induction false} CopiesSame(pushed: seq<Share>, paid: nat -> nat, more: seq<Share>, next: nat -> nat, x: Share)
    requires forall p: nat :: next(p) == paid(p)
    requires forall p: nat :: paid(p) > 0 ==> p < |pushed|
    ensures Copies(pushed + more, next, x) == Copies(pushed, paid, x)
  {
    if more != [] {
      ConcatLast(pushed, more);
      CopiesSame(pushed, paid, more[..|more| - 1], next, x);
    } else if pushed != [] {
      assert pushed + more == pushed;
      CopiesEqual(pushed, paid, next, x);
    }
  }

  lemma CopiesUnsettled(decay: Decay, s: System, step: Step, m: Marks, paid: nat -> nat, next: nat -> nat, x: Share)
    requires Located(s, m) && Reaches(s, m) && QueueInvariant(s) && PaidAt(s.books.pushed, m, paid)
    requires !GoesThrough(decay, s, step) && forall p: nat :: next(p) == paid(p)
    ensures Copies(Next(decay, s, step).books.pushed, next, x) == Copies(s.books.pushed, paid, x)
  {
    UnsettledStep(decay, s, step, m);
    var t := Next(decay, s, step);
    var more := t.books.pushed[|s.books.pushed|..];
    assert t.books.pushed == s.books.pushed + more;
    CopiesSame(s.books.pushed, paid, more, next, x);
  }

  lemma CopiesStep(decay: Decay, s: System, step: Step, m: Marks, paid: nat -> nat, next: nat -> nat, x: Share)
    requires Located(s, m) && Reaches(s, m) && QueueInvariant(s) && PaidAt(s.books.pushed, m, paid)
    requires OneMore(decay, s, m, step, paid, next) && Count(s.books.credited, x) == Copies(s.books.pushed, paid, x)
    ensures var t := Next(decay, s, step); Count(t.books.credited, x) == Copies(t.books.pushed, next, x)
  {
    if GoesThrough(decay, s, step) {
      SettledBooks(decay, s, step);
      CountConcat(s.books.credited, Named(s.phase.batch), x);
      CopiesMore(s.books.pushed, paid, next, m.first, s.phase.batch, x);
    } else {
      UncreditedStep(decay, s, step);
      CopiesUnsettled(decay, s, step, m, paid, next, x);
    }
  }

  lemma UncreditedStep(decay: Decay, s: System, step: Step)
    requires !GoesThrough(decay, s, step)
    ensures Next(decay, s, step).books.credited == s.books.credited
  {
  }

  /** A share is in the database exactly as often as its places in the queue were paid. */
  lemma {:induction false} CreditedIsPaid(decay: Decay, now: nat, db: Database, steps: seq<Step>, x: Share)
    ensures var start := Start(now, db);
            var s := Run(decay, start, steps);
            Count(s.books.credited, x) == Copies(s.books.pushed, p => PaidTimes(decay, start, steps, p), x)
  {
    if steps != [] {
      var start, before, step := Start(now, db), steps[..|steps| - 1], steps[|steps| - 1];
      CreditedIsPaid(decay, now, db, before, x);
      PaidHolds(decay, now, db, before);
      MarksHold(decay, now, db, before);
      QueueIsFifo(decay, now, db, before);
      CopiesStep(decay, Run(decay, start, before), step, MarksOf(decay, start, before),
                 p => PaidTimes(decay, start, before, p), p => PaidTimes(decay, start, steps, p), x);
    }
  }

  // ---------------------------------------------------------------- when trims succeed

  /** Every trim takes effect. */
  ghost predicate TrimsSucceed(steps: seq<Step>) {
    forall i :: 0 <= i < |steps| && steps[i].TrimBatch? ==> steps[i].ok
  }

  /** Trims that succeed keep the queue clear of what was paid. */
  lemma {:induction false} SuccessfulTrims(decay: Decay, now: nat, db: Database, steps: seq<Step>)
    requires TrimsSucceed(steps)
    ensures var s, m := Run(decay, Start(now, db), steps), MarksOf(decay, Start(now, db), steps);
            && NeverPaysAgain(decay, Start(now, db), steps)
            && m.paid <= Low(s, m) && (s.phase.Trimmed? ==> m.first + |s.phase.batch| == |s.books.trimmed|)
  {
    if steps != [] {
      var before := steps[..|steps| - 1];
      SuccessfulTrims(decay, now, db, before);
      MarksHold(decay, now, db, before);
    }
  }

  // ---------------------------------------------------------------- shares credited and received

  /** What was pushed had been received. */
  lemma {:induction false} PushedWasReceived(decay: Decay, now: nat, db: Database, steps: seq<Step>, x: Share)
    ensures var s := Run(decay, Start(now, db), steps);
            Count(s.books.pushed, x) + Count(PendingOf(s.workers, x.worker), x) <= Count(s.books.received, x)
  {
    if steps != [] {
      var before, step := steps[..|steps| - 1], steps[|steps| - 1];
      var s := Run(decay, Start(now, db), before);
      PushedWasReceived(decay, now, db, before, x);
      if Enabled(decay, s, step) {
        match step
        case Receive(worker, difficulty, at) => ReceivedMore(decay, s, worker, difficulty, at, x);
        case Flush(at, order, applied) =>
          CountPendingAtFlush(decay, s.workers, order, at, x);
          CountCut(Pipeline(decay, s.workers, order, at), applied, x);
          CountConcat(s.books.pushed, Pushed(Pipeline(decay, s.workers, order, at)[..applied]), x);
        case _ =>
      }
    }
  }

  lemma ReceivedMore(decay: Decay, s: System, worker: string, difficulty: nat, now: nat, x: Share)
    ensures var t := AfterReceive(decay, s, worker, difficulty, now);
            && t.books.pushed == s.books.pushed
            && Count(t.books.received, x) - Count(s.books.received, x) ==
               Count(PendingOf(t.workers, x.worker), x) - Count(PendingOf(s.workers, x.worker), x)
  {
    var t := AfterReceive(decay, s, worker, difficulty, now);
    var added := [Share(worker, difficulty, now)];
    CountConcat(s.books.received, added, x);
    if x.worker == worker {
      assert PendingOf(t.workers, worker) == PendingOf(s.workers, worker) + added;
      CountConcat(PendingOf(s.workers, worker), added, x);
    }
  }

  lemma {:induction false} CopiesAtMost(pushed: seq<Share>, paid: nat -> nat, x: Share)
    requires forall p: nat :: paid(p) <= 1
    ensures Copies(pushed, paid, x) <= Count(pushed, x)
  {
    if pushed != [] {
      CopiesAtMost(pushed[..|pushed| - 1], paid, x);
      CountLast(pushed, x);
    }
  }

  /** In such runs no share is credited more often than it was received, whatever else fails. */
  lemma NoDoubleCredit(decay: Decay, now: nat, db: Database, steps: seq<Step>, x: Share)
    requires NeverPaysAgain(decay, Start(now, db), steps)
    ensures var s := Run(decay, Start(now, db), steps); Count(s.books.credited, x) <= Count(s.books.received, x)
  {
    PaidOnceIff(decay, now, db, steps);
    CreditedIsPaid(decay, now, db, steps, x);
    CopiesAtMost(Run(decay, Start(now, db), steps).books.pushed, p => PaidTimes(decay, Start(now, db), steps, p), x);
    PushedWasReceived(decay, now, db, steps, x);
  }

  // ---------------------------------------------------------------- a failed trim

  const SUCCESS := Attempt(true, true, true, Acknowledged)

  /** A read, a trim and a settlement that goes through. */
  function Turn(trimmed: bool, wallets: seq<string>): seq<Step> {
    [ReadBatch(true), TrimBatch(trimmed), SettleBatch(wallets, SUCCESS, None)]
  }

  ghost predicate HasNamed(batch: seq<Share>) {
    exists i :: 0 <= i < |batch| && batch[i].worker != ""
  }

  lemma TurnCredits(decay: Decay, start: System, steps: seq<Step>, wallets: seq<string>, trimmed: bool)
    requires var s := Run(decay, start, steps);
             s.phase.Waiting? && HasNamed(FirstOf(s.store.buffer)) && Enumerates(wallets, Aggregate(FirstOf(s.store.buffer)))
    ensures var s, t := Run(decay, start, steps), Run(decay, start, steps + Turn(trimmed, wallets));
            && t.phase.Waiting?
            && t.store.buffer == (if trimmed then Drop(s.store.buffer, |FirstOf(s.store.buffer)|) else s.store.buffer)
            && t.books.credited == s.books.credited + Named(FirstOf(s.store.buffer))
            && t.books.received == s.books.received
  {
    var turn := Turn(trimmed, wallets);
    RunSnoc(decay, start, steps, turn[0]);
    RunSnoc(decay, start, steps + [turn[0]], turn[1]);
    RunSnoc(decay, start, steps + [turn[0], turn[1]], turn[2]);
    Joined(steps, turn[0], turn[1], turn[2]);
  }

  /** A failed trim pays twice: whatever is queued, a turn whose trim fails and one whose trim succeeds
      credit the whole batch two times. */
  lemma FailedTrimPaysTwice(decay: Decay, now: nat, db: Database, steps: seq<Step>, wallets: seq<string>)
    requires var s := Run(decay, Start(now, db), steps);
             s.phase.Waiting? && HasNamed(FirstOf(s.store.buffer)) && Enumerates(wallets, Aggregate(FirstOf(s.store.buffer)))
    ensures var s, t := Run(decay, Start(now, db), steps),
                        Run(decay, Start(now, db), steps + Turn(false, wallets) + Turn(true, wallets));
            var batch := Named(FirstOf(s.store.buffer));
            t.books.credited == s.books.credited + batch + batch && t.books.received == s.books.received
  {
    TurnCredits(decay, Start(now, db), steps, wallets, false);
    TurnCredits(decay, Start(now, db), steps + Turn(false, wallets), wallets, true);
  }

  lemma OneShareAggregate(x: Share)
    requires x.worker != ""
    ensures Enumerates([WalletOf(x.worker)], Aggregate([x])) && Named([x]) == [x] && HasNamed([x])
  {
    assert [x][..0] == [] && [x][0].worker != "";
  }

  /** So one share received can be credited twice. */
  lemma DoubleCreditHappens(decay: Decay, db: Database) returns (steps: seq<Step>, x: Share)
    ensures var s := Run(decay, Start(0, db), steps); Count(s.books.received, x) == 1 && Count(s.books.credited, x) == 2
  {
    x := Share("w", 1, 0);
    steps := OneShareQueued(decay, db);
    OneShareAggregate(x);
    FailedTrimPaysTwice(decay, 0, db, steps, [WalletOf("w")]);
    steps := steps + Turn(false, [WalletOf("w")]) + Turn(true, [WalletOf("w")]);
  }
}
