/** The Redis ledgers a flush writes, and how far they agree when a pipeline is cut short.

    The pipeline is not a transaction: a broken connection leaves any prefix of it applied. */
module Ledger {
  import opened Sequences
  import opened Shares
  import opened Telemetry

  /** wallets: the per-wallet ledger; shares: the per-worker ledger; index: the known workers;
      buffer: the oracle's event queue. */
  datatype Store = Store(
    rates: map<string, real>,
    wallets: map<string, nat>,
    index: set<string>,
    shares: map<string, nat>,
    buffer: seq<Share>)

  const EMPTY_STORE := Store(map[], map[], {}, map[], [])

  function Apply(s: Store, c: Command): Store {
    match c
    case SetHashrate(worker, rate) => s.(rates := s.rates[worker := rate])
    case SRem(worker) => s.(index := s.index - {worker})
    case IncrWallet(wallet, amount) => s.(wallets := s.wallets[wallet := Get(s.wallets, wallet) + amount])
    case SAdd(worker) => s.(index := s.index + {worker})
    case IncrShares(worker, amount) => s.(shares := s.shares[worker := Get(s.shares, worker) + amount])
    case RPush(share) => s.(buffer := s.buffer + [share])
  }

  function ApplyAll(s: Store, commands: seq<Command>): Store {
    if commands == [] then s
    else Apply(ApplyAll(s, commands[..|commands| - 1]), commands[|commands| - 1])
  }

  class Redis {
    var rates: map<string, real>
    var wallets: map<string, nat>
    var index: set<string>
    var shares: map<string, nat>
    var buffer: seq<Share>

    ghost function View(): Store
      reads this
    {
      Store(rates, wallets, index, shares, buffer)
    }

    constructor ()
      ensures View() == EMPTY_STORE
    {
      rates, wallets, index, shares, buffer := map[], map[], {}, map[], [];
    }

    /** Executes the first applied commands of a pipeline. */
    method Execute(pipeline: seq<Command>, applied: nat)
      requires applied <= |pipeline|
      modifies this
      ensures View() == ApplyAll(old(View()), pipeline[..applied])
    {
      for i := 0 to applied
        invariant View() == ApplyAll(old(View()), pipeline[..i])
      {
        assert pipeline[..i + 1][..i] == pipeline[..i];
        match pipeline[i]
        case SetHashrate(worker, rate) => rates := rates[worker := rate];
        case SRem(worker) => index := index - {worker};
        case IncrWallet(wallet, amount) => wallets := wallets[wallet := Get(wallets, wallet) + amount];
        case SAdd(worker) => index := index + {worker};
        case IncrShares(worker, amount) => shares := shares[worker := Get(shares, worker) + amount];
        case RPush(share) => buffer := buffer + [share];
      }
    }
  }

  // ---------------------------------------------------------------- what commands post

  function ToWallet(c: Command, wallet: string): nat {
    if c.IncrWallet? && c.wallet == wallet then c.amount else 0
  }

  function ToShares(c: Command, wallet: string): nat {
    if c.IncrShares? && WalletOf(c.worker) == wallet then c.amount else 0
  }

  function ToQueue(c: Command): seq<Share> {
    if c.RPush? then [c.share] else []
  }

  /** What commands add to a wallet's ledger. */
  function PostedToWallet(commands: seq<Command>, wallet: string): nat {
    if commands == [] then 0
    else PostedToWallet(commands[..|commands| - 1], wallet) + ToWallet(commands[|commands| - 1], wallet)
  }

  /** What they add to the ledgers of the wallet's workers. */
  function PostedToShares(commands: seq<Command>, wallet: string): nat {
    if commands == [] then 0
    else PostedToShares(commands[..|commands| - 1], wallet) + ToShares(commands[|commands| - 1], wallet)
  }

  /** The events they push, in order. */
  function Pushed(commands: seq<Command>): seq<Share> {
    if commands == [] then []
    else Pushed(commands[..|commands| - 1]) + ToQueue(commands[|commands| - 1])
  }

  lemma OneMorePosts(commands: seq<Command>, c: Command, wallet: string)
    ensures PostedToWallet(commands + [c], wallet) == PostedToWallet(commands, wallet) + ToWallet(c, wallet)
    ensures PostedToShares(commands + [c], wallet) == PostedToShares(commands, wallet) + ToShares(c, wallet)
    ensures Pushed(commands + [c]) == Pushed(commands) + ToQueue(c)
  {
    assert (commands + [c])[..|commands|] == commands;
  }

  lemma {:induction false} PostedConcat(a: seq<Command>, b: seq<Command>, wallet: string)
    ensures PostedToWallet(a + b, wallet) == PostedToWallet(a, wallet) + PostedToWallet(b, wallet)
    ensures PostedToShares(a + b, wallet) == PostedToShares(a, wallet) + PostedToShares(b, wallet)
  {
    if b == [] {
      assert a + b == a;
    } else {
      var n := |b| - 1;
      PostedConcat(a, b[..n], wallet);
      ConcatLast(a, b);
    }
  }

  lemma {:induction false} PushedConcat(a: seq<Command>, b: seq<Command>)
    ensures Pushed(a + b) == Pushed(a) + Pushed(b)
  {
    if b == [] {
      assert a + b == a;
    } else {
      var n := |b| - 1;
      PushedConcat(a, b[..n]);
      ConcatLast(a, b);
    }
  }

  lemma {:induction false} PushedOfPushes(shares: seq<Share>)
    ensures Pushed(Pushes(shares)) == shares
    ensures forall wallet :: PostedToWallet(Pushes(shares), wallet) == 0 && PostedToShares(Pushes(shares), wallet) == 0
  {
    if shares != [] {
      var n := |shares| - 1;
      PushedOfPushes(shares[..n]);
      assert Pushes(shares)[..n] == Pushes(shares[..n]);
    }
  }

  /** Applying commands changes each ledger by what they post to it, and the queue by what they push. */
  lemma {:induction false} ApplyAllPosts(s: Store, commands: seq<Command>, wallet: string)
    ensures var t := ApplyAll(s, commands);
            && Get(t.wallets, wallet) == Get(s.wallets, wallet) + PostedToWallet(commands, wallet)
            && Total(wallet, t.shares) == Total(wallet, s.shares) + PostedToShares(commands, wallet)
            && t.buffer == s.buffer + Pushed(commands)
  {
    if commands != [] {
      var n := |commands| - 1;
      ApplyAllPosts(s, commands[..n], wallet);
      var c, t := commands[n], ApplyAll(s, commands[..n]);
      if c.IncrShares? {
        TotalUpdate(wallet, t.shares, c.worker, c.amount);
      }
    }
  }

  // ---------------------------------------------------------------- the order of the ledgers

  function PendingSum(pending: seq<(nat, nat)>): nat {
    if pending == [] then 0 else PendingSum(pending[..|pending| - 1]) + pending[|pending| - 1].0
  }

  /** Every worker's unflushed difficulty is the sum of its pending shares. */
  ghost predicate UnflushedIsPending(workers: Workers) {
    forall w :: w in workers ==> workers[w].unflushed == PendingSum(workers[w].pending)
  }

  /** The wallet ledger is ahead of the workers' ledgers, and those are ahead of the queue. */
  ghost predicate Ahead(commands: seq<Command>, wallet: string) {
    PostedToWallet(commands, wallet) >= PostedToShares(commands, wallet) >= SeqWeight(wallet, Pushed(commands))
  }

  ghost predicate Level(commands: seq<Command>, wallet: string) {
    PostedToWallet(commands, wallet) == PostedToShares(commands, wallet) == SeqWeight(wallet, Pushed(commands))
  }

  lemma {:induction false} TaggedWeight(wallet: string, worker: string, pending: seq<(nat, nat)>)
    ensures SeqWeight(wallet, Tagged(worker, pending)) == if WalletOf(worker) == wallet then PendingSum(pending) else 0
  {
    if pending != [] {
      var n := |pending| - 1;
      TaggedWeight(wallet, worker, pending[..n]);
      assert Tagged(worker, pending)[..n] == Tagged(worker, pending[..n]);
    }
  }

  lemma {:induction false} TaggedPrefixWeight(wallet: string, shares: seq<Share>, n: nat)
    requires n <= |shares|
    ensures SeqWeight(wallet, shares[..n]) <= SeqWeight(wallet, shares)
  {
    SeqWeightConcat(wallet, shares[..n], shares[n..]);
    assert shares[..n] + shares[n..] == shares;
  }

  lemma SingleCommand(c: Command, wallet: string)
    ensures PostedToWallet([c], wallet) == ToWallet(c, wallet)
    ensures PostedToShares([c], wallet) == ToShares(c, wallet)
    ensures Pushed([c]) == ToQueue(c)
  {
    assert [c][..0] == [];
  }

  /** The three commands before the pushes, cut after the first n of them. */
  lemma HeadsPost(worker: string, s: WorkerState, wallet: string, n: nat)
    requires n <= 3
    ensures var mine := if WalletOf(worker) == wallet then s.unflushed else 0;
            var cut := LedgerHeads(worker, s)[..n];
            && PostedToWallet(cut, wallet) == (if n > 0 then mine else 0)
            && PostedToShares(cut, wallet) == (if n > 2 then mine else 0)
            && Pushed(cut) == []
  {
    var heads := LedgerHeads(worker, s);
    OneMorePosts([], heads[0], wallet);
    OneMorePosts([heads[0]], heads[1], wallet);
    OneMorePosts([heads[0], heads[1]], heads[2], wallet);
    FirstThree(heads, n);
  }

  lemma HeadsAndPushes(worker: string, s: WorkerState, wallet: string, some: seq<Share>)
    ensures var mine := if WalletOf(worker) == wallet then s.unflushed else 0;
            var cut := LedgerHeads(worker, s) + Pushes(some);
            PostedToWallet(cut, wallet) == PostedToShares(cut, wallet) == mine && Pushed(cut) == some
  {
    var heads := LedgerHeads(worker, s);
    HeadsPost(worker, s, wallet, 3);
    assert heads[..3] == heads;
    PostedConcat(heads, Pushes(some), wallet);
    PushedConcat(heads, Pushes(some));
    PushedOfPushes(some);
  }

  /** A worker's ledger commands, cut after the first n of them. */
  lemma LedgerCommandsCut(worker: string, s: WorkerState, wallet: string, n: nat)
    requires n <= |LedgerCommands(worker, s)| && s.unflushed == PendingSum(s.pending)
    ensures Ahead(LedgerCommands(worker, s)[..n], wallet)
    ensures n == |LedgerCommands(worker, s)| ==> Level(LedgerCommands(worker, s)[..n], wallet)
  {
    var cut := LedgerCommands(worker, s)[..n];
    if n < 3 {
      assert cut == LedgerHeads(worker, s)[..n];
      HeadsPost(worker, s, wallet, n);
    } else {
      var shares := Tagged(worker, s.pending);
      assert cut == LedgerHeads(worker, s) + Pushes(shares[..n - 3]);
      HeadsAndPushes(worker, s, wallet, shares[..n - 3]);
      TaggedPrefixWeight(wallet, shares, n - 3);
      TaggedWeight(wallet, worker, s.pending);
      assert n == |LedgerCommands(worker, s)| ==> shares[..n - 3] == shares;
    }
  }

  lemma SumsConcat(a: seq<Command>, b: seq<Command>, wallet: string)
    requires Ahead(a, wallet) && Ahead(b, wallet)
    ensures Ahead(a + b, wallet)
    ensures Level(a, wallet) && Level(b, wallet) ==> Level(a + b, wallet)
  {
    PostedConcat(a, b, wallet);
    PushedConcat(a, b);
    SeqWeightConcat(wallet, Pushed(a), Pushed(b));
  }

  lemma NoLedgerCommands(c: Command, wallet: string)
    requires c.SetHashrate? || c.SRem?
    ensures Level([c], wallet)
  {
    SingleCommand(c, wallet);
  }

  /** One worker's commands in a flush, cut after the first n of them. */
  lemma WorkerCommandsCut(decay: Decay, worker: string, s: WorkerState, now: nat, wallet: string, n: nat)
    requires n <= |WorkerCommands(decay, worker, s, now)| && s.unflushed == PendingSum(s.pending)
    ensures Ahead(WorkerCommands(decay, worker, s, now)[..n], wallet)
    ensures n == |WorkerCommands(decay, worker, s, now)| ==> Level(WorkerCommands(decay, worker, s, now)[..n], wallet)
  {
    var all := WorkerCommands(decay, worker, s, now);
    if n == 0 {
      assert all[..n] == [];
    } else {
      NoLedgerCommands(all[0], wallet);
      if Online(decay, s, now) {
        var ledger := if s.unflushed > 0 then LedgerCommands(worker, s) else [];
        assert all[..n] == [all[0]] + ledger[..n - 1];
        if s.unflushed > 0 {
          LedgerCommandsCut(worker, s, wallet, n - 1);
          SumsConcat([all[0]], ledger[..n - 1], wallet);
        } else {
          assert all[..n] == [all[0]];
        }
      } else if n == 1 {
        assert all[..n] == [all[0]];
      } else {
        NoLedgerCommands(all[1], wallet);
        assert all[..n] == [all[0]] + [all[1]];
        SumsConcat([all[0]], [all[1]], wallet);
      }
    }
  }

  // ---------------------------------------------------------------- cuts of a pipeline

  /** The first m ledger commands of a worker write some but not all of its difficulty. */
  predicate Torn(s: WorkerState, m: nat) {
    0 < m && (m < 3 || (m - 3 < |s.pending| && PendingSum(s.pending[..m - 3]) < s.unflushed))
  }

  /** The same of its commands in a flush, which start with its hashrate. */
  predicate TornWorker(decay: Decay, worker: string, s: WorkerState, now: nat, wallet: string, m: nat) {
    WalletOf(worker) == wallet && Online(decay, s, now) && s.unflushed > 0 && m > 0 && Torn(s, m - 1)
  }

  /** A cut of a flush after n commands tears a worker of the wallet. */
  predicate TornAt(decay: Decay, workers: Workers, order: seq<string>, now: nat, wallet: string, n: nat)
    requires forall w :: w in order ==> w in workers
  {
    order != [] &&
    var w, before := order[|order| - 1], |Pipeline(decay, workers, order[..|order| - 1], now)|;
    if n <= before then TornAt(decay, workers, order[..|order| - 1], now, wallet, n)
    else TornWorker(decay, w, workers[w], now, wallet, n - before)
  }

  /** A cut after n commands: the whole commands of i workers, and the first m of the next one's. */
  ghost predicate IsCut(decay: Decay, workers: Workers, order: seq<string>, now: nat, n: nat, i: nat, m: nat)
    requires (forall w :: w in order ==> w in workers) && n <= |Pipeline(decay, workers, order, now)|
  {
    && i < |order| && m <= |WorkerCommands(decay, order[i], workers[order[i]], now)|
    && Pipeline(decay, workers, order, now)[..n] ==
       Pipeline(decay, workers, order[..i], now) + WorkerCommands(decay, order[i], workers[order[i]], now)[..m]
    && (n == |Pipeline(decay, workers, order, now)| ==> m == |WorkerCommands(decay, order[i], workers[order[i]], now)|)
  }

  lemma {:induction false} CutAt(decay: Decay, workers: Workers, order: seq<string>, now: nat, wallet: string, n: nat)
    returns (i: nat, m: nat)
    requires order != [] && (forall w :: w in order ==> w in workers) && n <= |Pipeline(decay, workers, order, now)|
    ensures IsCut(decay, workers, order, now, n, i, m)
    ensures TornAt(decay, workers, order, now, wallet, n) <==>
              TornWorker(decay, order[i], workers[order[i]], now, wallet, m)
  {
    var last := |order| - 1;
    var w, others := order[last], order[..last];
    var before, own := Pipeline(decay, workers, others, now), WorkerCommands(decay, w, workers[w], now);
    CutSplits(before, own, n);
    if n > |before| {
      i, m := last, n - |before|;
    } else if others == [] {
      i, m := last, 0;
      assert before[..n] == before + own[..0];
    } else {
      i, m := CutAt(decay, workers, others, now, wallet, n);
      assert others[i] == order[i] && others[..i] == order[..i];
    }
  }

  /** A cut behind all but the last worker. */
  lemma LastWorkerCut(decay: Decay, before: seq<Command>, w: string, s: WorkerState, now: nat, wallet: string, n: nat)
    requires Ahead(before, wallet) && Level(before, wallet) && s.unflushed == PendingSum(s.pending)
    requires n <= |WorkerCommands(decay, w, s, now)|
    ensures var cut := before + WorkerCommands(decay, w, s, now)[..n];
            Ahead(cut, wallet) && (n == |WorkerCommands(decay, w, s, now)| ==> Level(cut, wallet))
  {
    WorkerCommandsCut(decay, w, s, now, wallet, n);
    SumsConcat(before, WorkerCommands(decay, w, s, now)[..n], wallet);
  }

  lemma {:induction false} WholeFlushLevel(decay: Decay, workers: Workers, order: seq<string>, now: nat, wallet: string)
    requires forall w :: w in order ==> w in workers
    requires UnflushedIsPending(workers)
    ensures Level(Pipeline(decay, workers, order, now), wallet)
  {
    if order != [] {
      var w, others := order[|order| - 1], order[..|order| - 1];
      WholeFlushLevel(decay, workers, others, now, wallet);
      WholeWorkerLevel(decay, w, workers[w], now, wallet);
      SumsConcat(Pipeline(decay, workers, others, now), WorkerCommands(decay, w, workers[w], now), wallet);
    }
  }

  lemma WholeWorkerLevel(decay: Decay, w: string, s: WorkerState, now: nat, wallet: string)
    requires s.unflushed == PendingSum(s.pending)
    ensures Level(WorkerCommands(decay, w, s, now), wallet)
  {
    var all := WorkerCommands(decay, w, s, now);
    WorkerCommandsCut(decay, w, s, now, wallet, |all|);
    assert all[..|all|] == all;
  }

  /** Wherever a flush is cut short, no worker's ledger is ahead of its wallet's and no event is in
      the queue that the workers' ledgers lack; and a whole flush leaves the three level. */
  lemma PipelineCut(decay: Decay, workers: Workers, order: seq<string>, now: nat, wallet: string, n: nat)
    requires forall w :: w in order ==> w in workers
    requires UnflushedIsPending(workers)
    requires n <= |Pipeline(decay, workers, order, now)|
    ensures Ahead(Pipeline(decay, workers, order, now)[..n], wallet)
    ensures n == |Pipeline(decay, workers, order, now)| ==> Level(Pipeline(decay, workers, order, now)[..n], wallet)
  {
    if order == [] {
      assert Pipeline(decay, workers, order, now)[..n] == [];
    } else {
      var i, m := CutAt(decay, workers, order, now, wallet, n);
      WholeFlushLevel(decay, workers, order[..i], now, wallet);
      LastWorkerCut(decay, Pipeline(decay, workers, order[..i], now), order[i], workers[order[i]], now, wallet, m);
    }
  }

  // ---------------------------------------------------------------- when a cut leaves them level

  /** With no empty shares, those are the cuts strictly inside. */
  lemma TornIsInside(worker: string, s: WorkerState, m: nat)
    requires m <= |LedgerCommands(worker, s)| && s.unflushed == PendingSum(s.pending)
    requires forall i :: 0 <= i < |s.pending| ==> s.pending[i].0 > 0
    ensures Torn(s, m) <==> 0 < m < |LedgerCommands(worker, s)|
  {
    if 3 <= m < |LedgerCommands(worker, s)| {
      PrefixSum(s.pending, m - 3);
    }
  }

  lemma {:induction false} PrefixSum(pending: seq<(nat, nat)>, n: nat)
    requires n < |pending| && forall i :: 0 <= i < |pending| ==> pending[i].0 > 0
    ensures PendingSum(pending[..n]) < PendingSum(pending)
  {
    var last := |pending| - 1;
    if n < last {
      PrefixSum(pending[..last], n);
      assert pending[..last][..n] == pending[..n];
    }
  }

  lemma LevelConcat(a: seq<Command>, b: seq<Command>, wallet: string)
    requires Level(a, wallet)
    ensures Level(a + b, wallet) <==> Level(b, wallet)
  {
    PostedConcat(a, b, wallet);
    PushedConcat(a, b);
    SeqWeightConcat(wallet, Pushed(a), Pushed(b));
  }

  lemma HeadsLevel(worker: string, s: WorkerState, wallet: string, m: nat)
    requires m < 3 && s.unflushed > 0
    ensures Level(LedgerHeads(worker, s)[..m], wallet) <==> WalletOf(worker) != wallet || m == 0
  {
    HeadsPost(worker, s, wallet, m);
  }

  lemma PushesLevel(worker: string, s: WorkerState, wallet: string, k: nat)
    requires k <= |s.pending| && s.unflushed == PendingSum(s.pending)
    ensures PendingSum(s.pending[..k]) <= s.unflushed
    ensures Level(LedgerHeads(worker, s) + Pushes(Tagged(worker, s.pending[..k])), wallet) <==>
              WalletOf(worker) != wallet || PendingSum(s.pending[..k]) == s.unflushed
  {
    HeadsAndPushes(worker, s, wallet, Tagged(worker, s.pending[..k]));
    TaggedWeight(wallet, worker, s.pending[..k]);
    PrefixAtMost(s.pending, k);
  }

  lemma {:induction false} PrefixAtMost(pending: seq<(nat, nat)>, k: nat)
    requires k <= |pending|
    ensures PendingSum(pending[..k]) <= PendingSum(pending)
  {
    var last := |pending| - 1;
    if k <= last {
      PrefixAtMost(pending[..last], k);
      assert pending[..last][..k] == pending[..k];
    } else {
      assert pending[..k] == pending;
    }
  }

  lemma LedgerCommandsLevel(worker: string, s: WorkerState, wallet: string, m: nat)
    requires m <= |LedgerCommands(worker, s)| && s.unflushed == PendingSum(s.pending) && s.unflushed > 0
    ensures Level(LedgerCommands(worker, s)[..m], wallet) <==> WalletOf(worker) != wallet || !Torn(s, m)
  {
    var cut := LedgerCommands(worker, s)[..m];
    if m < 3 {
      HeadsLevel(worker, s, wallet, m);
      assert cut == LedgerHeads(worker, s)[..m];
    } else {
      PushesLevel(worker, s, wallet, m - 3);
      assert Pushes(Tagged(worker, s.pending))[..m - 3] == Pushes(Tagged(worker, s.pending[..m - 3]));
      assert cut == LedgerHeads(worker, s) + Pushes(Tagged(worker, s.pending))[..m - 3];
      assert m - 3 == |s.pending| ==> s.pending[..m - 3] == s.pending;
    }
  }

  lemma WorkerCommandsLevel(decay: Decay, worker: string, s: WorkerState, now: nat, wallet: string, m: nat)
    requires m <= |WorkerCommands(decay, worker, s, now)| && s.unflushed == PendingSum(s.pending)
    ensures Level(WorkerCommands(decay, worker, s, now)[..m], wallet) <==> !TornWorker(decay, worker, s, now, wallet, m)
  {
    var all := WorkerCommands(decay, worker, s, now);
    NoLedgerCommands(all[0], wallet);
    if m == 0 {
      assert all[..m] == [];
    } else if Online(decay, s, now) && s.unflushed > 0 {
      assert all[..m] == [all[0]] + LedgerCommands(worker, s)[..m - 1];
      LevelConcat([all[0]], LedgerCommands(worker, s)[..m - 1], wallet);
      LedgerCommandsLevel(worker, s, wallet, m - 1);
    } else if m == 1 {
      assert all[..m] == [all[0]];
    } else {
      NoLedgerCommands(all[1], wallet);
      assert all[..m] == [all[0]] + [all[1]];
      LevelConcat([all[0]], [all[1]], wallet);
    }
  }

  /** Exactly which cuts leave the three level: all but those that tear one of the wallet's workers. */
  lemma LevelUnlessTorn(decay: Decay, workers: Workers, order: seq<string>, now: nat, wallet: string, n: nat)
    requires forall w :: w in order ==> w in workers
    requires UnflushedIsPending(workers)
    requires n <= |Pipeline(decay, workers, order, now)|
    ensures Level(Pipeline(decay, workers, order, now)[..n], wallet) <==> !TornAt(decay, workers, order, now, wallet, n)
  {
    if order == [] {
      assert Pipeline(decay, workers, order, now)[..n] == [];
    } else {
      var i, m := CutAt(decay, workers, order, now, wallet, n);
      var before, w := Pipeline(decay, workers, order[..i], now), order[i];
      WholeFlushLevel(decay, workers, order[..i], now, wallet);
      LevelConcat(before, WorkerCommands(decay, w, workers[w], now)[..m], wallet);
      WorkerCommandsLevel(decay, w, workers[w], now, wallet, m);
    }
  }
}
