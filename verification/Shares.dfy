/** Accepted shares, the wallets they belong to, and how much difficulty a collection of them holds. */
module Shares {
  import opened Sequences

  datatype Share = Share(worker: string, difficulty: nat, time: nat)

  /** The part of a worker's name before its first dot. */
  function WalletOf(worker: string): string {
    if worker == "" || worker[0] == '.' then "" else [worker[0]] + WalletOf(worker[1..])
  }

  /** A worker belongs to the wallet that is its name, or that its name continues after a dot. */
  predicate BelongsTo(worker: string, wallet: string) {
    worker == wallet || wallet + "." <= worker
  }

  lemma {:induction false} WalletIff(worker: string, wallet: string)
    requires '.' !in wallet
    ensures WalletOf(worker) == wallet <==> BelongsTo(worker, wallet)
  {
    if worker != "" && worker[0] != '.' && wallet != "" {
      WalletIff(worker[1..], wallet[1..]);
      assert wallet == [wallet[0]] + wallet[1..] && worker == [worker[0]] + worker[1..];
      assert wallet + "." == [wallet[0]] + (wallet[1..] + ".");
    }
  }

  lemma {:induction false} WalletHasNoDot(worker: string)
    ensures '.' !in WalletOf(worker)
  {
    if worker != "" && worker[0] != '.' {
      WalletHasNoDot(worker[1..]);
    }
  }

  /** "w" and "w.rig" are workers of the wallet "w", whatever dots the rig's name has. */
  lemma RigsOfWallet(wallet: string, rig: string)
    requires '.' !in wallet
    ensures WalletOf(wallet) == wallet && WalletOf(wallet + "." + rig) == wallet
  {
    WalletIff(wallet, wallet);
    WalletIff(wallet + "." + rig, wallet);
  }

  /** The shares of one worker, in order. */
  function Only(worker: string, shares: seq<Share>): seq<Share> {
    if shares == [] then []
    else
      var last := shares[|shares| - 1];
      Only(worker, shares[..|shares| - 1]) + (if last.worker == worker then [last] else [])
  }

  lemma {:induction false} OnlyConcat(worker: string, a: seq<Share>, b: seq<Share>)
    ensures Only(worker, a + b) == Only(worker, a) + Only(worker, b)
  {
    if b == [] {
      assert a + b == a;
    } else {
      var n := |b| - 1;
      OnlyConcat(worker, a, b[..n]);
      ConcatLast(a, b);
    }
  }

  /** A share occurs among its own worker's shares as often as among all. */
  lemma {:induction false} OnlyCounts(shares: seq<Share>, x: Share)
    ensures multiset(Only(x.worker, shares))[x] == multiset(shares)[x]
  {
    if shares != [] {
      var n := |shares| - 1;
      OnlyCounts(shares[..n], x);
      assert shares == shares[..n] + [shares[n]];
    }
  }

  function Value(wallet: string, x: Share): nat {
    if WalletOf(x.worker) == wallet then x.difficulty else 0
  }

  /** The difficulty a collection of shares holds for a wallet. */
  ghost function Weight(wallet: string, m: multiset<Share>): nat
    decreases |m|
  {
    if m == multiset{} then 0
    else var x :| x in m; Value(wallet, x) + Weight(wallet, m - multiset{x})
  }

  lemma {:induction false} WeightAdd(wallet: string, m: multiset<Share>, x: Share)
    ensures Weight(wallet, m + multiset{x}) == Weight(wallet, m) + Value(wallet, x)
    decreases |m|
  {
    var n := m + multiset{x};
    var y :| y in n && Weight(wallet, n) == Value(wallet, y) + Weight(wallet, n - multiset{y});
    if y == x {
      assert n - multiset{y} == m;
    } else {
      assert n - multiset{y} == (m - multiset{y}) + multiset{x};
      WeightAdd(wallet, m - multiset{y}, x);
      assert m == (m - multiset{y}) + multiset{y};
      WeightAdd(wallet, m - multiset{y}, y);
    }
  }

  lemma {:induction false} WeightUnion(wallet: string, a: multiset<Share>, b: multiset<Share>)
    ensures Weight(wallet, a + b) == Weight(wallet, a) + Weight(wallet, b)
    decreases |b|
  {
    if b == multiset{} {
      assert a + b == a;
    } else {
      var x :| x in b;
      var c := b - multiset{x};
      WeightUnion(wallet, a, c);
      assert a + b == (a + c) + multiset{x};
      WeightAdd(wallet, a + c, x);
      assert b == c + multiset{x};
      WeightAdd(wallet, c, x);
    }
  }

  /** The difficulty of a sequence of shares for a wallet. */
  function SeqWeight(wallet: string, shares: seq<Share>): nat {
    if shares == [] then 0
    else SeqWeight(wallet, shares[..|shares| - 1]) + Value(wallet, shares[|shares| - 1])
  }

  lemma {:induction false} WeightOfSeq(wallet: string, shares: seq<Share>)
    ensures SeqWeight(wallet, shares) == Weight(wallet, multiset(shares))
  {
    if shares != [] {
      var n := |shares| - 1;
      WeightOfSeq(wallet, shares[..n]);
      assert shares == shares[..n] + [shares[n]];
      WeightAdd(wallet, multiset(shares[..n]), shares[n]);
    }
  }

  lemma {:induction false} SeqWeightConcat(wallet: string, a: seq<Share>, b: seq<Share>)
    ensures SeqWeight(wallet, a + b) == SeqWeight(wallet, a) + SeqWeight(wallet, b)
  {
    if b == [] {
      assert a + b == a;
    } else {
      var n := |b| - 1;
      SeqWeightConcat(wallet, a, b[..n]);
      ConcatLast(a, b);
    }
  }

  /** The sum, over the entries whose worker belongs to a wallet, of a per-worker amount. */
  ghost function Total(wallet: string, amounts: map<string, nat>): nat
    decreases |amounts|
  {
    if amounts == map[] then 0
    else
      var w :| w in amounts;
      (if WalletOf(w) == wallet then amounts[w] else 0) + Total(wallet, amounts - {w})
  }

  lemma {:induction false} TotalRemove(wallet: string, amounts: map<string, nat>, w: string)
    requires w in amounts
    ensures Total(wallet, amounts) == (if WalletOf(w) == wallet then amounts[w] else 0) + Total(wallet, amounts - {w})
    decreases |amounts|
  {
    var v :| v in amounts && Total(wallet, amounts) ==
        (if WalletOf(v) == wallet then amounts[v] else 0) + Total(wallet, amounts - {v});
    if v != w {
      TotalRemove(wallet, amounts - {v}, w);
      TotalRemove(wallet, amounts - {w}, v);
      assert amounts - {v} - {w} == amounts - {w} - {v};
    }
  }

  function Get(amounts: map<string, nat>, w: string): nat {
    if w in amounts then amounts[w] else 0
  }

  /** Raising one worker's amount raises its wallet's total by as much. */
  lemma TotalUpdate(wallet: string, amounts: map<string, nat>, w: string, n: nat)
    ensures Total(wallet, amounts[w := Get(amounts, w) + n]) ==
            Total(wallet, amounts) + (if WalletOf(w) == wallet then n else 0)
  {
    var updated := amounts[w := Get(amounts, w) + n];
    TotalRemove(wallet, updated, w);
    assert updated - {w} == amounts - {w};
    if w in amounts {
      TotalRemove(wallet, amounts, w);
    } else {
      assert amounts - {w} == amounts;
    }
  }
}
