/** What settling batches does to the balances and the tax ledger. */
module Settlement {
  import opened Sequences
  import opened Options
  import opened Shares
  import opened Oracle

  /** Crediting events one by one adds to each wallet's reservoir what the batch's aggregate holds. */
  lemma {:induction false} CreditEachAdds(t: Reservoirs, batch: seq<Share>, w: string)
    ensures var u, m := CreditEach(t, batch), Aggregate(batch);
            && (w in u <==> w in t || w in m)
            && (w in u && w !in m ==> u[w] == t[w])
            && (w in m && w in t ==> u[w] == Reservoir(t[w].streaming + m[w], t[w].total + m[w]))
            && (w in m && w !in t ==> u[w] == Reservoir(m[w], m[w]))
  {
    if batch != [] {
      CreditEachAdds(t, batch[..|batch| - 1], w);
    }
  }

  lemma {:induction false} AggregateEmptyIff(batch: seq<Share>)
    ensures Aggregate(batch) == map[] <==> forall i :: 0 <= i < |batch| ==> batch[i].worker == ""
  {
    if batch != [] {
      var n := |batch| - 1;
      AggregateEmptyIff(batch[..n]);
      if batch[n].worker != "" {
        assert WalletOf(batch[n].worker) in Aggregate(batch);
      } else {
        assert forall i :: 0 <= i < n ==> batch[..n][i] == batch[i];
      }
    }
  }

  /** Distinct keys are at the positions they are looked up at. */
  lemma NoRowTwice(wallets: seq<string>, m: map<string, real>, t: Reservoirs)
    requires Enumerates(wallets, m)
    ensures Upsert(t, wallets, Deltas(wallets, m)).Some?
  {
  }

  lemma UpsertAt(t: Reservoirs, wallets: seq<string>, m: map<string, real>, w: string)
    requires Enumerates(wallets, m)
    ensures var r := Upsert(t, wallets, Deltas(wallets, m));
            && r.Some?
            && (w in r.value <==> w in t || w in m)
            && (w in r.value && w !in m ==> r.value[w] == t[w])
            && (w in m && w in t ==> r.value[w] == Reservoir(t[w].streaming + m[w], t[w].total + m[w]))
            && (w in m && w !in t ==> r.value[w] == Reservoir(m[w], m[w]))
  {
    NoRowTwice(wallets, m, t);
    var i := Position(wallets, w);
    assert w in wallets <==> w in m;
    if i < |wallets| {
      assert Deltas(wallets, m)[i] == m[w];
    }
  }

  /** The bulk upsert of a batch's aggregate, in any order, is the same as crediting its events one
      by one; and it never hits a row twice. */
  lemma UpsertIsCreditEach(t: Reservoirs, batch: seq<Share>, wallets: seq<string>)
    requires Enumerates(wallets, Aggregate(batch))
    ensures Upsert(t, wallets, Deltas(wallets, Aggregate(batch))) == Some(CreditEach(t, batch))
  {
    var m := Aggregate(batch);
    NoRowTwice(wallets, m, t);
    var upserted := Upsert(t, wallets, Deltas(wallets, m)).value;
    var credited := CreditEach(t, batch);
    forall w ensures (w in upserted <==> w in credited) && (w in credited ==> upserted[w] == credited[w]) {
      CreditEachAdds(t, batch, w);
      UpsertAt(t, wallets, m, w);
    }
    assert upserted == credited;
  }

  /** The exact outcome of a settlement: a batch with a named worker whose calls all succeed is
      credited event by event and stamped with one row per wallet; anything else changes nothing.
      The tax ledger's foreign key never stands in the way. */
  lemma SettleOutcome(db: Database, batch: seq<Share>, wallets: seq<string>, a: Attempt, price: Option<real>)
    requires Enumerates(wallets, Aggregate(batch))
    ensures Settle(db, batch, wallets, a, price) ==
            if Applies(batch, a)
            then Database(CreditEach(db.reservoirs, batch),
                          db.ledger + TaxRows(wallets, Deltas(wallets, Aggregate(batch)), price.GetOr(DEFAULT_PRICE)))
            else db
  {
    var deltas := Deltas(wallets, Aggregate(batch));
    var rows := TaxRows(wallets, deltas, price.GetOr(DEFAULT_PRICE));
    AggregateEmptyIff(batch);
    UpsertIsCreditEach(db.reservoirs, batch, wallets);
    forall i | 0 <= i < |rows| ensures rows[i].wallet in CreditEach(db.reservoirs, batch) {
      assert wallets[i] in wallets;
      CreditEachAdds(db.reservoirs, batch, wallets[i]);
    }
  }

  // ---------------------------------------------------------------- what the schema refuses

  /** A statement that would hit a row twice fails as a whole. */
  lemma RowHitTwice(t: Reservoirs, wallets: seq<string>, deltas: seq<real>, i: nat, j: nat)
    requires |wallets| == |deltas| && i < j < |wallets| && wallets[i] == wallets[j]
    ensures Upsert(t, wallets, deltas).None?
  {
  }

  ghost predicate References(db: Database) {
    forall i :: 0 <= i < |db.ledger| ==> db.ledger[i].wallet in db.reservoirs
  }

  /** Whatever rows are inserted, no tax row is without a reservoir; and rows that have theirs go in. */
  lemma ForeignKeyHolds(db: Database, rows: seq<TaxRow>)
    requires References(db)
    ensures InsertTax(db, rows).Some? ==>
              References(InsertTax(db, rows).value) && InsertTax(db, rows).value.ledger == db.ledger + rows
    ensures InsertTax(db, rows).None? ==> !References(db.(ledger := db.ledger + rows))
  {
    if InsertTax(db, rows).None? {
      var i :| 0 <= i < |rows| && rows[i].wallet !in db.reservoirs;
      assert (db.ledger + rows)[|db.ledger| + i] == rows[i];
    }
  }

  // ---------------------------------------------------------------- balances and tax rows

  /** The tokens stamped for a wallet. */
  function Stamped(ledger: seq<TaxRow>, w: string): real {
    if ledger == [] then 0.0
    else Stamped(ledger[..|ledger| - 1], w) + (if ledger[|ledger| - 1].wallet == w then ledger[|ledger| - 1].amount else 0.0)
  }

  lemma {:induction false} StampedConcat(a: seq<TaxRow>, b: seq<TaxRow>, w: string)
    ensures Stamped(a + b, w) == Stamped(a, w) + Stamped(b, w)
  {
    if b == [] {
      assert a + b == a;
    } else {
      var n := |b| - 1;
      StampedConcat(a, b[..n], w);
      ConcatLast(a, b);
    }
  }

  /** Rows for distinct wallets stamp each of them with its own delta. */
  lemma {:induction false} StampedOnce(wallets: seq<string>, deltas: seq<real>, price: real, w: string)
    requires |wallets| == |deltas| && forall i, j :: 0 <= i < j < |wallets| ==> wallets[i] != wallets[j]
    ensures w !in wallets ==> Stamped(TaxRows(wallets, deltas, price), w) == 0.0
    ensures forall i :: 0 <= i < |wallets| && wallets[i] == w ==> Stamped(TaxRows(wallets, deltas, price), w) == deltas[i]
  {
    if wallets != [] {
      var n := |wallets| - 1;
      StampedOnce(wallets[..n], deltas[..n], price, w);
      assert TaxRows(wallets, deltas, price)[..n] == TaxRows(wallets[..n], deltas[..n], price);
      assert w in wallets[..n] ==> exists i :: 0 <= i < n && wallets[i] == w;
    }
  }

  lemma {:induction false} NoRowNoStamp(ledger: seq<TaxRow>, w: string)
    requires forall i :: 0 <= i < |ledger| ==> ledger[i].wallet != w
    ensures Stamped(ledger, w) == 0.0
  {
    if ledger != [] {
      NoRowNoStamp(ledger[..|ledger| - 1], w);
    }
  }

  /** Balances and tax ledger agree: each wallet's lifetime yield is its streaming balance and the
      sum of its stamped amounts; every row belongs to a wallet with a reservoir and its gross is
      the amount at the stamped price. */
  ghost predicate Consistent(db: Database) {
    && (forall w :: w in db.reservoirs ==> Balanced(db.reservoirs[w], db.ledger, w))
    && (forall i :: 0 <= i < |db.ledger| ==> RowStands(db.ledger[i], db.reservoirs))
  }

  ghost predicate Balanced(r: Reservoir, ledger: seq<TaxRow>, w: string) {
    r.total == r.streaming == Stamped(ledger, w)
  }

  ghost predicate RowStands(row: TaxRow, t: Reservoirs) {
    row.wallet in t && row.gross == row.amount * row.price
  }

  lemma BalanceAfter(db: Database, batch: seq<Share>, wallets: seq<string>, price: real, w: string)
    requires Consistent(db) && Enumerates(wallets, Aggregate(batch)) && w in CreditEach(db.reservoirs, batch)
    ensures Balanced(CreditEach(db.reservoirs, batch)[w],
                     db.ledger + TaxRows(wallets, Deltas(wallets, Aggregate(batch)), price), w)
  {
    var m := Aggregate(batch);
    var deltas := Deltas(wallets, m);
    CreditEachAdds(db.reservoirs, batch, w);
    assert w in db.reservoirs ==> Balanced(db.reservoirs[w], db.ledger, w);
    StampedConcat(db.ledger, TaxRows(wallets, deltas, price), w);
    StampedOnce(wallets, deltas, price, w);
    if w !in db.reservoirs {
      assert forall i :: 0 <= i < |db.ledger| ==> RowStands(db.ledger[i], db.reservoirs);
      NoRowNoStamp(db.ledger, w);
    }
    assert w in m <==> w in wallets;
    if w in m {
      var i := Position(wallets, w);
      assert deltas[i] == m[w];
    }
  }

  lemma RowsAfter(db: Database, batch: seq<Share>, wallets: seq<string>, price: real, i: nat)
    requires Consistent(db) && Enumerates(wallets, Aggregate(batch))
    requires i < |db.ledger + TaxRows(wallets, Deltas(wallets, Aggregate(batch)), price)|
    ensures RowStands((db.ledger + TaxRows(wallets, Deltas(wallets, Aggregate(batch)), price))[i],
                      CreditEach(db.reservoirs, batch))
  {
    var row := (db.ledger + TaxRows(wallets, Deltas(wallets, Aggregate(batch)), price))[i];
    CreditEachAdds(db.reservoirs, batch, row.wallet);
    if i < |db.ledger| {
      assert RowStands(db.ledger[i], db.reservoirs);
    } else {
      assert row.wallet == wallets[i - |db.ledger|] && wallets[i - |db.ledger|] in wallets;
    }
  }

  lemma AppliedKeepsConsistent(db: Database, batch: seq<Share>, wallets: seq<string>, price: real)
    requires Consistent(db) && Enumerates(wallets, Aggregate(batch))
    ensures Consistent(Database(CreditEach(db.reservoirs, batch),
                                db.ledger + TaxRows(wallets, Deltas(wallets, Aggregate(batch)), price)))
  {
    var u := CreditEach(db.reservoirs, batch);
    var ledger := db.ledger + TaxRows(wallets, Deltas(wallets, Aggregate(batch)), price);
    forall w | w in u ensures Balanced(u[w], ledger, w) {
      BalanceAfter(db, batch, wallets, price, w);
    }
    forall i | 0 <= i < |ledger| ensures RowStands(ledger[i], u) {
      RowsAfter(db, batch, wallets, price, i);
    }
  }

  /** Whatever calls fail, settling a batch keeps balances and tax ledger in agreement. */
  lemma SettleKeepsConsistent(db: Database, batch: seq<Share>, wallets: seq<string>, a: Attempt, price: Option<real>)
    requires Consistent(db) && Enumerates(wallets, Aggregate(batch))
    ensures Consistent(Settle(db, batch, wallets, a, price))
  {
    SettleOutcome(db, batch, wallets, a, price);
    AppliedKeepsConsistent(db, batch, wallets, price.GetOr(DEFAULT_PRICE));
  }

  // ---------------------------------------------------------------- yield and difficulty

  function YieldOf(t: Reservoirs, w: string): real {
    if w in t then t[w].total else 0.0
  }

  /** The events that are credited to somebody. */
  function Named(shares: seq<Share>): seq<Share> {
    if shares == [] then []
    else Named(shares[..|shares| - 1]) + (if shares[|shares| - 1].worker != "" then [shares[|shares| - 1]] else [])
  }

  /** Crediting a batch raises a wallet's yield by its difficulty at the fixed rate. */
  lemma {:induction false} YieldIsDifficulty(t: Reservoirs, batch: seq<Share>, w: string)
    ensures YieldOf(CreditEach(t, batch), w) ==
            YieldOf(t, w) + SeqWeight(w, Named(batch)) as real * KAS_PER_DIFFICULTY
  {
    if batch != [] {
      var n := |batch| - 1;
      YieldIsDifficulty(t, batch[..n], w);
      if batch[n].worker != "" {
        assert Named(batch)[..|Named(batch)| - 1] == Named(batch[..n]);
      } else {
        assert Named(batch) == Named(batch[..n]);
      }
    }
  }

  // ---------------------------------------------------------------- what a batch pays and stamps

  /** The difficulty of a batch's shares under names that are, or start with a dot after, the wallet. */
  function DifficultyFor(batch: seq<Share>, wallet: string): nat {
    if batch == [] then 0
    else
      var last := batch[|batch| - 1];
      DifficultyFor(batch[..|batch| - 1], wallet)
      + (if last.worker != "" && BelongsTo(last.worker, wallet) then last.difficulty else 0)
  }

  lemma NamedWeightLast(batch: seq<Share>, wallet: string)
    requires batch != []
    ensures var last := |batch| - 1;
            SeqWeight(wallet, Named(batch)) ==
            SeqWeight(wallet, Named(batch[..last])) + (if batch[last].worker != "" then Value(wallet, batch[last]) else 0)
  {
    var last := |batch| - 1;
    if batch[last].worker != "" {
      assert Named(batch)[..|Named(batch)| - 1] == Named(batch[..last]);
    } else {
      assert Named(batch) == Named(batch[..last]);
    }
  }

  lemma OwnValue(x: Share, wallet: string)
    requires '.' !in wallet
    ensures Value(wallet, x) == if BelongsTo(x.worker, wallet) then x.difficulty else 0
  {
    WalletIff(x.worker, wallet);
  }

  lemma {:induction false} WeightOfNamed(batch: seq<Share>, wallet: string)
    requires '.' !in wallet
    ensures SeqWeight(wallet, Named(batch)) == DifficultyFor(batch, wallet)
  {
    if batch != [] {
      WeightOfNamed(batch[..|batch| - 1], wallet);
      NamedWeightLast(batch, wallet);
      OwnValue(batch[|batch| - 1], wallet);
    }
  }

  /** A settlement that goes through pays each wallet 0.000005 for every unit of difficulty of its own
      workers; any other pays nothing. */
  lemma SettlePays(db: Database, batch: seq<Share>, wallets: seq<string>, a: Attempt, price: Option<real>, wallet: string)
    requires Enumerates(wallets, Aggregate(batch)) && '.' !in wallet
    ensures YieldOf(Settle(db, batch, wallets, a, price).reservoirs, wallet) ==
            YieldOf(db.reservoirs, wallet)
            + (if Applies(batch, a) then DifficultyFor(batch, wallet) as real * 0.000005 else 0.0)
  {
    SettleOutcome(db, batch, wallets, a, price);
    YieldIsDifficulty(db.reservoirs, batch, wallet);
    WeightOfNamed(batch, wallet);
  }

  lemma AmountIsDifficulty(batch: seq<Share>, wallet: string)
    requires '.' !in wallet
    ensures Amount(Aggregate(batch), wallet) == DifficultyFor(batch, wallet) as real * 0.000005
  {
    CreditEachAdds(map[], batch, wallet);
    YieldIsDifficulty(map[], batch, wallet);
    WeightOfNamed(batch, wallet);
  }

  lemma {:induction false} AggregatedWallets(batch: seq<Share>, wallet: string)
    requires wallet in Aggregate(batch)
    ensures '.' !in wallet
  {
    var last := |batch| - 1;
    if batch[last].worker != "" && WalletOf(batch[last].worker) == wallet {
      WalletHasNoDot(batch[last].worker);
    } else {
      AggregatedWallets(batch[..last], wallet);
    }
  }

  /** A yield of an amount of KAS to a wallet, stamped at a price. */
  predicate StampsYield(row: TaxRow, wallet: string, amount: real, price: real) {
    && row.wallet == wallet && row.amount == amount && row.price == price && row.gross == amount * price
    && row.ticker == "KAS" && row.eventType == "YIELD"
  }

  lemma RowFields(wallets: seq<string>, deltas: seq<real>, price: real, i: nat)
    requires |wallets| == |deltas| && i < |wallets|
    ensures StampsYield(TaxRows(wallets, deltas, price)[i], wallets[i], deltas[i], price)
  {
  }

  lemma RowStamped(batch: seq<Share>, wallets: seq<string>, price: real, i: nat)
    requires Enumerates(wallets, Aggregate(batch)) && i < |wallets|
    ensures StampsYield(TaxRows(wallets, Deltas(wallets, Aggregate(batch)), price)[i],
                        wallets[i], DifficultyFor(batch, wallets[i]) as real * 0.000005, price)
  {
    assert wallets[i] in wallets;
    AggregatedWallets(batch, wallets[i]);
    AmountIsDifficulty(batch, wallets[i]);
    RowFields(wallets, Deltas(wallets, Aggregate(batch)), price, i);
  }

  lemma Appended<T>(all: seq<T>, a: seq<T>, b: seq<T>, i: nat)
    requires all == a + b && i < |b|
    ensures |all| == |a| + |b| && a <= all && all[|a| + i] == b[i]
  {
  }

  /** What a settlement adds to the tax ledger: one row for each wallet paid, with the amount paid, at
      the price fetched, or 0.16 when there is none. */
  lemma StampedAtSpot(db: Database, batch: seq<Share>, wallets: seq<string>, a: Attempt, price: Option<real>, i: nat)
    requires Enumerates(wallets, Aggregate(batch)) && Applies(batch, a) && i < |wallets|
    ensures var ledger := Settle(db, batch, wallets, a, price).ledger;
            && |ledger| == |db.ledger| + |wallets| && db.ledger <= ledger
            && StampsYield(ledger[|db.ledger| + i], wallets[i], DifficultyFor(batch, wallets[i]) as real * 0.000005,
                           if price.Some? then price.value else 0.16)
  {
    var spot := price.GetOr(DEFAULT_PRICE);
    var rows := TaxRows(wallets, Deltas(wallets, Aggregate(batch)), spot);
    SettleOutcome(db, batch, wallets, a, price);
    RowStamped(batch, wallets, spot, i);
    Appended(Settle(db, batch, wallets, a, price).ledger, db.ledger, rows, i);
  }
}
