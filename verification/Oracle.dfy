/** The oracle: takes batches off the event queue and settles each one in a database transaction that
    credits the wallets' reservoirs and stamps the tax ledger. */
module Oracle {
  import opened Options
  import opened Shares

  const KAS_PER_DIFFICULTY: real := 0.000005
  const DEFAULT_PRICE: real := 0.16

  /** LRANGE 0 500 is inclusive. */
  const BATCH_LIMIT: nat := 501

  datatype Reservoir = Reservoir(streaming: real, total: real)

  type Reservoirs = map<string, Reservoir>

  datatype TaxRow = TaxRow(wallet: string, ticker: string, eventType: string, gross: real, amount: real, price: real)

  datatype Database = Database(reservoirs: Reservoirs, ledger: seq<TaxRow>)

  /** How a commit ends: an error may come back although the commit took effect. */
  datatype Commit = Acknowledged | Refused | Unacknowledged

  /** Which calls of a transaction the database lets succeed. */
  datatype Attempt = Attempt(begins: bool, upserts: bool, inserts: bool, commit: Commit)

  // ---------------------------------------------------------------- one event at a time

  function Credit(t: Reservoirs, wallet: string, delta: real): Reservoirs {
    t[wallet := if wallet in t then Reservoir(t[wallet].streaming + delta, t[wallet].total + delta)
                else Reservoir(delta, delta)]
  }

  function KasOf(x: Share): real {
    x.difficulty as real * KAS_PER_DIFFICULTY
  }

  /** Crediting the events of a batch one by one; events without a worker name are skipped. */
  function CreditEach(t: Reservoirs, batch: seq<Share>): Reservoirs {
    if batch == [] then t
    else
      var last := batch[|batch| - 1];
      var before := CreditEach(t, batch[..|batch| - 1]);
      if last.worker == "" then before else Credit(before, WalletOf(last.worker), KasOf(last))
  }

  // ---------------------------------------------------------------- as the oracle does it

  function Amount(m: map<string, real>, wallet: string): real {
    if wallet in m then m[wallet] else 0.0
  }

  function Aggregate(batch: seq<Share>): map<string, real> {
    if batch == [] then map[]
    else
      var last := batch[|batch| - 1];
      var before := Aggregate(batch[..|batch| - 1]);
      if last.worker == "" then before
      else before[WalletOf(last.worker) := Amount(before, WalletOf(last.worker)) + KasOf(last)]
  }

  /** The keys of an aggregate, each once, in the order they are bound to the statement. */
  ghost predicate Enumerates(wallets: seq<string>, m: map<string, real>) {
    && (forall i, j :: 0 <= i < j < |wallets| ==> wallets[i] != wallets[j])
    && (forall w :: w in wallets <==> w in m)
  }

  function Deltas(wallets: seq<string>, m: map<string, real>): (ds: seq<real>)
    ensures |ds| == |wallets|
  {
    seq(|wallets|, i requires 0 <= i < |wallets| => Amount(m, wallets[i]))
  }

  /** The position of a wallet among the bound wallets, or their number. */
  function Position(wallets: seq<string>, w: string): (i: nat)
    ensures i <= |wallets|
    ensures i < |wallets| ==> wallets[i] == w
    ensures i == |wallets| <==> w !in wallets
  {
    if wallets == [] then 0
    else if wallets[0] == w then 0
    else Position(wallets[1..], w) + 1
  }

  /** INSERT ... ON CONFLICT DO UPDATE of several rows: every row sees the table as it was, and the
      statement fails when two of them are the same row. */
  function Upsert(t: Reservoirs, wallets: seq<string>, deltas: seq<real>): Option<Reservoirs>
    requires |wallets| == |deltas|
  {
    if exists i, j :: 0 <= i < j < |wallets| && wallets[i] == wallets[j] then None
    else
      Some(map w | w in t.Keys + (set i | 0 <= i < |wallets| :: wallets[i]) ::
             var i := Position(wallets, w);
             if i == |wallets| then t[w]
             else if w in t then Reservoir(t[w].streaming + deltas[i], t[w].total + deltas[i])
             else Reservoir(deltas[i], deltas[i]))
  }

  function TaxRowOf(wallet: string, delta: real, price: real): TaxRow {
    TaxRow(wallet, "KAS", "YIELD", delta * price, delta, price)
  }

  function TaxRows(wallets: seq<string>, deltas: seq<real>, price: real): seq<TaxRow>
    requires |wallets| == |deltas|
  {
    seq(|wallets|, i requires 0 <= i < |wallets| => TaxRowOf(wallets[i], deltas[i], price))
  }

  /** INSERT into the tax ledger: the foreign key rejects a wallet without a reservoir. */
  function InsertTax(db: Database, rows: seq<TaxRow>): Option<Database> {
    if exists i :: 0 <= i < |rows| && rows[i].wallet !in db.reservoirs then None
    else Some(db.(ledger := db.ledger + rows))
  }

  /** The transaction's database if it commits; nothing if some call fails or there is nothing to do. */
  function Transaction(db: Database, batch: seq<Share>, wallets: seq<string>, a: Attempt, price: Option<real>): Option<Database> {
    var deltas := Deltas(wallets, Aggregate(batch));
    if Aggregate(batch) == map[] || !a.begins || !a.upserts then None
    else
      match Upsert(db.reservoirs, wallets, deltas)
      case None => None
      case Some(t) =>
        if a.inserts then InsertTax(db.(reservoirs := t), TaxRows(wallets, deltas, price.GetOr(DEFAULT_PRICE))) else None
  }

  function Settle(db: Database, batch: seq<Share>, wallets: seq<string>, a: Attempt, price: Option<real>): Database {
    if a.commit.Refused? then db else Transaction(db, batch, wallets, a, price).GetOr(db)
  }

  /** Whether a batch reaches the database; a caller can tell from the batch and the calls' results. */
  predicate Applies(batch: seq<Share>, a: Attempt) {
    a.begins && a.upserts && a.inserts && !a.commit.Refused? && exists i :: 0 <= i < |batch| && batch[i].worker != ""
  }

  /** Every call of a transaction goes through, though its commit may go unacknowledged. */
  predicate Succeeds(a: Attempt) {
    a.begins && a.upserts && a.inserts && !a.commit.Refused?
  }

  class OracleDaemon {
    var reservoirs: Reservoirs
    var ledger: seq<TaxRow>

    ghost function View(): Database
      reads this
    {
      Database(reservoirs, ledger)
    }

    constructor (reservoirs: Reservoirs, ledger: seq<TaxRow>)
      ensures View() == Database(reservoirs, ledger)
    {
      this.reservoirs, this.ledger := reservoirs, ledger;
    }

    /** Sums a batch per wallet. */
    method AggregateBatch(batch: seq<Share>) returns (aggregates: map<string, real>)
      ensures aggregates == Aggregate(batch)
    {
      aggregates := map[];
      for i := 0 to |batch|
        invariant aggregates == Aggregate(batch[..i])
      {
        assert batch[..i + 1][..i] == batch[..i];
        var worker := batch[i].worker;
        if worker != "" {
          var wallet := WalletOf(worker);
          aggregates := aggregates[wallet := Amount(aggregates, wallet) + KasOf(batch[i])];
        }
      }
      assert batch[..|batch|] == batch;
    }

    /** Turns the aggregate into parallel arrays, in some order. */
    method BindArrays(aggregates: map<string, real>) returns (wallets: seq<string>, deltas: seq<real>)
      ensures Enumerates(wallets, aggregates) && deltas == Deltas(wallets, aggregates)
    {
      wallets, deltas := [], [];
      var unseen := aggregates.Keys;
      while unseen != {}
        invariant unseen <= aggregates.Keys
        invariant forall i, j :: 0 <= i < j < |wallets| ==> wallets[i] != wallets[j]
        invariant forall w :: w in wallets <==> w in aggregates && w !in unseen
        invariant deltas == Deltas(wallets, aggregates)
        decreases |unseen|
      {
        var w :| w in unseen;
        unseen := unseen - {w};
        wallets := wallets + [w];
        deltas := deltas + [aggregates[w]];
      }
    }

    /** Builds the tax rows at one price. */
    method StampRows(wallets: seq<string>, deltas: seq<real>, spotPrice: real) returns (rows: seq<TaxRow>)
      requires |wallets| == |deltas|
      ensures rows == TaxRows(wallets, deltas, spotPrice)
    {
      rows := [];
      for i := 0 to |deltas|
        invariant |rows| == i
        invariant forall k :: 0 <= k < i ==> rows[k] == TaxRowOf(wallets[k], deltas[k], spotPrice)
      {
        rows := rows + [TaxRowOf(wallets[i], deltas[i], spotPrice)];
      }
    }

    /** Settles one batch in a transaction. */
    method ProcessBatch(batch: seq<Share>, attempt: Attempt, price: Option<real>) returns (wallets: seq<string>)
      modifies this
      ensures Enumerates(wallets, Aggregate(batch))
      ensures View() == Settle(old(View()), batch, wallets, attempt, price)
    {
      var aggregates := AggregateBatch(batch);
      var deltas;
      wallets, deltas := BindArrays(aggregates);
      if aggregates == map[] || !attempt.begins {
        return;
      }
      var commitSuccess := true;
      var working := Database(reservoirs, ledger);

      var upserted := if attempt.upserts then Upsert(working.reservoirs, wallets, deltas) else None;
      if upserted.None? {
        commitSuccess := false;
      } else {
        working := working.(reservoirs := upserted.value);
      }

      if commitSuccess && |wallets| != 0 {
        var spotPrice := price.GetOr(DEFAULT_PRICE);
        var rows := StampRows(wallets, deltas, spotPrice);
        var inserted := if attempt.inserts then InsertTax(working, rows) else None;
        if inserted.None? {
          commitSuccess := false;
        } else {
          working := inserted.value;
        }
      }

      if commitSuccess && !attempt.commit.Refused? {
        reservoirs, ledger := working.reservoirs, working.ledger;
      }
    }
  }
}
