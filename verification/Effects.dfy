/** How much calls move: at most once per key, by the rounded amount, and the total a user sees. */
module Effects {
  import opened Tables
  import opened Rows
  import opened Services
  import opened Invariants
  import opened Preservation
  import opened Serial
  import opened Runs
  import opened Idempotency
  import D = Decimals

  // ---------------------------------------------------------------- storage rounding of one reservation

  /** A BUY reserves price times quantity of the quote asset, a SELL the quantity of the base asset.  Locked
      balance, order and both entries carry the stored amount; the available balance falls by that amount, or by
      one unit less exactly when the exact amount lies on a half unit, which only a BUY can. */
  lemma ReservationAmounts(cfg: Config, db0: Db, db: Db, r: CreateRequest, d: Draw)
    requires Reached(cfg, db0, db) && Create(cfg, db, r, d).outcome.Done?
    ensures d.order in Create(cfg, db, r, d).db.orders && r.price > 0 && r.quantity > 0
    ensures ActiveAsset(cfg, r.baseCode).Some? && ActiveAsset(cfg, r.quoteCode).Some?
    ensures var after := Create(cfg, db, r, d).db;
            var o := after.orders[d.order];
            var w := WalletId(User(r.user), ActiveAsset(cfg, if r.side == Buy then r.quoteCode else r.baseCode).value);
            var exact: nat := if r.side == Buy then r.price * r.quantity else D.Scale(r.quantity);
            && w in db.wallets && w in after.wallets
            && o.reserved == D.Store(exact)
            && after.wallets[w].locked == db.wallets[w].locked + o.reserved
            && after.wallets[w].available == db.wallets[w].available - o.reserved + (if D.Tie(exact) then 1 else 0)
            && (D.Tie(exact) ==> r.side == Buy)
            && HasPostings(after.entries, o.tx)
            && after.entries[EntryId(o.tx, 1)] == Entry(w, Debit, Available, o.reserved)
            && after.entries[EntryId(o.tx, 2)] == Entry(w, Credit, Locked, o.reserved)
            && forall v :: v in db.wallets && v != w ==> v in after.wallets && after.wallets[v] == db.wallets[v]
  {
    hide Inv, Create, D.Store, D.Tie;
    ReachedInv(cfg, db0, db);
    InvLife(cfg, db0.wallets, db);
    CreatedOrder(cfg, db0.wallets, db, r, d);
    var base, quote := ActiveAsset(cfg, r.baseCode).value, ActiveAsset(cfg, r.quoteCode).value;
    CreateDone(cfg, db, r, d, base, quote);
    var o := NewOrder(r, base, quote, d.tx);
    ReserveMoves(db.wallets[o.ReserveWallet()], Exact(r.side, r.price, r.quantity));
    if o.side == Sell {
      SellNeverTies(o);
    }
  }

  // ---------------------------------------------------------------- nobody else's wallet

  function Caller(call: Call): Uuid {
    match call
    case FundCall(r) => r.user
    case CreateCall(r) => r.user
    case CancelCall(r) => r.user
  }

  /** A call changes no wallet of another user, and of the treasury only a funding does. */
  lemma OthersUntouched(cfg: Config, db0: Db, db: Db, inv: Invocation, w: WalletId)
    requires Reached(cfg, db0, db)
    requires if w.owner == Treasury then !inv.call.FundCall? else w.owner.user != Caller(inv.call)
    ensures w in Serve(cfg, db, inv).db.wallets <==> w in db.wallets
    ensures w in db.wallets ==> Serve(cfg, db, inv).db.wallets[w] == db.wallets[w]
  {
    hide Inv, Exact, Upper, LedgerKey, EventKey, HasEvent, FundingReplay, OrderReplay, TxFor, Post, D.Store;
    ReachedInv(cfg, db0, db);
    OnlyDoneChanges(cfg, db, inv);
  }

  // ---------------------------------------------------------------- at most once

  /** What a Done call leaves behind, so that the same key is never Done again. */
  ghost predicate Spent(db: Db, call: Call) {
    match call
    case FundCall(r) => exists t :: t in db.txs && db.txs[t].key == Some(r.key)
    case CreateCall(r) => exists id :: id in db.orders && IsOrderOf(db.orders[id], r.user, r.key)
    case CancelCall(r) => r.order in db.orders && db.orders[r.order].status == Canceled
  }

  /** Two calls that spend the same key. */
  predicate SameKey(a: Call, b: Call) {
    match (a, b)
    case (FundCall(r), FundCall(s)) => r.key == s.key
    case (CreateCall(r), CreateCall(s)) => r.user == s.user && r.key == s.key
    case (CancelCall(r), CancelCall(s)) => r.order == s.order
    case _ => false
  }

  lemma DoneSpends(cfg: Config, opening: map<WalletId, Wallet>, db: Db, inv: Invocation)
    requires Inv(cfg, opening, db) && Serve(cfg, db, inv).outcome.Done?
    ensures Spent(Serve(cfg, db, inv).db, inv.call)
  {
    hide Inv, Create, Fund, Exact;
    match inv.call
    case FundCall(r) =>
      FundedRows(cfg, db, r, inv.draw);
    case CreateCall(r) =>
      CreatedOrder(cfg, opening, db, r, inv.draw);
      assert IsOrderOf(Create(cfg, db, r, inv.draw).db.orders[inv.draw.order], r.user, r.key);
    case CancelCall(r) =>
      CancelDone(cfg, opening, db, r, inv.draw);
  }

  lemma SpentIsNotDone(cfg: Config, opening: map<WalletId, Wallet>, db: Db, spent: Call, inv: Invocation)
    requires Inv(cfg, opening, db) && Spent(db, spent) && SameKey(spent, inv.call)
    ensures !Serve(cfg, db, inv).outcome.Done?
  {
    hide Money, Books, Exact, Reservation, Upper;
    match inv.call
    case FundCall(r) =>
    case CreateCall(r) =>
    case CancelCall(r) =>
  }

  lemma SpentStays(db: Db, db': Db, call: Call)
    requires Grows(db, db') && Spent(db, call)
    ensures Spent(db', call)
  {
    match call
    case FundCall(r) =>
      var t :| t in db.txs && db.txs[t].key == Some(r.key);
      assert t in db'.txs && db'.txs[t].key == Some(r.key);
    case CreateCall(r) =>
      var id :| id in db.orders && IsOrderOf(db.orders[id], r.user, r.key);
      assert id in db'.orders && IsOrderOf(db'.orders[id], r.user, r.key);
    case CancelCall(r) =>
  }

  /** In any run each funding key moves money at most once, each (user, key) makes at most one order, and each
      order is released at most once. */
  lemma DoneAtMostOnce(cfg: Config, db0: Db, run: seq<Invocation>, i: nat, j: nat)
    requires Initial(db0) && i < j < |run| && SameKey(run[i].call, run[j].call)
    requires Answer(cfg, db0, run, i).Done?
    ensures !Answer(cfg, db0, run, j).Done?
  {
    hide Inv, Serve, Spent, SameKey, Grows;
    var dbi, dbj := Run(cfg, db0, run[..i]), Run(cfg, db0, run[..j]);
    var next := Serve(cfg, dbi, run[i]).db;
    InitialInv(cfg, db0);
    RunKeeps(cfg, db0.wallets, db0, run[..i]);
    ServeKeeps(cfg, db0.wallets, dbi, run[i]);
    DoneSpends(cfg, db0.wallets, dbi, run[i]);
    assert run[..i + 1][..i] == run[..i];
    assert Run(cfg, db0, run[..i + 1]) == next;
    assert run[..j] == run[..i + 1] + run[i + 1..j];
    RunConcat(cfg, db0, run[..i + 1], run[i + 1..j]);
    RunGrows(cfg, db0.wallets, next, run[i + 1..j]);
    RunKeeps(cfg, db0.wallets, next, run[i + 1..j]);
    SpentStays(next, dbj, run[i].call);
    SpentIsNotDone(cfg, db0.wallets, dbj, run[i].call, run[j]);
  }

  // ---------------------------------------------------------------- what a user sees

  /** The total listed for a wallet. */
  function ListedTotal(db: Db, w: WalletId): int {
    WalletOr0(db.wallets, w).available + WalletOr0(db.wallets, w).locked
  }

  /** What a funding answered with Done adds to a wallet. */
  function FundedAmount(cfg: Config, inv: Invocation, answer: Outcome, w: WalletId): int {
    if answer.Done? && inv.call.FundCall? && w.owner == User(inv.call.fund.user)
       && ActiveAsset(cfg, inv.call.fund.assetCode) == Some(w.asset)
    then inv.call.fund.amount else 0
  }

  ghost function FundedSum(cfg: Config, db0: Db, run: seq<Invocation>, w: WalletId): int
    decreases |run|
  {
    if run == [] then 0 else
    FundedSum(cfg, db0, run[..|run| - 1], w)
    + FundedAmount(cfg, run[|run| - 1], Answer(cfg, db0, run, |run| - 1), w)
  }

  lemma ServeTotal(cfg: Config, opening: map<WalletId, Wallet>, db: Db, inv: Invocation, w: WalletId)
    requires Inv(cfg, opening, db) && w.owner.User?
    ensures var after := Serve(cfg, db, inv);
            ListedTotal(after.db, w) - Total(after.db.orders, TiesIn(w))
            == ListedTotal(db, w) - Total(db.orders, TiesIn(w)) + FundedAmount(cfg, inv, after.outcome, w)
  {
    hide Inv, Total, Exact, CreateGuard;
    OnlyDoneChanges(cfg, db, inv);
    if Serve(cfg, db, inv).outcome.Done? {
      hide Create, Fund, Cancel;
      match inv.call
      case FundCall(r) =>
        FundTotal(cfg, db, r, inv.draw, w);
      case CreateCall(r) =>
        CreateTotal(cfg, opening, db, r, inv.draw, w);
      case CancelCall(r) =>
        CancelDone(cfg, opening, db, r, inv.draw);
        TotalUpdate(db.orders, TiesIn(w), r.order, db.orders[r.order].(status := Canceled));
    }
  }

  lemma FundTotal(cfg: Config, db: Db, r: FundRequest, d: Draw, w: WalletId)
    requires Fund(cfg, db, r, d).outcome.Done? && w.owner.User?
    ensures Fund(cfg, db, r, d).db.orders == db.orders
    ensures ListedTotal(Fund(cfg, db, r, d).db, w)
         == ListedTotal(db, w) + FundedAmount(cfg, Invocation(FundCall(r), d), Fund(cfg, db, r, d).outcome, w)
  {
    FundDone(cfg, db, r, d, ActiveAsset(cfg, r.assetCode).value);
  }

  lemma CreateTotal(cfg: Config, opening: map<WalletId, Wallet>, db: Db, r: CreateRequest, d: Draw, w: WalletId)
    requires Inv(cfg, opening, db) && Create(cfg, db, r, d).outcome.Done?
    ensures var after := Create(cfg, db, r, d).db;
            ListedTotal(after, w) - Total(after.orders, TiesIn(w)) == ListedTotal(db, w) - Total(db.orders, TiesIn(w))
  {
    hide Money, Books, Life, Total, Exact, Create;
    CreatedOrder(cfg, opening, db, r, d);
    var base, quote := ActiveAsset(cfg, r.baseCode).value, ActiveAsset(cfg, r.quoteCode).value;
    CreateDone(cfg, db, r, d, base, quote);
    var o := NewOrder(r, base, quote, d.tx);
    ReserveMoves(db.wallets[o.ReserveWallet()], Exact(r.side, r.price, r.quantity));
    TotalUpdate(db.orders, TiesIn(w), d.order, o);
  }

  /** A user's listed total is the opening total plus the fundings that were answered with Done, plus one unit for
      each half-unit reservation: creating, replaying and canceling do not matter. */
  lemma {:induction false} TotalIsAnswers(cfg: Config, db0: Db, run: seq<Invocation>, w: WalletId)
    requires Initial(db0) && w.owner.User?
    ensures ListedTotal(Run(cfg, db0, run), w)
         == ListedTotal(db0, w) + FundedSum(cfg, db0, run, w) + Total(Run(cfg, db0, run).orders, TiesIn(w))
    decreases |run|
  {
    hide Inv, Total, Serve;
    if run == [] {
      TotalZero(db0.orders, TiesIn(w));
    } else {
      var before := run[..|run| - 1];
      TotalIsAnswers(cfg, db0, before, w);
      InitialInv(cfg, db0);
      RunKeeps(cfg, db0.wallets, db0, before);
      ServeTotal(cfg, db0.wallets, Run(cfg, db0, before), run[|run| - 1], w);
    }
  }

  // ---------------------------------------------------------------- the fundings in the ledger

  /** What a funding transaction credits to a wallet. */
  function FundedBy(entries: map<EntryId, Entry>, t: Uuid, tx: LedgerTx, w: WalletId): int {
    if tx.kind == Funding && EntryId(t, 2) in entries && entries[EntryId(t, 2)].wallet == w
    then entries[EntryId(t, 2)].amount else 0
  }

  /** The sum of the FUNDING transactions for a wallet. */
  ghost function FundingTotal(txs: map<Uuid, LedgerTx>, entries: map<EntryId, Entry>, w: WalletId): int {
    Sum(txs, (t, tx) => FundedBy(entries, t, tx, w))
  }

  ghost function NetBoth(entries: map<EntryId, Entry>, w: WalletId): int {
    Net(entries, w, Available) + Net(entries, w, Locked)
  }

  /** Reservations and releases cancel out over the two buckets of a user's wallet. */
  lemma {:induction false} LedgerIsFunding(txs: map<Uuid, LedgerTx>, entries: map<EntryId, Entry>, w: WalletId)
    requires LedgerShape(entries, txs) && w.owner.User?
    ensures NetBoth(entries, w) == FundingTotal(txs, entries, w)
    decreases |txs|
  {
    hide LedgerShape, NetBoth, FundingTotal, FundedBy;
    if txs == map[] {
      NoLedger(txs, entries, w);
    } else {
      var t :| t in txs;
      var less := entries - {EntryId(t, 1), EntryId(t, 2)};
      LessShape(txs, entries, less, t);
      LedgerIsFunding(txs - {t}, less, w);
      OneTransfer(entries, less, t, txs[t], w);
      OneFunding(txs, entries, less, t, w);
    }
  }

  lemma NoLedger(txs: map<Uuid, LedgerTx>, entries: map<EntryId, Entry>, w: WalletId)
    requires LedgerShape(entries, txs) && txs == map[]
    ensures NetBoth(entries, w) == 0 && FundingTotal(txs, entries, w) == 0
  {
    NetZero(entries, w, Available);
    NetZero(entries, w, Locked);
    SumOfZeros(txs, (t, tx) => FundedBy(entries, t, tx, w));
  }

  lemma LessShape(txs: map<Uuid, LedgerTx>, entries: map<EntryId, Entry>, less: map<EntryId, Entry>, t: Uuid)
    requires LedgerShape(entries, txs) && t in txs && less == entries - {EntryId(t, 1), EntryId(t, 2)}
    ensures LedgerShape(less, txs - {t})
    ensures HasPostings(entries, t) && IsTransfer(txs[t].kind, entries[EntryId(t, 1)], entries[EntryId(t, 2)])
  {
  }

  lemma OneFunding(txs: map<Uuid, LedgerTx>, entries: map<EntryId, Entry>, less: map<EntryId, Entry>, t: Uuid, w: WalletId)
    requires t in txs && less == entries - {EntryId(t, 1), EntryId(t, 2)}
    ensures FundingTotal(txs, entries, w) == FundingTotal(txs - {t}, less, w) + FundedBy(entries, t, txs[t], w)
  {
    SumSplit(txs, (t, tx) => FundedBy(entries, t, tx, w), t);
    SumSame(txs - {t}, (t, tx) => FundedBy(entries, t, tx, w), (t, tx) => FundedBy(less, t, tx, w));
  }

  lemma OneTransfer(entries: map<EntryId, Entry>, less: map<EntryId, Entry>, t: Uuid, tx: LedgerTx, w: WalletId)
    requires HasPostings(entries, t) && IsTransfer(tx.kind, entries[EntryId(t, 1)], entries[EntryId(t, 2)])
    requires less == entries - {EntryId(t, 1), EntryId(t, 2)} && w.owner.User?
    ensures NetBoth(entries, w) == NetBoth(less, w) + FundedBy(entries, t, tx, w)
  {
    hide Net;
    var x, y := entries[EntryId(t, 1)], entries[EntryId(t, 2)];
    assert entries == less[EntryId(t, 1) := x][EntryId(t, 2) := y];
    NetAdd(less, EntryId(t, 1), x, w, Available);
    NetAdd(less, EntryId(t, 1), x, w, Locked);
    NetAdd(less[EntryId(t, 1) := x], EntryId(t, 2), y, w, Available);
    NetAdd(less[EntryId(t, 1) := x], EntryId(t, 2), y, w, Locked);
  }

  /** In every reachable state a user's listed total is the opening total plus the sum over the FUNDING
      transactions for that user and asset, no two of which share a key, plus one unit for each half-unit
      reservation; after a run that sum is what the fundings answered with Done moved. */
  lemma {:induction false} TotalIsFunding(cfg: Config, db0: Db, run: seq<Invocation>, w: WalletId)
    requires Initial(db0) && w.owner.User?
    ensures var db := Run(cfg, db0, run);
            && ListedTotal(db, w) == ListedTotal(db0, w) + FundingTotal(db.txs, db.entries, w) + Total(db.orders, TiesIn(w))
            && FundingTotal(db.txs, db.entries, w) == FundedSum(cfg, db0, run, w)
            && (forall t :: t in db.txs && db.txs[t].kind == Funding ==> db.txs[t].key.Some?)
            && (forall t, u | t in db.txs && u in db.txs && db.txs[t].kind == Funding && db.txs[t].key == db.txs[u].key :: t == u)
  {
    hide Run, Total, FundedSum, OrdersOk, Life;
    var db := Run(cfg, db0, run);
    assert Reached(cfg, db0, db);
    ReachedInv(cfg, db0, db);
    TotalIsAnswers(cfg, db0, run, w);
    LedgerIsFunding(db.txs, db.entries, w);
    if w in db.wallets {
      BalancesAreLedger(cfg, db0, db, w);
    } else {
      NetZero(db.entries, w, Available);
      NetZero(db.entries, w, Locked);
      TotalZero(db.orders, TiesIn(w));
    }
  }
}
