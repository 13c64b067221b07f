/** Keys: what a committed call fixes for every later call with the same key, and what it moved. */
module Idempotency {
  import opened Tables
  import opened Rows
  import opened Services
  import opened Invariants
  import opened Preservation
  import opened Serial
  import opened Runs

  // ---------------------------------------------------------------- rows are kept

  predicate Later(o: Order, o': Order) {
    o' == o || (o.status == Open && o' == o.(status := Canceled))
  }

  /** Rows are never removed; ledger and outbox rows never change; an order may only go from OPEN to CANCELED. */
  ghost predicate Grows(db: Db, db': Db) {
    && (forall id :: id in db.orders ==> id in db'.orders && Later(db.orders[id], db'.orders[id]))
    && (forall t :: t in db.txs ==> t in db'.txs && db'.txs[t] == db.txs[t])
    && (forall k :: k in db.entries ==> k in db'.entries && db'.entries[k] == db.entries[k])
    && (forall e :: e in db.events ==> e in db'.events && db'.events[e] == db.events[e])
  }

  lemma GrowsTransitive(a: Db, b: Db, c: Db)
    requires Grows(a, b) && Grows(b, c)
    ensures Grows(a, c)
  {
  }

  lemma FundGrows(cfg: Config, opening: map<WalletId, Wallet>, db: Db, r: FundRequest, asset: Uuid, d: Draw)
    requires Inv(cfg, opening, db) && FundGuard(db, r, asset, d)
    ensures Grows(db, Funded(db, r, asset, d))
  {
    hide Inv;
    NoPostings(cfg, opening, db, d.tx);
  }

  lemma CreateGrows(cfg: Config, opening: map<WalletId, Wallet>, db: Db, o: Order, v: nat, d: Draw)
    requires Inv(cfg, opening, db) && CreateGuard(cfg, db, o, v, d)
    ensures Grows(db, Created(cfg, db, o, v, d))
  {
    hide Inv, Exact;
    NoPostings(cfg, opening, db, d.tx);
  }

  lemma CancelGrows(cfg: Config, opening: map<WalletId, Wallet>, db: Db, id: Uuid, d: Draw)
    requires Inv(cfg, opening, db) && CancelGuard(db, id, d)
    ensures Grows(db, CanceledDb(db, id, d))
  {
    hide Inv;
    NoPostings(cfg, opening, db, d.tx);
  }

  lemma ServeGrows(cfg: Config, opening: map<WalletId, Wallet>, db: Db, inv: Invocation)
    requires Inv(cfg, opening, db)
    ensures Grows(db, Serve(cfg, db, inv).db)
  {
    hide Inv, Exact, CreateGuard, FundGuard, CancelGuard;
    OnlyDoneChanges(cfg, db, inv);
    if Serve(cfg, db, inv).outcome.Done? {
      hide Grows;
      match inv.call
      case FundCall(r) =>
        var asset := ActiveAsset(cfg, r.assetCode).value;
        FundDone(cfg, db, r, inv.draw, asset);
        FundGrows(cfg, opening, db, r, asset, inv.draw);
      case CreateCall(r) =>
        var base, quote := ActiveAsset(cfg, r.baseCode).value, ActiveAsset(cfg, r.quoteCode).value;
        InvLife(cfg, opening, db);
        CreateDone(cfg, db, r, inv.draw, base, quote);
        CreateGrows(cfg, opening, db, NewOrder(r, base, quote, inv.draw.tx), Exact(r.side, r.price, r.quantity), inv.draw);
      case CancelCall(r) =>
        CancelDone(cfg, opening, db, r, inv.draw);
        CancelGrows(cfg, opening, db, r.order, inv.draw);
    }
  }

  lemma {:induction false} RunGrows(cfg: Config, opening: map<WalletId, Wallet>, db: Db, run: seq<Invocation>)
    requires Inv(cfg, opening, db)
    ensures Grows(db, Run(cfg, db, run))
    decreases |run|
  {
    hide Inv, Serve;
    if run != [] {
      var mid := Run(cfg, db, run[..|run| - 1]);
      RunGrows(cfg, opening, db, run[..|run| - 1]);
      RunKeeps(cfg, opening, db, run[..|run| - 1]);
      ServeGrows(cfg, opening, mid, run[|run| - 1]);
      GrowsTransitive(db, mid, Serve(cfg, mid, run[|run| - 1]).db);
    }
  }

  // ---------------------------------------------------------------- order keys

  /** The (user, key) of a committed order answers every later valid request that uses it: a replay of that
      order exactly when the data are the same, a conflict otherwise, and nothing changes. */
  lemma OrderKeyAnswers(cfg: Config, opening: map<WalletId, Wallet>, db: Db, id: Uuid,
                        r: CreateRequest, d: Draw, base: Uuid, quote: Uuid)
    requires Inv(cfg, opening, db) && id in db.orders && IsOrderOf(db.orders[id], r.user, r.key)
    requires ActiveAsset(cfg, r.baseCode) == Some(base) && ActiveAsset(cfg, r.quoteCode) == Some(quote)
    requires base != quote && r.price > 0 && r.quantity > 0
    ensures Create(cfg, db, r, d) == Result(db,
              if SameOrderData(db.orders[id], base, quote, r.side, r.price, r.quantity) then Replayed(id)
              else Refused(IdempotencyConflict))
  {
    hide Reservation, Upper, Exact, Money, Life;
    var found := OrderFor(db.orders, r.user, r.key);
    assert found.Some?;
    OneOrderPerKey(cfg, opening, db, found.value, id);
  }

  lemma OneOrderPerKey(cfg: Config, opening: map<WalletId, Wallet>, db: Db, a: Uuid, b: Uuid)
    requires Inv(cfg, opening, db) && a in db.orders && b in db.orders
    requires IsOrderOf(db.orders[a], db.orders[b].user, db.orders[b].key)
    ensures a == b
  {
    hide Money, Life, OrderOk, LedgerShape, TxsOk;
  }

  /** After a creation, the same request is always a replay of the same order, whatever ran in between. */
  lemma {:induction false} RetryReplays(cfg: Config, db0: Db, before: seq<Invocation>, r: CreateRequest, d: Draw,
                     after: seq<Invocation>, d': Draw)
    requires Initial(db0)
    requires Answer(cfg, db0, before + [Invocation(CreateCall(r), d)], |before|).Done?
    ensures var db := Run(cfg, db0, before + [Invocation(CreateCall(r), d)] + after);
            Create(cfg, db, r, d') == Result(db, Replayed(d.order))
  {
    hide Inv, Exact, CreateGuard, Created, Create;
    var call := Invocation(CreateCall(r), d);
    var db1 := Run(cfg, db0, before);
    assert (before + [call])[..|before|] == before;
    var db2 := Create(cfg, db1, r, d).db;
    assert Run(cfg, db0, before + [call]) == db2;
    RunConcat(cfg, db0, before + [call], after);
    var db := Run(cfg, db2, after);
    InitialInv(cfg, db0);
    RunKeeps(cfg, db0.wallets, db0, before);
    ServeKeeps(cfg, db0.wallets, db1, call);
    RunKeeps(cfg, db0.wallets, db2, after);
    RunGrows(cfg, db0.wallets, db2, after);
    CreatedOrder(cfg, db0.wallets, db1, r, d);
    var base, quote := ActiveAsset(cfg, r.baseCode).value, ActiveAsset(cfg, r.quoteCode).value;
    OrderKeyAnswers(cfg, db0.wallets, db, d.order, r, d', base, quote);
  }

  /** The order a creation leaves. */
  lemma CreatedOrder(cfg: Config, opening: map<WalletId, Wallet>, db: Db, r: CreateRequest, d: Draw)
    requires Inv(cfg, opening, db) && Create(cfg, db, r, d).outcome.Done?
    ensures ActiveAsset(cfg, r.baseCode).Some? && ActiveAsset(cfg, r.quoteCode).Some?
    ensures Storable(r) && ActiveAsset(cfg, r.baseCode) != ActiveAsset(cfg, r.quoteCode)
    ensures Create(cfg, db, r, d).outcome == Done(d.order) && d.order !in db.orders
    ensures d.order in Create(cfg, db, r, d).db.orders
    ensures Create(cfg, db, r, d).db.orders[d.order] ==
              NewOrder(r, ActiveAsset(cfg, r.baseCode).value, ActiveAsset(cfg, r.quoteCode).value, d.tx)
  {
    hide Exact, Money, Books, Life;
    var base, quote := ActiveAsset(cfg, r.baseCode).value, ActiveAsset(cfg, r.quoteCode).value;
    CreateDone(cfg, db, r, d, base, quote);
  }

  // ---------------------------------------------------------------- funding keys

  /** Once a funding has committed under a key, a later valid request with the key replays exactly when its
      user, asset and amount are the original ones, and conflicts otherwise; nothing changes. */
  lemma FundKeyAnswers(cfg: Config, opening: map<WalletId, Wallet>, db: Db, t: Uuid, first: FundRequest, asset: Uuid,
                       r: FundRequest, d: Draw, asset': Uuid)
    requires Inv(cfg, opening, db)
    requires t in db.txs && db.txs[t] == LedgerTx(Some(first.key), Funding, Posted, None)
    requires HasPostings(db.entries, t) && first.amount > 0
    requires db.entries[EntryId(t, 2)] == Entry(WalletId(User(first.user), asset), Credit, Available, first.amount)
    requires r.key == first.key && r.amount > 0 && ActiveAsset(cfg, r.assetCode) == Some(asset')
    ensures Fund(cfg, db, r, d) == Result(db,
              if r.user == first.user && asset' == asset && r.amount == first.amount then Replayed(t)
              else Refused(IdempotencyConflict))
  {
    hide Upper, Money, Life, OrdersOk;
    var found := TxFor(db.txs, r.key);
    assert found == Some(t);
    var w := WalletId(User(r.user), asset');
    if HasFundingCredit(db.entries, t, w, r.amount) {
      var k :| k in db.entries && k.tx == t && IsFundingCredit(db.entries[k], w, r.amount);
      assert IsTransfer(Funding, db.entries[EntryId(t, 1)], db.entries[EntryId(t, 2)]);
      assert k == EntryId(t, 2);
    } else {
      assert !IsFundingCredit(db.entries[EntryId(t, 2)], w, r.amount);
    }
  }

  lemma FundedRows(cfg: Config, db: Db, r: FundRequest, d: Draw)
    requires Fund(cfg, db, r, d).outcome.Done?
    ensures ActiveAsset(cfg, r.assetCode).Some? && r.amount > 0
    ensures var after := Fund(cfg, db, r, d).db;
            && Fund(cfg, db, r, d).outcome == Done(d.tx)
            && d.tx in after.txs && after.txs[d.tx] == LedgerTx(Some(r.key), Funding, Posted, None)
            && HasPostings(after.entries, d.tx)
            && after.entries[EntryId(d.tx, 2)]
               == Entry(WalletId(User(r.user), ActiveAsset(cfg, r.assetCode).value), Credit, Available, r.amount)
  {
    FundDone(cfg, db, r, d, ActiveAsset(cfg, r.assetCode).value);
  }

  /** Funding replay is exact, after any run that follows the funding. */
  lemma {:induction false} FundingReplayExact(cfg: Config, db0: Db, before: seq<Invocation>, first: FundRequest, d: Draw,
                           after: seq<Invocation>, r: FundRequest, d': Draw)
    requires Initial(db0)
    requires Answer(cfg, db0, before + [Invocation(FundCall(first), d)], |before|).Done?
    requires r.key == first.key && r.amount > 0 && ActiveAsset(cfg, r.assetCode).Some?
    ensures var db := Run(cfg, db0, before + [Invocation(FundCall(first), d)] + after);
            Fund(cfg, db, r, d') == Result(db,
              if r.user == first.user && ActiveAsset(cfg, r.assetCode) == ActiveAsset(cfg, first.assetCode)
                 && r.amount == first.amount then Replayed(d.tx)
              else Refused(IdempotencyConflict))
  {
    hide Inv, Fund;
    var call := Invocation(FundCall(first), d);
    var db1 := Run(cfg, db0, before);
    assert (before + [call])[..|before|] == before;
    var db2 := Fund(cfg, db1, first, d).db;
    assert Run(cfg, db0, before + [call]) == db2;
    RunConcat(cfg, db0, before + [call], after);
    var db := Run(cfg, db2, after);
    InitialInv(cfg, db0);
    RunKeeps(cfg, db0.wallets, db0, before);
    ServeKeeps(cfg, db0.wallets, db1, call);
    RunKeeps(cfg, db0.wallets, db2, after);
    RunGrows(cfg, db0.wallets, db2, after);
    FundedRows(cfg, db1, first, d);
    FundKeyAnswers(cfg, db0.wallets, db, d.tx, first, ActiveAsset(cfg, first.assetCode).value,
                   r, d', ActiveAsset(cfg, r.assetCode).value);
  }
}
