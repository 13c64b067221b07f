/** Runs of calls one at a time: when a call writes, and what every run keeps. */
module Serial {
  import opened Tables
  import opened Rows
  import opened Services
  import opened Invariants
  import opened Preservation

  // ---------------------------------------------------------------- when a call is Done

  lemma ActiveIsKnown(cfg: Config, code: string)
    ensures ActiveAsset(cfg, code).Some? ==> KnownAsset(cfg, ActiveAsset(cfg, code).value)
  {
    var c := Upper(code);
    if c in cfg.assets && cfg.assets[c].isActive {
      assert cfg.assets[c].id == ActiveAsset(cfg, code).value;
    }
  }

  /** A string key is taken exactly by the event of the same kind and order. */
  lemma HasEventIsReport(events: map<Uuid, Event>, kind: EventKind, order: Uuid)
    ensures HasEvent(events, kind, order) <==> HasReport(events, kind, order)
  {
    if HasEvent(events, kind, order) {
      var e :| e in events && IsEventOf(events[e], kind, order);
      EventKeyInjective(events[e].kind, events[e].order, kind, order);
      assert Reports(events[e], kind, order);
    }
    if HasReport(events, kind, order) {
      var e :| e in events && Reports(events[e], kind, order);
      assert IsEventOf(events[e], kind, order);
    }
  }

  /** A funding moves money exactly when its treasury covers it, its key is unused and its id is fresh. */
  lemma FundDone(cfg: Config, db: Db, r: FundRequest, d: Draw, asset: Uuid)
    requires ActiveAsset(cfg, r.assetCode) == Some(asset)
    ensures Fund(cfg, db, r, d).outcome.Done? <==> FundGuard(db, r, asset, d)
    ensures FundGuard(db, r, asset, d) ==> Fund(cfg, db, r, d) == Result(Funded(db, r, asset, d), Done(d.tx))
  {
  }

  lemma CreateDone(cfg: Config, db: Db, r: CreateRequest, d: Draw, base: Uuid, quote: Uuid)
    requires ActiveAsset(cfg, r.baseCode) == Some(base) && ActiveAsset(cfg, r.quoteCode) == Some(quote)
    requires Life(db.orders, db.txs, db.events)
    ensures Create(cfg, db, r, d).outcome.Done? <==>
              Storable(r) && CreateGuard(cfg, db, NewOrder(r, base, quote, d.tx), Exact(r.side, r.price, r.quantity), d)
    ensures Create(cfg, db, r, d).outcome.Done? ==>
              Create(cfg, db, r, d) == Result(Created(cfg, db, NewOrder(r, base, quote, d.tx), Exact(r.side, r.price, r.quantity), d),
                                              Done(d.order))
  {
    hide EventKey, LedgerKey, Upper, Exact;
    ActiveIsKnown(cfg, r.baseCode);
    ActiveIsKnown(cfg, r.quoteCode);
    HasEventIsReport(db.events, OrderCreated, d.order);
  }

  lemma CancelDone(cfg: Config, opening: map<WalletId, Wallet>, db: Db, r: CancelRequest, d: Draw)
    requires Inv(cfg, opening, db)
    ensures Cancel(cfg, db, r, d).outcome.Done? <==>
              r.order in db.orders && db.orders[r.order].user == r.user && CancelGuard(db, r.order, d)
    ensures Cancel(cfg, db, r, d).outcome.Done? ==>
              Cancel(cfg, db, r, d) == Result(CanceledDb(db, r.order, d), Done(r.order))
  {
    hide EventKey, Exact, Inv;
    if r.order in db.orders {
      OrderFacts(cfg, opening, db, r.order);
      HasEventIsReport(db.events, OrderCanceled, r.order);
    }
  }

  /** What the invariant says about one order. */
  lemma OrderFacts(cfg: Config, opening: map<WalletId, Wallet>, db: Db, id: Uuid)
    requires Inv(cfg, opening, db) && id in db.orders
    ensures var o := db.orders[id];
            && KnownAsset(cfg, o.ReserveWallet().asset) && o.status != Filled
            && o.ReserveWallet() in db.wallets
            && (o.status == Open ==> o.reserved <= db.wallets[o.ReserveWallet()].locked)
            && (HasReport(db.events, OrderCanceled, id) <==> o.status == Canceled)
  {
    assert OrderOk(cfg, db.orders[id], db.txs, db.entries);
    hide Total;
    TotalAtLeast(db.orders, OpenIn(db.orders[id].ReserveWallet()));
  }

  lemma ServeKeeps(cfg: Config, opening: map<WalletId, Wallet>, db: Db, inv: Invocation)
    requires Inv(cfg, opening, db)
    ensures Inv(cfg, opening, Serve(cfg, db, inv).db)
  {
    OnlyDoneChanges(cfg, db, inv);
    match inv.call
    case FundCall(r) =>
      FundServed(cfg, opening, db, r, inv.draw);
    case CreateCall(r) =>
      CreateServed(cfg, opening, db, r, inv.draw);
    case CancelCall(r) =>
      CancelServed(cfg, opening, db, r, inv.draw);
  }

  lemma FundServed(cfg: Config, opening: map<WalletId, Wallet>, db: Db, r: FundRequest, d: Draw)
    requires Inv(cfg, opening, db)
    ensures Fund(cfg, db, r, d).outcome.Done? ==> Inv(cfg, opening, Fund(cfg, db, r, d).db)
  {
    hide Inv;
    if Fund(cfg, db, r, d).outcome.Done? {
      var asset := ActiveAsset(cfg, r.assetCode).value;
      FundDone(cfg, db, r, d, asset);
      FundKeeps(cfg, opening, db, r, asset, d);
    }
  }

  lemma CreateServed(cfg: Config, opening: map<WalletId, Wallet>, db: Db, r: CreateRequest, d: Draw)
    requires Inv(cfg, opening, db)
    ensures Create(cfg, db, r, d).outcome.Done? ==> Inv(cfg, opening, Create(cfg, db, r, d).db)
  {
    hide Money, Books, Life, CreateGuard, Exact;
    if Create(cfg, db, r, d).outcome.Done? {
      var base, quote := ActiveAsset(cfg, r.baseCode).value, ActiveAsset(cfg, r.quoteCode).value;
      CreateDone(cfg, db, r, d, base, quote);
      CreateKeeps(cfg, opening, db, NewOrder(r, base, quote, d.tx), Exact(r.side, r.price, r.quantity), d);
    }
  }

  lemma CancelServed(cfg: Config, opening: map<WalletId, Wallet>, db: Db, r: CancelRequest, d: Draw)
    requires Inv(cfg, opening, db)
    ensures Cancel(cfg, db, r, d).outcome.Done? ==> Inv(cfg, opening, Cancel(cfg, db, r, d).db)
  {
    hide Inv;
    if Cancel(cfg, db, r, d).outcome.Done? {
      CancelDone(cfg, opening, db, r, d);
      CancelKeeps(cfg, opening, db, r.order, d);
    }
  }
}
