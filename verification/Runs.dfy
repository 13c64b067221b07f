/** What holds after every serial run. */
module Runs {
  import opened Tables
  import opened Rows
  import opened Services
  import opened Invariants
  import opened Preservation
  import opened Serial
  import D = Decimals

  /** A state that a run of calls reaches from an initial database. */
  ghost predicate Reached(cfg: Config, db0: Db, db: Db) {
    Initial(db0) && exists run :: db == Run(cfg, db0, run)
  }

  lemma {:induction false} RunKeeps(cfg: Config, opening: map<WalletId, Wallet>, db: Db, run: seq<Invocation>)
    requires Inv(cfg, opening, db)
    ensures Inv(cfg, opening, Run(cfg, db, run))
    decreases |run|
  {
    hide Inv, Serve;
    if run != [] {
      RunKeeps(cfg, opening, db, run[..|run| - 1]);
      ServeKeeps(cfg, opening, Run(cfg, db, run[..|run| - 1]), run[|run| - 1]);
    }
  }

  lemma ReachedInv(cfg: Config, db0: Db, db: Db)
    requires Reached(cfg, db0, db)
    ensures Inv(cfg, db0.wallets, db)
  {
    var run :| db == Run(cfg, db0, run);
    InitialInv(cfg, db0);
    RunKeeps(cfg, db0.wallets, db0, run);
  }

  // ---------------------------------------------------------------- locked balances and cancellation

  /** Locked balance agrees with open orders, in every reachable state. */
  lemma LockedIsOpenOrders(cfg: Config, db0: Db, db: Db, w: WalletId)
    requires Reached(cfg, db0, db) && w in db.wallets
    ensures db.wallets[w].locked == Total(db.orders, OpenIn(w))
  {
    hide Total;
    ReachedInv(cfg, db0, db);
  }

  /** Canceling one's own order never reaches a reservation-state error: it releases an OPEN order (unless
      an identifier it draws is taken) and replays a CANCELED one, and no other status occurs. */
  lemma CancelAnswer(cfg: Config, db0: Db, db: Db, r: CancelRequest, d: Draw)
    requires Reached(cfg, db0, db)
    ensures Cancel(cfg, db, r, d).outcome ==
              if r.order !in db.orders || db.orders[r.order].user != r.user then Refused(OrderNotFound)
              else if db.orders[r.order].status == Canceled then Replayed(r.order)
              else if d.tx in db.txs || d.event in db.events then Refused(IntegrityViolation)
              else Done(r.order)
  {
    hide Inv, HasEvent, CancelDb;
    ReachedInv(cfg, db0, db);
    if r.order in db.orders {
      OrderFacts(cfg, db0.wallets, db, r.order);
      HasEventIsReport(db.events, OrderCanceled, r.order);
    }
  }

  // ---------------------------------------------------------------- the life of an order

  ghost function EventsOf(events: map<Uuid, Event>, kind: EventKind, id: Uuid): set<Uuid> {
    set e | e in events && EventKey(events[e].kind, events[e].order) == EventKey(kind, id)
  }

  ghost function ReleasesOf(txs: map<Uuid, LedgerTx>, id: Uuid): set<Uuid> {
    set t | t in txs && Releases(txs[t], id)
  }

  /** The reservations with the ledger key of an order. */
  ghost function ReservationsOf(cfg: Config, txs: map<Uuid, LedgerTx>, o: Order): set<Uuid> {
    set t | t in txs && txs[t].kind == OrderReserve && txs[t].key == Some(LedgerKey(cfg, o.user, o.key))
  }

  /** The orders that a reservation is for. */
  ghost function OrdersOf(orders: map<Uuid, Order>, t: Uuid): set<Uuid> {
    set id | id in orders && orders[id].tx == t
  }

  lemma ReservationCount(cfg: Config, orders: map<Uuid, Order>, txs: map<Uuid, LedgerTx>, entries: map<EntryId, Entry>, id: Uuid)
    requires OrdersOk(cfg, orders, txs, entries) && TxsOk(txs) && id in orders
    ensures ReservationsOf(cfg, txs, orders[id]) == {orders[id].tx}
  {
    hide LedgerKey;
    assert OrderOk(cfg, orders[id], txs, entries);
  }

  lemma OrderCount(cfg: Config, orders: map<Uuid, Order>, txs: map<Uuid, LedgerTx>, entries: map<EntryId, Entry>, t: Uuid)
    requires OrdersOk(cfg, orders, txs, entries) && t in txs && txs[t].kind == OrderReserve
    ensures |OrdersOf(orders, t)| == 1
  {
    hide OrderOk;
    assert HasReservation(orders, t);
    var id :| id in orders && orders[id].tx == t;
    OnlyOne(OrdersOf(orders, t), id);
  }

  lemma OnlyOne(s: set<Uuid>, x: Uuid)
    requires x in s && forall y :: y in s ==> y == x
    ensures |s| == 1
  {
    assert s == {x};
  }

  lemma EventCount(orders: map<Uuid, Order>, events: map<Uuid, Event>, kind: EventKind, id: Uuid)
    requires OutboxAgrees(orders, events)
    ensures |EventsOf(events, kind, id)| == if HasReport(events, kind, id) then 1 else 0
  {
    hide EventKey;
    forall e | e in EventsOf(events, kind, id) ensures Reports(events[e], kind, id) {
      EventKeyInjective(events[e].kind, events[e].order, kind, id);
    }
    if HasReport(events, kind, id) {
      var x :| x in events && Reports(events[x], kind, id);
      OnlyOne(EventsOf(events, kind, id), x);
    } else {
      assert EventsOf(events, kind, id) == {};
    }
  }

  lemma ReleaseCount(orders: map<Uuid, Order>, txs: map<Uuid, LedgerTx>, id: Uuid)
    requires ReleasesAgree(orders, txs) && TxsOk(txs) && id in orders
    ensures |ReleasesOf(txs, id)| == if orders[id].status == Canceled then 1 else 0
  {
    if orders[id].status == Canceled {
      var x :| x in txs && Releases(txs[x], id);
      OnlyOne(ReleasesOf(txs, id), x);
    } else {
      assert ReleasesOf(txs, id) == {};
    }
  }

  /** An order is OPEN or CANCELED; it has exactly one reservation, which is no other order's, exactly one event
      with the key of `order.created`, and exactly one with the key of `order.canceled` and one release
      transaction if it is CANCELED, none while it is OPEN.  No event has the key of a transition of an order that
      does not exist. */
  lemma OrderLifecycle(cfg: Config, db0: Db, db: Db, id: Uuid)
    requires Reached(cfg, db0, db)
    ensures id in db.orders ==>
              var canceled := if db.orders[id].status == Canceled then 1 else 0;
              && db.orders[id].status != Filled
              && |EventsOf(db.events, OrderCreated, id)| == 1
              && |EventsOf(db.events, OrderCanceled, id)| == canceled
              && |ReleasesOf(db.txs, id)| == canceled
              && ReservationsOf(cfg, db.txs, db.orders[id]) == {db.orders[id].tx}
    ensures forall t :: t in db.txs && db.txs[t].kind == OrderReserve ==> |OrdersOf(db.orders, t)| == 1
    ensures id !in db.orders ==> forall kind :: EventsOf(db.events, kind, id) == {}
  {
    hide Money, Books, EventKey, TxsOk, OrdersOk;
    ReachedInv(cfg, db0, db);
    InvBooks(cfg, db0.wallets, db);
    forall t | t in db.txs && db.txs[t].kind == OrderReserve ensures |OrdersOf(db.orders, t)| == 1 {
      OrderCount(cfg, db.orders, db.txs, db.entries, t);
    }
    EventCount(db.orders, db.events, OrderCreated, id);
    EventCount(db.orders, db.events, OrderCanceled, id);
    if id in db.orders {
      OrderFacts(cfg, db0.wallets, db, id);
      ReservationCount(cfg, db.orders, db.txs, db.entries, id);
      ReleaseCount(db.orders, db.txs, id);
    } else {
      forall kind ensures EventsOf(db.events, kind, id) == {} {
        EventCount(db.orders, db.events, kind, id);
        assert !HasReport(db.events, kind, id);
      }
    }
  }

  lemma InvBooks(cfg: Config, opening: map<WalletId, Wallet>, db: Db)
    requires Inv(cfg, opening, db)
    ensures TxsOk(db.txs) && OrdersOk(cfg, db.orders, db.txs, db.entries)
  {
  }

  // ---------------------------------------------------------------- balances and ledger

  /** The orders of a wallet whose amounts lie on a half unit. */
  ghost function TiedIn(orders: map<Uuid, Order>, w: WalletId): set<Uuid> {
    set id | id in orders && orders[id].ReserveWallet() == w && OrderTie(orders[id])
  }

  /** The BUY orders paid from a wallet. */
  ghost function BoughtFrom(orders: map<Uuid, Order>, w: WalletId): set<Uuid> {
    set id | id in orders && orders[id].ReserveWallet() == w && orders[id].side == Buy
  }

  /** The balances are the ledger's fold; a wallet is ahead of its ledger by exactly its half-unit reservations. */
  lemma BalancesAreLedger(cfg: Config, db0: Db, db: Db, w: WalletId)
    requires Reached(cfg, db0, db) && w in db.wallets
    ensures db.wallets[w].available ==
              WalletOr0(db0.wallets, w).available + Net(db.entries, w, Available) + Total(db.orders, TiesIn(w))
    ensures db.wallets[w].locked == Net(db.entries, w, Locked)
    ensures Total(db.orders, TiesIn(w)) == |TiedIn(db.orders, w)|
    ensures Total(db.orders, TiesIn(w)) <= |BoughtFrom(db.orders, w)|
    ensures Total(db.orders, TiesIn(w)) == 0
       <==> forall id :: id in db.orders && db.orders[id].ReserveWallet() == w ==> !OrderTie(db.orders[id])
  {
    ReachedInv(cfg, db0, db);
    assert BalancedAt(db0.wallets, w, db.wallets[w], db.entries, db.orders);
    TiesAreBuys(db.orders, w);
    NoTies(db.orders, w);
    Tallies(db.orders, w);
  }

  /** The tallies count orders. */
  lemma Tallies(orders: map<Uuid, Order>, w: WalletId)
    ensures Total(orders, TiesIn(w)) == |TiedIn(orders, w)|
    ensures Total(orders, BuysIn(w)) == |BoughtFrom(orders, w)|
  {
    hide OrderTie;
    TotalCounts(orders, TiesIn(w), TiedIn(orders, w));
    TotalCounts(orders, BuysIn(w), BoughtFrom(orders, w));
  }

  lemma NoTies(orders: map<Uuid, Order>, w: WalletId)
    ensures Total(orders, TiesIn(w)) >= 0
    ensures Total(orders, TiesIn(w)) == 0
       <==> forall id :: id in orders && orders[id].ReserveWallet() == w ==> !OrderTie(orders[id])
  {
    hide Total, OrderTie;
    TotalAtLeast(orders, TiesIn(w));
    if forall id :: id in orders && orders[id].ReserveWallet() == w ==> !OrderTie(orders[id]) {
      TotalZero(orders, TiesIn(w));
    } else {
      var id :| id in orders && orders[id].ReserveWallet() == w && OrderTie(orders[id]);
      assert Weight(TiesIn(w), orders[id]) == 1;
    }
  }

  lemma SellNeverTies(o: Order)
    requires o.side == Sell
    ensures !OrderTie(o)
  {
    D.StoreExact(o.quantity);
  }

  lemma TiesAreBuys(orders: map<Uuid, Order>, w: WalletId)
    ensures Total(orders, TiesIn(w)) <= Total(orders, BuysIn(w))
  {
    forall o: Order ensures Weight(TiesIn(w), o) <= Weight(BuysIn(w), o) {
      if o.side == Sell {
        SellNeverTies(o);
      }
    }
    SumMonotone(orders, (i, o) => Weight(TiesIn(w), o), (i, o) => Weight(BuysIn(w), o));
  }

  /** Every transaction has exactly one debit and one credit, of one amount in one asset; entries belong to
      transactions and keys are not shared. */
  lemma DoubleEntry(cfg: Config, db0: Db, db: Db, t: Uuid)
    requires Reached(cfg, db0, db) && t in db.txs
    ensures HasPostings(db.entries, t) && IsTransfer(db.txs[t].kind, db.entries[EntryId(t, 1)], db.entries[EntryId(t, 2)])
    ensures forall k :: k in db.entries && k.tx == t ==> k == EntryId(t, 1) || k == EntryId(t, 2)
    ensures forall u :: u in db.txs && db.txs[t].key.Some? && db.txs[u].key == db.txs[t].key ==> u == t
  {
    hide Money, Life, OrdersOk;
    ReachedInv(cfg, db0, db);
  }

  // ---------------------------------------------------------------- conservation per asset

  ghost function AssetTotal(wallets: map<WalletId, Wallet>, asset: Uuid): int {
    Sum(wallets, (w: WalletId, row: Wallet) => InAsset(w, row, asset))
  }

  function InAsset(w: WalletId, row: Wallet, asset: Uuid): int {
    if w.asset == asset then row.available + row.locked else 0
  }

  lemma AssetTotalUpdate(wallets: map<WalletId, Wallet>, asset: Uuid, w: WalletId, row: Wallet)
    ensures AssetTotal(wallets[w := row], asset)
         == AssetTotal(wallets, asset) + InAsset(w, row, asset) - InAsset(w, WalletOr0(wallets, w), asset)
  {
    SumUpdate(wallets, (w: WalletId, row: Wallet) => InAsset(w, row, asset), w, row);
  }

  lemma FundConserves(db: Db, r: FundRequest, asset: Uuid, d: Draw, a: Uuid)
    requires FundGuard(db, r, asset, d)
    ensures AssetTotal(Funded(db, r, asset, d).wallets, a) == AssetTotal(db.wallets, a)
  {
    hide AssetTotal;
    var t, u := WalletId(Treasury, asset), WalletId(User(r.user), asset);
    var from := Wallet(db.wallets[t].available - r.amount, db.wallets[t].locked);
    var to := WalletOr0(db.wallets, u);
    AssetTotalUpdate(db.wallets, a, t, from);
    AssetTotalUpdate(db.wallets[t := from], a, u, Wallet(to.available + r.amount, to.locked));
  }

  lemma CreateConserves(cfg: Config, db: Db, o: Order, v: nat, d: Draw, a: Uuid)
    requires CreateGuard(cfg, db, o, v, d)
    ensures AssetTotal(Created(cfg, db, o, v, d).wallets, a) - Total(Created(cfg, db, o, v, d).orders, TiesOf(a))
         == AssetTotal(db.wallets, a) - Total(db.orders, TiesOf(a))
  {
    hide AssetTotal, Total, Exact;
    var w := o.ReserveWallet();
    ReserveMoves(db.wallets[w], v);
    AssetTotalUpdate(db.wallets, a, w, Reserve(db.wallets[w], v));
    TotalUpdate(db.orders, TiesOf(a), d.order, o);
  }

  lemma CancelConserves(db: Db, id: Uuid, d: Draw, a: Uuid)
    requires CancelGuard(db, id, d)
    ensures AssetTotal(CanceledDb(db, id, d).wallets, a) == AssetTotal(db.wallets, a)
    ensures Total(CanceledDb(db, id, d).orders, TiesOf(a)) == Total(db.orders, TiesOf(a))
  {
    hide AssetTotal, Total, Exact;
    var o := db.orders[id];
    var w := o.ReserveWallet();
    AssetTotalUpdate(db.wallets, a, w, Wallet(db.wallets[w].available + o.reserved, db.wallets[w].locked - o.reserved));
    TotalUpdate(db.orders, TiesOf(a), id, o.(status := Canceled));
  }

  lemma ServeConserves(cfg: Config, opening: map<WalletId, Wallet>, db: Db, inv: Invocation, a: Uuid)
    requires Inv(cfg, opening, db)
    ensures AssetTotal(Serve(cfg, db, inv).db.wallets, a) - Total(Serve(cfg, db, inv).db.orders, TiesOf(a))
         == AssetTotal(db.wallets, a) - Total(db.orders, TiesOf(a))
  {
    hide AssetTotal, Total, Inv, Exact, CreateGuard, FundGuard, CancelGuard;
    OnlyDoneChanges(cfg, db, inv);
    if Serve(cfg, db, inv).outcome.Done? {
      match inv.call
      case FundCall(r) =>
        var asset := ActiveAsset(cfg, r.assetCode).value;
        FundDone(cfg, db, r, inv.draw, asset);
        FundConserves(db, r, asset, inv.draw, a);
      case CreateCall(r) =>
        var base, quote := ActiveAsset(cfg, r.baseCode).value, ActiveAsset(cfg, r.quoteCode).value;
        InvLife(cfg, opening, db);
        CreateDone(cfg, db, r, inv.draw, base, quote);
        CreateConserves(cfg, db, NewOrder(r, base, quote, inv.draw.tx), Exact(r.side, r.price, r.quantity), inv.draw, a);
      case CancelCall(r) =>
        CancelDone(cfg, opening, db, r, inv.draw);
        CancelConserves(db, r.order, inv.draw, a);
    }
  }

  lemma InvLife(cfg: Config, opening: map<WalletId, Wallet>, db: Db)
    requires Inv(cfg, opening, db)
    ensures Life(db.orders, db.txs, db.events)
  {
  }

  /** Available plus locked over all wallets of an asset, treasury included, grows only by half-unit reservations. */
  lemma {:induction false} AssetConserved(cfg: Config, db0: Db, run: seq<Invocation>, a: Uuid)
    requires Initial(db0)
    ensures AssetTotal(Run(cfg, db0, run).wallets, a)
         == AssetTotal(db0.wallets, a) + Total(Run(cfg, db0, run).orders, TiesOf(a))
    decreases |run|
  {
    hide AssetTotal, Total, Inv, Serve;
    if run == [] {
      TotalZero(db0.orders, TiesOf(a));
    } else {
      var before := run[..|run| - 1];
      AssetConserved(cfg, db0, before, a);
      InitialInv(cfg, db0);
      RunKeeps(cfg, db0.wallets, db0, before);
      ServeConserves(cfg, db0.wallets, Run(cfg, db0, before), run[|run| - 1], a);
    }
  }
}
