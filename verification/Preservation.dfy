/** Every call keeps the invariant. */
module Preservation {
  import opened Tables
  import opened Rows
  import opened Services
  import opened Invariants
  import D = Decimals

  // ---------------------------------------------------------------- one more transaction

  lemma AddTransfer(entries: map<EntryId, Entry>, txs: map<Uuid, LedgerTx>, t: Uuid, tx: LedgerTx, x: Entry, y: Entry)
    requires LedgerShape(entries, txs) && t !in txs && IsTransfer(tx.kind, x, y)
    ensures LedgerShape(Post(entries, t, x, y), txs[t := tx])
  {
  }

  lemma AddTx(txs: map<Uuid, LedgerTx>, t: Uuid, tx: LedgerTx)
    requires TxsOk(txs) && t !in txs
    requires tx.status == Posted && (tx.key.None? <==> tx.kind == OrderRelease)
    requires tx.key.Some? ==> forall u :: u in txs ==> txs[u].key != tx.key
    ensures TxsOk(txs[t := tx])
  {
  }

  // ---------------------------------------------------------------- wallets

  /** A wallet row agrees with the ledger and with the open orders. */
  ghost predicate RowOk(opening: map<WalletId, Wallet>, w: WalletId, row: Wallet,
                        entries: map<EntryId, Entry>, orders: map<Uuid, Order>)
  {
    BalancedAt(opening, w, row, entries, orders) && row.locked == Total(orders, OpenIn(w))
  }

  ghost predicate RowsOk(opening: map<WalletId, Wallet>, wallets: map<WalletId, Wallet>, entries: map<EntryId, Entry>,
                         orders: map<Uuid, Order>)
  {
    (forall w :: w in opening ==> w in wallets) && forall w :: w in wallets ==> RowOk(opening, w, wallets[w], entries, orders)
  }

  /** `later` is `entries` after two more postings. */
  ghost predicate Posted2(entries: map<EntryId, Entry>, later: map<EntryId, Entry>, x: Entry, y: Entry) {
    forall w, b :: Net(later, w, b) == Net(entries, w, b) + Delta(x, w, b) + Delta(y, w, b)
  }

  lemma PostPosts(entries: map<EntryId, Entry>, t: Uuid, x: Entry, y: Entry)
    requires EntryId(t, 1) !in entries && EntryId(t, 2) !in entries
    ensures Posted2(entries, Post(entries, t, x, y), x, y)
  {
    forall w, b ensures Net(Post(entries, t, x, y), w, b) == Net(entries, w, b) + Delta(x, w, b) + Delta(y, w, b) {
      NetAdd(entries, EntryId(t, 1), x, w, b);
      NetAdd(entries[EntryId(t, 1) := x], EntryId(t, 2), y, w, b);
    }
  }

  /** A row stays in agreement when it moves by what the two new entries and the changed orders say. */
  lemma RowMoves(opening: map<WalletId, Wallet>, w: WalletId, row: Wallet, entries: map<EntryId, Entry>, orders: map<Uuid, Order>,
                 later: map<EntryId, Entry>, x: Entry, y: Entry, row': Wallet, orders': map<Uuid, Order>)
    requires RowOk(opening, w, row, entries, orders) && Posted2(entries, later, x, y)
    requires row'.available - row.available == Delta(x, w, Available) + Delta(y, w, Available)
                                             + Total(orders', TiesIn(w)) - Total(orders, TiesIn(w))
    requires row'.locked - row.locked == Delta(x, w, Locked) + Delta(y, w, Locked)
    requires row'.locked - row.locked == Total(orders', OpenIn(w)) - Total(orders, OpenIn(w))
    ensures RowOk(opening, w, row', later, orders')
  {
    assert Net(later, w, Available) == Net(entries, w, Available) + Delta(x, w, Available) + Delta(y, w, Available);
    assert Net(later, w, Locked) == Net(entries, w, Locked) + Delta(x, w, Locked) + Delta(y, w, Locked);
  }

  /** A wallet that does not exist yet agrees at zero. */
  lemma NoRowOk(opening: map<WalletId, Wallet>, wallets: map<WalletId, Wallet>, entries: map<EntryId, Entry>,
                orders: map<Uuid, Order>, u: WalletId)
    requires WalletsExist(wallets, orders, entries) && u !in wallets && u !in opening
    ensures RowOk(opening, u, Wallet(0, 0), entries, orders)
  {
    TotalZero(orders, OpenIn(u));
    TotalZero(orders, TiesIn(u));
    NetZero(entries, u, Available);
    NetZero(entries, u, Locked);
  }

  lemma FundRows(opening: map<WalletId, Wallet>, wallets: map<WalletId, Wallet>, entries: map<EntryId, Entry>,
                 orders: map<Uuid, Order>, later: map<EntryId, Entry>, x: Entry, y: Entry, from: Wallet, to: Wallet)
    requires WalletsExist(wallets, orders, entries) && RowsOk(opening, wallets, entries, orders)
    requires Posted2(entries, later, x, y)
    requires x.wallet != y.wallet && x.bucket == y.bucket == Available && x.entryType == Debit && y.entryType == Credit
    requires x.wallet in wallets && x.amount == y.amount
    requires from.available == wallets[x.wallet].available - x.amount && from.locked == wallets[x.wallet].locked
    requires to == Wallet(WalletOr0(wallets, y.wallet).available + y.amount, WalletOr0(wallets, y.wallet).locked)
    ensures RowsOk(opening, wallets[x.wallet := from][y.wallet := to], later, orders)
  {
    hide Net, Total;
    var after := wallets[x.wallet := from][y.wallet := to];
    if y.wallet !in wallets {
      NoRowOk(opening, wallets, entries, orders, y.wallet);
    }
    forall w | w in after ensures RowOk(opening, w, after[w], later, orders) {
      assert RowOk(opening, w, WalletOr0(wallets, w), entries, orders);
      RowMoves(opening, w, WalletOr0(wallets, w), entries, orders, later, x, y, after[w], orders);
    }
  }

  lemma RowsAgree(opening: map<WalletId, Wallet>, wallets: map<WalletId, Wallet>, entries: map<EntryId, Entry>, orders: map<Uuid, Order>)
    ensures RowsOk(opening, wallets, entries, orders)
       <==> LockedAgrees(wallets, orders) && Balanced(opening, wallets, entries, orders)
  {
  }

  /** What a reservation does to the two stored balances. */
  lemma ReserveMoves(w: Wallet, v: nat)
    requires Covers(w, v)
    ensures Reserve(w, v).available == w.available - D.Store(v) + (if D.Tie(v) then 1 else 0)
    ensures Reserve(w, v).locked == w.locked + D.Store(v)
  {
    D.StoreSubtracts(w.available, v);
    D.StoreAdds(w.locked, v);
  }

  /** The order `o` replaces or joins the orders, and only its reserve wallet moves. */
  lemma OrderRows(opening: map<WalletId, Wallet>, wallets: map<WalletId, Wallet>, entries: map<EntryId, Entry>,
                  orders: map<Uuid, Order>, id: Uuid, o: Order, later: map<EntryId, Entry>, x: Entry, y: Entry, row: Wallet)
    requires RowsOk(opening, wallets, entries, orders) && Posted2(entries, later, x, y)
    requires o.ReserveWallet() in wallets && x.wallet == y.wallet == o.ReserveWallet()
    requires id in orders ==> orders[id].ReserveWallet() == o.ReserveWallet()
    requires row.available - wallets[o.ReserveWallet()].available
          == Delta(x, x.wallet, Available) + Delta(y, x.wallet, Available)
             + Weight(TiesIn(x.wallet), o) - (if id in orders then Weight(TiesIn(x.wallet), orders[id]) else 0)
    requires row.locked - wallets[o.ReserveWallet()].locked
          == Delta(x, x.wallet, Locked) + Delta(y, x.wallet, Locked)
    requires row.locked - wallets[o.ReserveWallet()].locked
          == Weight(OpenIn(x.wallet), o) - (if id in orders then Weight(OpenIn(x.wallet), orders[id]) else 0)
    ensures RowsOk(opening, wallets[o.ReserveWallet() := row], later, orders[id := o])
  {
    var after := wallets[o.ReserveWallet() := row];
    forall w | w in after ensures RowOk(opening, w, after[w], later, orders[id := o]) {
      TotalUpdate(orders, OpenIn(w), id, o);
      TotalUpdate(orders, TiesIn(w), id, o);
      RowMoves(opening, w, wallets[w], entries, orders, later, x, y, after[w], orders[id := o]);
    }
  }

  // ---------------------------------------------------------------- orders

  lemma OrdersKept(cfg: Config, orders: map<Uuid, Order>, txs: map<Uuid, LedgerTx>, entries: map<EntryId, Entry>,
                   t: Uuid, tx: LedgerTx, x: Entry, y: Entry)
    requires OrdersOk(cfg, orders, txs, entries) && t !in txs && tx.kind != OrderReserve
    ensures OrdersOk(cfg, orders, txs[t := tx], Post(entries, t, x, y))
  {
    forall id | id in orders ensures OrderOk(cfg, orders[id], txs[t := tx], Post(entries, t, x, y)) {
      assert OrderOk(cfg, orders[id], txs, entries);
    }
  }

  lemma OrderAdded(cfg: Config, orders: map<Uuid, Order>, txs: map<Uuid, LedgerTx>, entries: map<EntryId, Entry>,
                   id: Uuid, o: Order, x: Entry, y: Entry)
    requires OrdersOk(cfg, orders, txs, entries) && o.tx !in txs && id !in orders
    requires OrderOk(cfg, o, txs[o.tx := ReserveTx(cfg, o)], Post(entries, o.tx, x, y))
    requires forall a :: a in orders ==> !IsOrderOf(orders[a], o.user, o.key)
    ensures OrdersOk(cfg, orders[id := o], txs[o.tx := ReserveTx(cfg, o)], Post(entries, o.tx, x, y))
  {
    var txs' := txs[o.tx := ReserveTx(cfg, o)];
    forall a | a in orders ensures OrderOk(cfg, orders[a], txs', Post(entries, o.tx, x, y)) && orders[a].tx != o.tx {
      assert OrderOk(cfg, orders[a], txs, entries);
    }
    forall t | t in txs' && txs'[t].kind == OrderReserve ensures HasReservation(orders[id := o], t) {
      ReservationAdded(orders, id, o, t);
    }
  }

  lemma ReservationAdded(orders: map<Uuid, Order>, id: Uuid, o: Order, t: Uuid)
    requires t == o.tx || HasReservation(orders, t)
    requires id in orders ==> orders[id].tx == o.tx
    ensures HasReservation(orders[id := o], t)
  {
    if t == o.tx {
      assert orders[id := o][id].tx == t;
    } else {
      var a :| a in orders && orders[a].tx == t;
      assert orders[id := o][a].tx == t;
    }
  }

  lemma OrderClosed(cfg: Config, orders: map<Uuid, Order>, txs: map<Uuid, LedgerTx>, entries: map<EntryId, Entry>, id: Uuid)
    requires OrdersOk(cfg, orders, txs, entries) && id in orders
    ensures OrdersOk(cfg, orders[id := orders[id].(status := Canceled)], txs, entries)
  {
    var closed := orders[id].(status := Canceled);
    assert OrderOk(cfg, orders[id], txs, entries);
    assert OrderOk(cfg, closed, txs, entries);
    forall t | t in txs && txs[t].kind == OrderReserve ensures HasReservation(orders[id := closed], t) {
      ReservationAdded(orders, id, closed, t);
    }
  }

  // ---------------------------------------------------------------- releases and events

  lemma ReleaseKept(txs: map<Uuid, LedgerTx>, t: Uuid, tx: LedgerTx, id: Uuid)
    requires t !in txs && (HasRelease(txs, id) || Releases(tx, id))
    ensures HasRelease(txs[t := tx], id)
  {
    if HasRelease(txs, id) {
      var u :| u in txs && Releases(txs[u], id);
      assert txs[t := tx][u] == txs[u];
    } else {
      assert txs[t := tx][t] == tx;
    }
  }

  /** A transaction that is not a release, and possibly a new open order. */
  lemma ReleasesKept(orders: map<Uuid, Order>, txs: map<Uuid, LedgerTx>, t: Uuid, tx: LedgerTx, orders': map<Uuid, Order>)
    requires ReleasesAgree(orders, txs) && t !in txs && tx.kind != OrderRelease
    requires forall id :: id in orders ==> id in orders' && orders'[id] == orders[id]
    requires forall id :: id in orders' && id !in orders ==> orders'[id].status == Open
    ensures ReleasesAgree(orders', txs[t := tx])
  {
    forall id | id in orders' && orders'[id].status == Canceled ensures HasRelease(txs[t := tx], id) {
      ReleaseKept(txs, t, tx, id);
    }
  }

  lemma ReleaseAdded(orders: map<Uuid, Order>, txs: map<Uuid, LedgerTx>, t: Uuid, id: Uuid)
    requires ReleasesAgree(orders, txs) && t !in txs && id in orders && orders[id].status == Open
    ensures ReleasesAgree(orders[id := orders[id].(status := Canceled)],
                          txs[t := LedgerTx(None, OrderRelease, Posted, Some(id))])
  {
    var tx := LedgerTx(None, OrderRelease, Posted, Some(id));
    var orders' := orders[id := orders[id].(status := Canceled)];
    forall a | a in orders' && orders'[a].status == Canceled ensures HasRelease(txs[t := tx], a) {
      ReleaseKept(txs, t, tx, a);
    }
  }

  lemma ReportKept(events: map<Uuid, Event>, e: Uuid, ev: Event, kind: EventKind, id: Uuid)
    requires e !in events && (HasReport(events, kind, id) || Reports(ev, kind, id))
    ensures HasReport(events[e := ev], kind, id)
  {
    if HasReport(events, kind, id) {
      var f :| f in events && Reports(events[f], kind, id);
      assert events[e := ev][f] == events[f];
    } else {
      assert events[e := ev][e] == ev;
    }
  }

  lemma ReportAdded(orders: map<Uuid, Order>, events: map<Uuid, Event>, e: Uuid, ev: Event, o: Order)
    requires OutboxAgrees(orders, events) && e !in events
    requires ev.kind == OrderCreated ==> ev.order !in orders && o.status == Open
    requires ev.kind == OrderCanceled ==> ev.order in orders && orders[ev.order].status == Open && o.status == Canceled
    ensures OutboxAgrees(orders[ev.order := o], events[e := ev])
  {
    hide HasReport;
    var orders' := orders[ev.order := o];
    forall a | a in orders' ensures HasReport(events[e := ev], OrderCreated, a) {
      ReportKept(events, e, ev, OrderCreated, a);
    }
    forall a | a in orders' && orders'[a].status == Canceled ensures HasReport(events[e := ev], OrderCanceled, a) {
      ReportKept(events, e, ev, OrderCanceled, a);
    }
  }

  // ---------------------------------------------------------------- the three calls

  lemma BooksKept(cfg: Config, orders: map<Uuid, Order>, txs: map<Uuid, LedgerTx>, entries: map<EntryId, Entry>,
                  t: Uuid, tx: LedgerTx, x: Entry, y: Entry)
    requires Books(cfg, orders, txs, entries) && t !in txs && tx.kind != OrderReserve && IsTransfer(tx.kind, x, y)
    requires tx.status == Posted && (tx.key.None? <==> tx.kind == OrderRelease)
    requires tx.key.Some? ==> forall u :: u in txs ==> txs[u].key != tx.key
    ensures Books(cfg, orders, txs[t := tx], Post(entries, t, x, y))
  {
    AddTransfer(entries, txs, t, tx, x, y);
    AddTx(txs, t, tx);
    OrdersKept(cfg, orders, txs, entries, t, tx, x, y);
  }

  lemma NoPostings(cfg: Config, opening: map<WalletId, Wallet>, db: Db, t: Uuid)
    requires Inv(cfg, opening, db) && t !in db.txs
    ensures EntryId(t, 1) !in db.entries && EntryId(t, 2) !in db.entries
  {
  }

  lemma FundMoney(opening: map<WalletId, Wallet>, wallets: map<WalletId, Wallet>, entries: map<EntryId, Entry>,
                  orders: map<Uuid, Order>, t: Uuid, x: Entry, y: Entry, from: Wallet, to: Wallet)
    requires Money(opening, wallets, orders, entries)
    requires EntryId(t, 1) !in entries && EntryId(t, 2) !in entries
    requires x.wallet != y.wallet && x.bucket == y.bucket == Available && x.entryType == Debit && y.entryType == Credit
    requires x.wallet in wallets && x.amount == y.amount
    requires from.available == wallets[x.wallet].available - x.amount && from.locked == wallets[x.wallet].locked
    requires to == Wallet(WalletOr0(wallets, y.wallet).available + y.amount, WalletOr0(wallets, y.wallet).locked)
    ensures Money(opening, wallets[x.wallet := from][y.wallet := to], orders, Post(entries, t, x, y))
  {
    RowsAgree(opening, wallets, entries, orders);
    PostPosts(entries, t, x, y);
    FundRows(opening, wallets, entries, orders, Post(entries, t, x, y), x, y, from, to);
    RowsAgree(opening, wallets[x.wallet := from][y.wallet := to], Post(entries, t, x, y), orders);
  }

  lemma OrderMoney(opening: map<WalletId, Wallet>, wallets: map<WalletId, Wallet>, entries: map<EntryId, Entry>,
                   orders: map<Uuid, Order>, id: Uuid, o: Order, t: Uuid, x: Entry, y: Entry, row: Wallet)
    requires Money(opening, wallets, orders, entries)
    requires EntryId(t, 1) !in entries && EntryId(t, 2) !in entries
    requires o.ReserveWallet() in wallets && x.wallet == y.wallet == o.ReserveWallet()
    requires id in orders ==> orders[id].ReserveWallet() == o.ReserveWallet()
    requires row.available - wallets[o.ReserveWallet()].available
          == Delta(x, x.wallet, Available) + Delta(y, x.wallet, Available)
             + Weight(TiesIn(x.wallet), o) - (if id in orders then Weight(TiesIn(x.wallet), orders[id]) else 0)
    requires row.locked - wallets[o.ReserveWallet()].locked
          == Delta(x, x.wallet, Locked) + Delta(y, x.wallet, Locked)
    requires row.locked - wallets[o.ReserveWallet()].locked
          == Weight(OpenIn(x.wallet), o) - (if id in orders then Weight(OpenIn(x.wallet), orders[id]) else 0)
    ensures Money(opening, wallets[o.ReserveWallet() := row], orders[id := o], Post(entries, t, x, y))
  {
    RowsAgree(opening, wallets, entries, orders);
    PostPosts(entries, t, x, y);
    OrderRows(opening, wallets, entries, orders, id, o, Post(entries, t, x, y), x, y, row);
    RowsAgree(opening, wallets[o.ReserveWallet() := row], Post(entries, t, x, y), orders[id := o]);
  }

  lemma FundKeeps(cfg: Config, opening: map<WalletId, Wallet>, db: Db, r: FundRequest, asset: Uuid, d: Draw)
    requires Inv(cfg, opening, db) && FundGuard(db, r, asset, d)
    ensures Inv(cfg, opening, Funded(db, r, asset, d))
  {
    hide Money, Books, ReleasesAgree, OutboxAgrees;
    NoPostings(cfg, opening, db, d.tx);
    var t, u := WalletId(Treasury, asset), WalletId(User(r.user), asset);
    var x, y := Entry(t, Debit, Available, r.amount), Entry(u, Credit, Available, r.amount);
    var tx := LedgerTx(Some(r.key), Funding, Posted, None);
    FundMoney(opening, db.wallets, db.entries, db.orders, d.tx, x, y,
              Wallet(db.wallets[t].available - r.amount, db.wallets[t].locked),
              Wallet(WalletOr0(db.wallets, u).available + r.amount, WalletOr0(db.wallets, u).locked));
    BooksKept(cfg, db.orders, db.txs, db.entries, d.tx, tx, x, y);
    ReleasesKept(db.orders, db.txs, d.tx, tx, db.orders);
  }

  lemma CreateMoney(opening: map<WalletId, Wallet>, wallets: map<WalletId, Wallet>, entries: map<EntryId, Entry>,
                    orders: map<Uuid, Order>, id: Uuid, o: Order, v: nat, x: Entry, y: Entry)
    requires Money(opening, wallets, orders, entries) && id !in orders
    requires EntryId(o.tx, 1) !in entries && EntryId(o.tx, 2) !in entries
    requires o.status == Open && o.reserved == D.Store(v) && v == Exact(o.side, o.price, o.quantity)
    requires o.ReserveWallet() in wallets && Covers(wallets[o.ReserveWallet()], v)
    requires x == Entry(o.ReserveWallet(), Debit, Available, o.reserved) && y == Entry(o.ReserveWallet(), Credit, Locked, o.reserved)
    ensures Money(opening, wallets[o.ReserveWallet() := Reserve(wallets[o.ReserveWallet()], v)], orders[id := o], Post(entries, o.tx, x, y))
  {
    ReserveMoves(wallets[o.ReserveWallet()], v);
    OrderMoney(opening, wallets, entries, orders, id, o, o.tx, x, y, Reserve(wallets[o.ReserveWallet()], v));
  }

  lemma CreateBooks(cfg: Config, orders: map<Uuid, Order>, txs: map<Uuid, LedgerTx>, entries: map<EntryId, Entry>,
                    id: Uuid, o: Order, x: Entry, y: Entry)
    requires Books(cfg, orders, txs, entries) && id !in orders && o.tx !in txs
    requires o.base != o.quote && KnownAsset(cfg, o.base) && KnownAsset(cfg, o.quote)
    requires o.status == Open && o.reserved == D.Store(Exact(o.side, o.price, o.quantity))
    requires forall u :: u in txs ==> txs[u].key != Some(LedgerKey(cfg, o.user, o.key))
    requires forall a :: a in orders ==> !IsOrderOf(orders[a], o.user, o.key)
    requires x == Entry(o.ReserveWallet(), Debit, Available, o.reserved) && y == Entry(o.ReserveWallet(), Credit, Locked, o.reserved)
    ensures Books(cfg, orders[id := o], txs[o.tx := ReserveTx(cfg, o)], Post(entries, o.tx, x, y))
  {
    AddTransfer(entries, txs, o.tx, ReserveTx(cfg, o), x, y);
    AddTx(txs, o.tx, ReserveTx(cfg, o));
    OrderAdded(cfg, orders, txs, entries, id, o, x, y);
  }

  lemma CreateKeeps(cfg: Config, opening: map<WalletId, Wallet>, db: Db, o: Order, v: nat, d: Draw)
    requires Inv(cfg, opening, db) && CreateGuard(cfg, db, o, v, d)
    ensures Inv(cfg, opening, Created(cfg, db, o, v, d))
  {
    hide Money, Books, ReleasesAgree, OutboxAgrees;
    NoPostings(cfg, opening, db, d.tx);
    var x, y := Entry(o.ReserveWallet(), Debit, Available, o.reserved), Entry(o.ReserveWallet(), Credit, Locked, o.reserved);
    CreateMoney(opening, db.wallets, db.entries, db.orders, d.order, o, v, x, y);
    CreateBooks(cfg, db.orders, db.txs, db.entries, d.order, o, x, y);
    ReleasesKept(db.orders, db.txs, o.tx, ReserveTx(cfg, o), db.orders[d.order := o]);
    ReportAdded(db.orders, db.events, d.event, Event(OrderCreated, d.order, d.now, None, 0, None), o);
  }

  lemma CancelMoney(opening: map<WalletId, Wallet>, wallets: map<WalletId, Wallet>, entries: map<EntryId, Entry>,
                    orders: map<Uuid, Order>, id: Uuid, row: Wallet, t: Uuid, x: Entry, y: Entry)
    requires Money(opening, wallets, orders, entries) && id in orders && orders[id].status == Open
    requires EntryId(t, 1) !in entries && EntryId(t, 2) !in entries
    requires x == Entry(orders[id].ReserveWallet(), Debit, Locked, orders[id].reserved)
    requires y == Entry(orders[id].ReserveWallet(), Credit, Available, orders[id].reserved)
    requires row.available == wallets[orders[id].ReserveWallet()].available + orders[id].reserved
    requires row.locked == wallets[orders[id].ReserveWallet()].locked - orders[id].reserved
    ensures Money(opening, wallets[orders[id].ReserveWallet() := row], orders[id := orders[id].(status := Canceled)], Post(entries, t, x, y))
  {
    OrderMoney(opening, wallets, entries, orders, id, orders[id].(status := Canceled), t, x, y, row);
  }

  lemma BooksClosed(cfg: Config, orders: map<Uuid, Order>, txs: map<Uuid, LedgerTx>, entries: map<EntryId, Entry>, id: Uuid)
    requires Books(cfg, orders, txs, entries) && id in orders
    ensures Books(cfg, orders[id := orders[id].(status := Canceled)], txs, entries)
  {
    OrderClosed(cfg, orders, txs, entries, id);
  }

  lemma CancelKeeps(cfg: Config, opening: map<WalletId, Wallet>, db: Db, id: Uuid, d: Draw)
    requires Inv(cfg, opening, db) && CancelGuard(db, id, d)
    ensures Inv(cfg, opening, CanceledDb(db, id, d))
  {
    hide Money, Books, ReleasesAgree, OutboxAgrees;
    NoPostings(cfg, opening, db, d.tx);
    var o := db.orders[id];
    var w := o.ReserveWallet();
    var x, y := Entry(w, Debit, Locked, o.reserved), Entry(w, Credit, Available, o.reserved);
    var tx := LedgerTx(None, OrderRelease, Posted, Some(id));
    CancelMoney(opening, db.wallets, db.entries, db.orders, id,
                Wallet(db.wallets[w].available + o.reserved, db.wallets[w].locked - o.reserved), d.tx, x, y);
    BooksKept(cfg, db.orders, db.txs, db.entries, d.tx, tx, x, y);
    BooksClosed(cfg, db.orders, db.txs[d.tx := tx], Post(db.entries, d.tx, x, y), id);
    ReleaseAdded(db.orders, db.txs, d.tx, id);
    ReportAdded(db.orders, db.events, d.event, Event(OrderCanceled, id, d.now, None, 0, None), o.(status := Canceled));
  }
}
