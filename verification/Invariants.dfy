/** What every committed state satisfies: the redundant parts of the database agree. */
module Invariants {
  import opened Tables
  import opened Rows
  import opened Services
  import D = Decimals

  // ---------------------------------------------------------------- sums over orders

  /** What an order contributes to a wallet or an asset. */
  datatype Measure =
    | OpenIn(wallet: WalletId)   // reserved amount while OPEN
    | TiesIn(wallet: WalletId)   // one for every reservation that fell on a half unit
    | BuysIn(wallet: WalletId)   // one for every BUY
    | TiesOf(asset: Uuid)        // one for every reservation in the asset that fell on a half unit

  predicate OrderTie(o: Order) {
    D.Tie(Exact(o.side, o.price, o.quantity))
  }

  function Weight(m: Measure, o: Order): nat {
    match m
    case OpenIn(w) => if o.ReserveWallet() == w && o.status == Open then o.reserved else 0
    case TiesIn(w) => if o.ReserveWallet() == w && OrderTie(o) then 1 else 0
    case BuysIn(w) => if o.ReserveWallet() == w && o.side == Buy then 1 else 0
    case TiesOf(a) => if o.ReserveWallet().asset == a && OrderTie(o) then 1 else 0
  }

  ghost function Total(orders: map<Uuid, Order>, m: Measure): int {
    Sum(orders, (i, o) => Weight(m, o))
  }

  lemma TotalUpdate(orders: map<Uuid, Order>, m: Measure, id: Uuid, o: Order)
    ensures Total(orders[id := o], m)
         == Total(orders, m) + Weight(m, o) - (if id in orders then Weight(m, orders[id]) else 0)
  {
    SumUpdate(orders, (i, o) => Weight(m, o), id, o);
  }

  lemma TotalZero(orders: map<Uuid, Order>, m: Measure)
    requires forall id :: id in orders ==> Weight(m, orders[id]) == 0
    ensures Total(orders, m) == 0
  {
    SumOfZeros(orders, (i, o) => Weight(m, o));
  }

  lemma TotalAtLeast(orders: map<Uuid, Order>, m: Measure)
    ensures Total(orders, m) >= 0
    ensures forall id :: id in orders ==> Weight(m, orders[id]) <= Total(orders, m)
  {
    SumAtLeast(orders, (i, o) => Weight(m, o));
  }

  /** A measure of ones and zeros counts the orders with a one. */
  lemma TotalCounts(orders: map<Uuid, Order>, m: Measure, ones: set<Uuid>)
    requires forall id :: id in orders ==> Weight(m, orders[id]) == if id in ones then 1 else 0
    requires forall id :: id in ones ==> id in orders
    ensures Total(orders, m) == |ones|
  {
    SumCounts(orders, (i, o) => Weight(m, o), ones);
  }

  // ---------------------------------------------------------------- sums over entries

  /** What one entry does to a bucket of a wallet. */
  function Delta(e: Entry, w: WalletId, b: Bucket): int {
    if e.wallet != w || e.bucket != b then 0 else if e.entryType == Credit then e.amount else 0 - e.amount
  }

  /** Credits minus debits posted to one bucket of a wallet. */
  ghost function Net(entries: map<EntryId, Entry>, w: WalletId, b: Bucket): int {
    Sum(entries, (i, e) => Delta(e, w, b))
  }

  lemma NetAdd(entries: map<EntryId, Entry>, k: EntryId, e: Entry, w: WalletId, b: Bucket)
    requires k !in entries
    ensures Net(entries[k := e], w, b) == Net(entries, w, b) + Delta(e, w, b)
  {
    SumUpdate(entries, (i, e) => Delta(e, w, b), k, e);
  }

  lemma NetZero(entries: map<EntryId, Entry>, w: WalletId, b: Bucket)
    requires forall k :: k in entries ==> entries[k].wallet != w
    ensures Net(entries, w, b) == 0
  {
    SumOfZeros(entries, (i, e) => Delta(e, w, b));
  }

  // ---------------------------------------------------------------- the invariant

  /** The rows that name a wallet name one that exists. */
  ghost predicate WalletsExist(wallets: map<WalletId, Wallet>, orders: map<Uuid, Order>, entries: map<EntryId, Entry>) {
    && (forall id :: id in orders ==> orders[id].ReserveWallet() in wallets)
    && (forall k :: k in entries ==> entries[k].wallet in wallets)
  }

  /** Locked balance agrees with open orders. */
  ghost predicate LockedAgrees(wallets: map<WalletId, Wallet>, orders: map<Uuid, Order>) {
    forall w :: w in wallets ==> wallets[w].locked == Total(orders, OpenIn(w))
  }

  /** Each bucket is its opening value plus the ledger's credits minus debits; the available bucket is
      ahead by one unit for each reservation whose exact amount fell on a half unit. */
  ghost predicate BalancedAt(opening: map<WalletId, Wallet>, w: WalletId, wallet: Wallet,
                             entries: map<EntryId, Entry>, orders: map<Uuid, Order>)
  {
    && wallet.available == WalletOr0(opening, w).available + Net(entries, w, Available) + Total(orders, TiesIn(w))
    && wallet.locked == Net(entries, w, Locked)
  }

  ghost predicate Balanced(opening: map<WalletId, Wallet>, wallets: map<WalletId, Wallet>,
                           entries: map<EntryId, Entry>, orders: map<Uuid, Order>)
  {
    && (forall w :: w in opening ==> w in wallets)
    && forall w :: w in wallets ==> BalancedAt(opening, w, wallets[w], entries, orders)
  }

  /** A debit x and a credit y of the same amount in one asset, between the buckets that the kind names. */
  predicate IsTransfer(kind: TxKind, x: Entry, y: Entry) {
    && x.entryType == Debit && y.entryType == Credit && x.amount == y.amount && x.wallet.asset == y.wallet.asset
    && match kind
       case Funding => x.wallet.owner == Treasury && y.wallet.owner.User? && x.bucket == Available && y.bucket == Available
       case OrderReserve => x.wallet == y.wallet && x.bucket == Available && y.bucket == Locked
       case OrderRelease => x.wallet == y.wallet && x.bucket == Locked && y.bucket == Available
       case Trade => false
  }

  predicate HasPostings(entries: map<EntryId, Entry>, t: Uuid) {
    EntryId(t, 1) in entries && EntryId(t, 2) in entries
  }

  /** Every transaction has exactly two entries, a debit and a credit. */
  ghost predicate LedgerShape(entries: map<EntryId, Entry>, txs: map<Uuid, LedgerTx>) {
    && (forall k :: k in entries ==> k.tx in txs && (k.sequence == 1 || k.sequence == 2))
    && (forall t :: t in txs ==> HasPostings(entries, t)
                                 && IsTransfer(txs[t].kind, entries[EntryId(t, 1)], entries[EntryId(t, 2)]))
  }

  /** Posted, keyed unless a release, and no key used twice. */
  ghost predicate TxsOk(txs: map<Uuid, LedgerTx>) {
    && (forall t :: t in txs ==> txs[t].status == Posted && (txs[t].key.None? <==> txs[t].kind == OrderRelease))
    && (forall t, u | t in txs && u in txs && txs[t].key.Some? && txs[t].key == txs[u].key :: t == u)
  }

  ghost predicate OrderOk(cfg: Config, o: Order, txs: map<Uuid, LedgerTx>, entries: map<EntryId, Entry>) {
    && o.base != o.quote && KnownAsset(cfg, o.base) && KnownAsset(cfg, o.quote)
    && o.status != Filled
    && o.reserved == D.Store(Exact(o.side, o.price, o.quantity))
    && o.tx in txs && txs[o.tx] == ReserveTx(cfg, o)
    && HasPostings(entries, o.tx)
    && entries[EntryId(o.tx, 1)] == Entry(o.ReserveWallet(), Debit, Available, o.reserved)
    && entries[EntryId(o.tx, 2)] == Entry(o.ReserveWallet(), Credit, Locked, o.reserved)
  }

  /** Each order has its own reservation; no (user, key) has two orders; each reservation has its order. */
  ghost predicate OrdersOk(cfg: Config, orders: map<Uuid, Order>, txs: map<Uuid, LedgerTx>, entries: map<EntryId, Entry>) {
    && (forall id :: id in orders ==> OrderOk(cfg, orders[id], txs, entries))
    && (forall a, b | a in orders && b in orders && IsOrderOf(orders[a], orders[b].user, orders[b].key) :: a == b)
    && (forall a, b | a in orders && b in orders && orders[a].tx == orders[b].tx :: a == b)
    && (forall t :: t in txs && txs[t].kind == OrderReserve ==> HasReservation(orders, t))
  }

  ghost predicate HasReservation(orders: map<Uuid, Order>, tx: Uuid) {
    exists id :: id in orders && orders[id].tx == tx
  }

  predicate Releases(tx: LedgerTx, order: Uuid) {
    tx.kind == OrderRelease && tx.releases == Some(order)
  }

  ghost predicate HasRelease(txs: map<Uuid, LedgerTx>, order: Uuid) {
    exists t :: t in txs && Releases(txs[t], order)
  }

  /** An order has exactly one release transaction if it is CANCELED, and none otherwise. */
  ghost predicate ReleasesAgree(orders: map<Uuid, Order>, txs: map<Uuid, LedgerTx>) {
    && (forall t :: t in txs && txs[t].kind == OrderRelease ==>
          txs[t].releases.Some? && txs[t].releases.value in orders && orders[txs[t].releases.value].status == Canceled)
    && (forall t, u | t in txs && u in txs && txs[t].kind == OrderRelease && txs[t] == txs[u] :: t == u)
    && (forall id :: id in orders && orders[id].status == Canceled ==> HasRelease(txs, id))
  }

  predicate Reports(e: Event, kind: EventKind, order: Uuid) {
    e.kind == kind && e.order == order
  }

  ghost predicate HasReport(events: map<Uuid, Event>, kind: EventKind, order: Uuid) {
    exists e :: e in events && Reports(events[e], kind, order)
  }

  /** An order has exactly one `order.created`, and exactly one `order.canceled` if and only if it is CANCELED. */
  ghost predicate OutboxAgrees(orders: map<Uuid, Order>, events: map<Uuid, Event>) {
    && (forall e :: e in events ==>
          events[e].order in orders && (events[e].kind == OrderCanceled ==> orders[events[e].order].status == Canceled))
    && (forall e, f | e in events && f in events && Reports(events[e], events[f].kind, events[f].order) :: e == f)
    && (forall id :: id in orders ==> HasReport(events, OrderCreated, id))
    && (forall id :: id in orders && orders[id].status == Canceled ==> HasReport(events, OrderCanceled, id))
  }

  ghost predicate Money(opening: map<WalletId, Wallet>, wallets: map<WalletId, Wallet>,
                        orders: map<Uuid, Order>, entries: map<EntryId, Entry>)
  {
    && WalletsExist(wallets, orders, entries)
    && LockedAgrees(wallets, orders)
    && Balanced(opening, wallets, entries, orders)
  }

  ghost predicate Books(cfg: Config, orders: map<Uuid, Order>, txs: map<Uuid, LedgerTx>, entries: map<EntryId, Entry>) {
    && LedgerShape(entries, txs)
    && TxsOk(txs)
    && OrdersOk(cfg, orders, txs, entries)
  }

  ghost predicate Life(orders: map<Uuid, Order>, txs: map<Uuid, LedgerTx>, events: map<Uuid, Event>) {
    ReleasesAgree(orders, txs) && OutboxAgrees(orders, events)
  }

  ghost predicate Inv(cfg: Config, opening: map<WalletId, Wallet>, db: Db) {
    && Money(opening, db.wallets, db.orders, db.entries)
    && Books(cfg, db.orders, db.txs, db.entries)
    && Life(db.orders, db.txs, db.events)
  }

  /** A database before its first call: any balances, nothing locked, no rows elsewhere. */
  ghost predicate Initial(db: Db) {
    && db == Db(db.wallets, map[], map[], map[], map[])
    && forall w :: w in db.wallets ==> db.wallets[w].locked == 0
  }

  lemma InitialInv(cfg: Config, db: Db)
    requires Initial(db)
    ensures Inv(cfg, db.wallets, db)
  {
    forall m: Measure { TotalZero(db.orders, m); }
  }

  // ---------------------------------------------------------------- when a call writes

  ghost predicate FundGuard(db: Db, r: FundRequest, asset: Uuid, d: Draw) {
    && WalletId(Treasury, asset) in db.wallets
    && 0 < r.amount <= db.wallets[WalletId(Treasury, asset)].available
    && d.tx !in db.txs
    && (forall t :: t in db.txs ==> db.txs[t].key != Some(r.key))
  }

  ghost function Funded(db: Db, r: FundRequest, asset: Uuid, d: Draw): Db
    requires FundGuard(db, r, asset, d)
  {
    FundDb(db, r, asset, db.wallets[WalletId(Treasury, asset)], WalletOr0(db.wallets, WalletId(User(r.user), asset)), d)
  }

  ghost predicate CreateGuard(cfg: Config, db: Db, o: Order, v: nat, d: Draw) {
    && o.base != o.quote && KnownAsset(cfg, o.base) && KnownAsset(cfg, o.quote)
    && o.status == Open
    && v == Exact(o.side, o.price, o.quantity) && o.reserved == D.Store(v)
    && o.ReserveWallet() in db.wallets && Covers(db.wallets[o.ReserveWallet()], v)
    && o.tx == d.tx && d.tx !in db.txs
    && (forall t :: t in db.txs ==> db.txs[t].key != Some(LedgerKey(cfg, o.user, o.key)))
    && d.order !in db.orders
    && (forall id :: id in db.orders ==> !IsOrderOf(db.orders[id], o.user, o.key))
    && d.event !in db.events
  }

  ghost function Created(cfg: Config, db: Db, o: Order, v: nat, d: Draw): Db
    requires o.ReserveWallet() in db.wallets && Covers(db.wallets[o.ReserveWallet()], v)
  {
    CreateDb(cfg, db, o, v, db.wallets[o.ReserveWallet()], d)
  }

  ghost predicate CancelGuard(db: Db, id: Uuid, d: Draw) {
    && id in db.orders && db.orders[id].status == Open
    && db.orders[id].ReserveWallet() in db.wallets
    && db.orders[id].reserved <= db.wallets[db.orders[id].ReserveWallet()].locked
    && d.tx !in db.txs
    && d.event !in db.events
  }

  ghost function CanceledDb(db: Db, id: Uuid, d: Draw): Db
    requires CancelGuard(db, id, d)
  {
    CancelDb(db, id, db.orders[id], db.wallets[db.orders[id].ReserveWallet()], d)
  }
}
