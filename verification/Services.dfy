/** What each service call does to the committed database when it runs alone. */
module Services {
  import opened Tables
  import opened Rows
  import D = Decimals

  // ---------------------------------------------------------------- lookups

  predicate IsOrderOf(o: Order, user: Uuid, key: string) {
    o.user == user && o.key == key
  }

  /** SELECT from orders by (user_id, idempotency_key). */
  ghost function OrderFor(orders: map<Uuid, Order>, user: Uuid, key: string): (r: Option<Uuid>)
    ensures r.Some? ==> r.value in orders && IsOrderOf(orders[r.value], user, key)
    ensures r.None? ==> forall id :: id in orders ==> !IsOrderOf(orders[id], user, key)
  {
    if exists id :: id in orders && IsOrderOf(orders[id], user, key) then
      var id :| id in orders && IsOrderOf(orders[id], user, key);
      Some(id)
    else
      None
  }

  /** SELECT from ledger_transactions by idempotency_key. */
  ghost function TxFor(txs: map<Uuid, LedgerTx>, key: string): (r: Option<Uuid>)
    ensures r.Some? ==> r.value in txs && txs[r.value].key == Some(key)
    ensures r.None? ==> forall id :: id in txs ==> txs[id].key != Some(key)
  {
    if exists id :: id in txs && txs[id].key == Some(key) then
      var id :| id in txs && txs[id].key == Some(key);
      Some(id)
    else
      None
  }

  predicate IsFundingCredit(e: Entry, wallet: WalletId, amount: int) {
    e.entryType == Credit && e.bucket == Available && e.amount == amount && e.wallet == wallet
  }

  ghost predicate HasFundingCredit(entries: map<EntryId, Entry>, tx: Uuid, wallet: WalletId, amount: int) {
    exists k :: k in entries && k.tx == tx && IsFundingCredit(entries[k], wallet, amount)
  }

  /** The answer of a replay lookup: nothing found, an earlier row with the same data, or other data. */
  datatype Replay = Fresh | Earlier(id: Uuid) | Mismatch

  ghost function FundingReplay(db: Db, user: Uuid, asset: Uuid, amount: int, key: string): Replay {
    match TxFor(db.txs, key)
    case None => Fresh
    case Some(tx) =>
      if db.txs[tx].kind != Funding || db.txs[tx].status != Posted then Mismatch
      else if HasFundingCredit(db.entries, tx, WalletId(User(user), asset), amount) then Earlier(tx)
      else Mismatch
  }

  predicate SameOrderData(o: Order, base: Uuid, quote: Uuid, side: Side, price: int, quantity: int) {
    o.base == base && o.quote == quote && o.side == side && o.price == price && o.quantity == quantity
  }

  ghost function OrderReplay(orders: map<Uuid, Order>, r: CreateRequest, base: Uuid, quote: Uuid): Replay {
    match OrderFor(orders, r.user, r.key)
    case None => Fresh
    case Some(id) =>
      if SameOrderData(orders[id], base, quote, r.side, r.price, r.quantity) then Earlier(id) else Mismatch
  }

  predicate IsEventOf(e: Event, kind: EventKind, order: Uuid) {
    EventKey(e.kind, e.order) == EventKey(kind, order)
  }

  ghost predicate HasEvent(events: map<Uuid, Event>, kind: EventKind, order: Uuid) {
    exists id :: id in events && IsEventOf(events[id], kind, order)
  }

  // ---------------------------------------------------------------- amounts

  /** The exact reservation, in units of 10^-36: price times quantity for a BUY, the quantity for a SELL. */
  function Exact(side: Side, price: Positive, quantity: Positive): (v: nat)
    ensures v > 0
  {
    if side == Buy then price * quantity else D.Scale(quantity)
  }

  predicate Covers(w: Wallet, v: nat) {
    v <= D.Scale(w.available)
  }

  // ---------------------------------------------------------------- writes of each call

  function WalletOr0(wallets: map<WalletId, Wallet>, id: WalletId): Wallet {
    if id in wallets then wallets[id] else Wallet(0, 0)
  }

  /** The entries with the debit x and the credit y of transaction t added. */
  function Post(entries: map<EntryId, Entry>, t: Uuid, x: Entry, y: Entry): map<EntryId, Entry> {
    entries[EntryId(t, 1) := x][EntryId(t, 2) := y]
  }

  /** Treasury to user: both balances move, one transaction, one debit and one credit.  `treasury` and `user`
      are the rows as the call read them. */
  function FundDb(db: Db, r: FundRequest, asset: Uuid, treasury: Wallet, user: Wallet, d: Draw): Db
    requires 0 < r.amount <= treasury.available
  {
    var t, u := WalletId(Treasury, asset), WalletId(User(r.user), asset);
    Db(db.wallets[t := Wallet(treasury.available - r.amount, treasury.locked)]
                 [u := Wallet(user.available + r.amount, user.locked)],
       db.orders,
       db.txs[d.tx := LedgerTx(Some(r.key), Funding, Posted, None)],
       Post(db.entries, d.tx, Entry(t, Debit, Available, r.amount), Entry(u, Credit, Available, r.amount)),
       db.events)
  }

  function ReserveWalletOf(r: CreateRequest, base: Uuid, quote: Uuid): WalletId {
    WalletId(User(r.user), if r.side == Buy then quote else base)
  }

  function NewOrder(r: CreateRequest, base: Uuid, quote: Uuid, tx: Uuid): (o: Order)
    requires r.price > 0 && r.quantity > 0 && D.Store(Exact(r.side, r.price, r.quantity)) > 0
    ensures o.ReserveWallet() == ReserveWalletOf(r, base, quote)
  {
    Order(r.user, base, quote, r.key, tx, r.side, Open, r.price, r.quantity,
          D.Store(Exact(r.side, r.price, r.quantity)))
  }

  /** The amounts of a creation can be stored. */
  predicate Storable(r: CreateRequest) {
    r.price > 0 && r.quantity > 0 && D.Store(Exact(r.side, r.price, r.quantity)) > 0
  }

  function ReserveTx(cfg: Config, o: Order): LedgerTx {
    LedgerTx(Some(LedgerKey(cfg, o.user, o.key)), OrderReserve, Posted, None)
  }

  /** The wallet after a reservation of the exact amount v: both balances are rounded as they are stored. */
  function Reserve(w: Wallet, v: nat): Wallet
    requires Covers(w, v)
  {
    Wallet(D.Store(D.Scale(w.available) - v), D.Store(D.Scale(w.locked) + v))
  }

  /** Available to locked in the reserve wallet, the order, its transaction and its `order.created`.
      `wallet` is the row as the call read it, v the exact amount. */
  function CreateDb(cfg: Config, db: Db, o: Order, v: nat, wallet: Wallet, d: Draw): Db
    requires Covers(wallet, v)
  {
    var w := o.ReserveWallet();
    Db(db.wallets[w := Reserve(wallet, v)],
       db.orders[d.order := o],
       db.txs[o.tx := ReserveTx(cfg, o)],
       Post(db.entries, o.tx, Entry(w, Debit, Available, o.reserved), Entry(w, Credit, Locked, o.reserved)),
       db.events[d.event := Event(OrderCreated, d.order, d.now, None, 0, None)])
  }

  /** Locked back to available, the order canceled, a release transaction and `order.canceled`.
      `o` and `wallet` are the rows as the call read them. */
  function CancelDb(db: Db, id: Uuid, o: Order, wallet: Wallet, d: Draw): Db
    requires o.reserved <= wallet.locked
  {
    var w := o.ReserveWallet();
    Db(db.wallets[w := Wallet(wallet.available + o.reserved, wallet.locked - o.reserved)],
       db.orders[id := o.(status := Canceled)],
       db.txs[d.tx := LedgerTx(None, OrderRelease, Posted, Some(id))],
       Post(db.entries, d.tx, Entry(w, Debit, Locked, o.reserved), Entry(w, Credit, Available, o.reserved)),
       db.events[d.event := Event(OrderCanceled, id, d.now, None, 0, None)])
  }

  // ---------------------------------------------------------------- the calls

  ghost function Fund(cfg: Config, db: Db, r: FundRequest, d: Draw): Result {
    if r.amount <= 0 then Result(db, Refused(InvalidRequest)) else
    match ActiveAsset(cfg, r.assetCode)
    case None => Result(db, Refused(AssetNotFound))
    case Some(asset) =>
      match FundingReplay(db, r.user, asset, r.amount, r.key)
      case Mismatch => Result(db, Refused(IdempotencyConflict))
      case Earlier(tx) => Result(db, Replayed(tx))
      case Fresh =>
        var treasury := WalletId(Treasury, asset);
        if treasury !in db.wallets then Result(db, Refused(TreasuryNotInitialized))
        else if db.wallets[treasury].available < r.amount then Result(db, Refused(InsufficientTreasury))
        else if d.tx in db.txs then Result(db, Refused(IntegrityViolation))
        else
          var user := WalletOr0(db.wallets, WalletId(User(r.user), asset));
          Result(FundDb(db, r, asset, db.wallets[treasury], user, d), Done(d.tx))
  }

  ghost function Create(cfg: Config, db: Db, r: CreateRequest, d: Draw): Result {
    match (ActiveAsset(cfg, r.baseCode), ActiveAsset(cfg, r.quoteCode))
    case (Some(base), Some(quote)) =>
      if base == quote || r.price <= 0 || r.quantity <= 0 then Result(db, Refused(InvalidRequest)) else (
      match OrderReplay(db.orders, r, base, quote)
      case Mismatch => Result(db, Refused(IdempotencyConflict))
      case Earlier(id) => Result(db, Replayed(id))
      case Fresh => Reservation(cfg, db, r, base, quote, d))
    case _ => Result(db, Refused(AssetNotFound))
  }

  /** The part of a creation that follows the replay lookups. */
  ghost function Reservation(cfg: Config, db: Db, r: CreateRequest, base: Uuid, quote: Uuid, d: Draw): Result
    requires r.price > 0 && r.quantity > 0
  {
    var w := ReserveWalletOf(r, base, quote);
    var v := Exact(r.side, r.price, r.quantity);
    if w !in db.wallets || !Covers(db.wallets[w], v) then Result(db, Refused(InsufficientAvailable))
    else if d.tx in db.txs || TxFor(db.txs, LedgerKey(cfg, r.user, r.key)).Some? then
      Result(db, Refused(IntegrityViolation))
    else if D.Store(v) == 0 || d.order in db.orders then Result(db, Refused(IntegrityViolation))
    else if d.event in db.events || HasEvent(db.events, OrderCreated, d.order) then
      Result(db, Refused(IntegrityViolation))
    else
      var o := NewOrder(r, base, quote, d.tx);
      Result(CreateDb(cfg, db, o, v, db.wallets[w], d), Done(d.order))
  }

  ghost function Cancel(cfg: Config, db: Db, r: CancelRequest, d: Draw): Result {
    if r.order !in db.orders || db.orders[r.order].user != r.user then Result(db, Refused(OrderNotFound)) else
    var o := db.orders[r.order];
    var w := o.ReserveWallet();
    if !KnownAsset(cfg, w.asset) then Result(db, Refused(ReservationState))
    else if o.status == Canceled then Result(db, Replayed(r.order))
    else if o.status != Open then Result(db, Refused(OrderNotCancelable))
    else if w !in db.wallets || db.wallets[w].locked < o.reserved then Result(db, Refused(ReservationState))
    else if d.tx in db.txs then Result(db, Refused(IntegrityViolation))
    else if d.event in db.events || HasEvent(db.events, OrderCanceled, r.order) then
      Result(db, Refused(IntegrityViolation))
    else Result(CancelDb(db, r.order, o, db.wallets[w], d), Done(r.order))
  }

  ghost function Serve(cfg: Config, db: Db, inv: Invocation): Result {
    match inv.call
    case FundCall(r) => Fund(cfg, db, r, inv.draw)
    case CreateCall(r) => Create(cfg, db, r, inv.draw)
    case CancelCall(r) => Cancel(cfg, db, r, inv.draw)
  }

  /** A call that is not Done leaves the database as it was. */
  lemma OnlyDoneChanges(cfg: Config, db: Db, inv: Invocation)
    ensures !Serve(cfg, db, inv).outcome.Done? ==> Serve(cfg, db, inv).db == db
  {
  }

  // ---------------------------------------------------------------- serial runs

  /** The calls of `run` one after the other, each alone. */
  ghost function Run(cfg: Config, db: Db, run: seq<Invocation>): Db
    decreases |run|
  {
    if run == [] then db else Serve(cfg, Run(cfg, db, run[..|run| - 1]), run[|run| - 1]).db
  }

  /** The answer to the k-th call. */
  ghost function Answer(cfg: Config, db: Db, run: seq<Invocation>, k: nat): Outcome
    requires k < |run|
  {
    Serve(cfg, Run(cfg, db, run[..k]), run[k]).outcome
  }

  lemma {:induction false} RunConcat(cfg: Config, db: Db, a: seq<Invocation>, b: seq<Invocation>)
    ensures Run(cfg, db, a + b) == Run(cfg, Run(cfg, db, a), b)
    decreases |b|
  {
    if b == [] {
      assert a + b == a;
    } else {
      RunConcat(cfg, db, a, b[..|b| - 1]);
      assert (a + b)[..|a + b| - 1] == a + b[..|b| - 1];
    }
  }
}
