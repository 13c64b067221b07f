/** The service calls as concurrent database transactions under READ COMMITTED.

    Each call is cut where another transaction can intervene: an unlocked lookup, a `FOR UPDATE` read, and one
    step per unique index that an insert must enter.  A step that needs a row or an index entry held by another
    transaction waits.  Reads see committed rows; writes appear at the commit, which releases everything. */
module Transactions {
  import opened Tables
  import opened Rows
  import opened Services

  /** Row locks, and entries of unique indexes claimed by rows inserted but not committed. */
  datatype Resource =
    | WalletRow(wallet: WalletId)
    | OrderRow(order: Uuid)
    | NewWallet(wallet: WalletId)
    | NewTxId(id: Uuid)
    | NewTxKey(key: string)
    | NewOrderId(id: Uuid)
    | NewOrderKey(user: Uuid, key: string)
    | NewEventId(id: Uuid)
    | NewEventKey(key: string)

  /** A committed row already has this index entry. */
  ghost predicate Taken(db: Db, k: Resource) {
    match k
    case WalletRow(_) => false
    case OrderRow(_) => false
    case NewWallet(w) => w in db.wallets
    case NewTxId(t) => t in db.txs
    case NewTxKey(key) => exists t :: t in db.txs && db.txs[t].key == Some(key)
    case NewOrderId(id) => id in db.orders
    case NewOrderKey(user, key) => exists id :: id in db.orders && IsOrderOf(db.orders[id], user, key)
    case NewEventId(e) => e in db.events
    case NewEventKey(key) => exists e :: e in db.events && EventKey(db.events[e].kind, db.events[e].order) == key
  }

  datatype Stage =
    | Lookup | LockTreasury | LockOrder | LockWallet | Recheck | InsertWallet
    | InsertTxId | InsertTxKey | InsertOrderId | InsertOrderKey | InsertEventId | InsertEventKey | Commit
    | Finished(answer: Outcome) | Crashed

  /** A transaction: its call, where it is, what it holds, and the locked rows as it read them (`wallet` stays
      None in a funding that found no user wallet). */
  datatype Txn = Txn(
    call: Call, draw: Draw, stage: Stage, held: set<Resource>,
    treasury: Option<Wallet>, wallet: Option<Wallet>, order: Option<Order>)
  {
    predicate Active() {
      !stage.Finished? && !stage.Crashed?
    }
  }

  function Start(inv: Invocation): Txn {
    Txn(inv.call, inv.draw, if inv.call.CancelCall? then LockOrder else Lookup, {}, None, None, None)
  }

  function Finish(t: Txn, answer: Outcome): Txn {
    t.(stage := Finished(answer), held := {})
  }

  function Hold(t: Txn, k: Resource, next: Stage): Txn {
    t.(held := t.held + {k}, stage := next)
  }

  /** Insert a row into one unique index. */
  ghost function Insert(db: Db, t: Txn, k: Resource, next: Stage): Txn {
    if Taken(db, k) then Finish(t, Refused(IntegrityViolation)) else Hold(t, k, next)
  }

  // ---------------------------------------------------------------- wallets of a request

  function AssetOr0(cfg: Config, code: string): Uuid {
    match ActiveAsset(cfg, code) case Some(a) => a case None => 0
  }

  function TreasuryOf(cfg: Config, r: FundRequest): WalletId {
    WalletId(Treasury, AssetOr0(cfg, r.assetCode))
  }

  function UserWalletOf(cfg: Config, r: FundRequest): WalletId {
    WalletId(User(r.user), AssetOr0(cfg, r.assetCode))
  }

  function PayerOf(cfg: Config, r: CreateRequest): WalletId {
    ReserveWalletOf(r, AssetOr0(cfg, r.baseCode), AssetOr0(cfg, r.quoteCode))
  }

  // ---------------------------------------------------------------- one step of one transaction

  ghost function FundStep(cfg: Config, db: Db, t: Txn, r: FundRequest): Txn {
    match t.stage
    case Lookup =>
      if r.amount <= 0 then Finish(t, Refused(InvalidRequest)) else (
      match ActiveAsset(cfg, r.assetCode)
      case None => Finish(t, Refused(AssetNotFound))
      case Some(asset) => (
        match FundingReplay(db, r.user, asset, r.amount, r.key)
        case Mismatch => Finish(t, Refused(IdempotencyConflict))
        case Earlier(tx) => Finish(t, Replayed(tx))
        case Fresh => t.(stage := LockTreasury)))
    case LockTreasury =>
      var w := TreasuryOf(cfg, r);
      if w !in db.wallets then Finish(t, Refused(TreasuryNotInitialized))
      else if db.wallets[w].available < r.amount then Finish(t, Refused(InsufficientTreasury))
      else Hold(t, WalletRow(w), LockWallet).(treasury := Some(db.wallets[w]))
    case LockWallet =>
      var u := UserWalletOf(cfg, r);
      if u in db.wallets then Hold(t, WalletRow(u), InsertTxId).(wallet := Some(db.wallets[u]))
      else t.(stage := InsertWallet)
    case InsertWallet => Insert(db, t, NewWallet(UserWalletOf(cfg, r)), InsertTxId)
    case InsertTxId => Insert(db, t, NewTxId(t.draw.tx), InsertTxKey)
    case InsertTxKey => Insert(db, t, NewTxKey(r.key), Commit)
    case _ => t
  }

  ghost function CreateStep(cfg: Config, db: Db, t: Txn, r: CreateRequest): Txn {
    match t.stage
    case Lookup => (
      match (ActiveAsset(cfg, r.baseCode), ActiveAsset(cfg, r.quoteCode))
      case (Some(base), Some(quote)) =>
        if base == quote || r.price <= 0 || r.quantity <= 0 then Finish(t, Refused(InvalidRequest)) else (
        match OrderReplay(db.orders, r, base, quote)
        case Mismatch => Finish(t, Refused(IdempotencyConflict))
        case Earlier(id) => Finish(t, Replayed(id))
        case Fresh => t.(stage := LockWallet))
      case _ => Finish(t, Refused(AssetNotFound)))
    case LockWallet =>
      var w := PayerOf(cfg, r);
      if r.price <= 0 || r.quantity <= 0 || w !in db.wallets || !Covers(db.wallets[w], Exact(r.side, r.price, r.quantity)) then
        Finish(t, Refused(InsufficientAvailable))
      else Hold(t, WalletRow(w), Recheck).(wallet := Some(db.wallets[w]))
    case Recheck => (
      match OrderReplay(db.orders, r, AssetOr0(cfg, r.baseCode), AssetOr0(cfg, r.quoteCode))
      case Mismatch => Finish(t, Refused(IdempotencyConflict))
      case Earlier(id) => Finish(t, Replayed(id))
      case Fresh => t.(stage := InsertTxId))
    case InsertTxId => Insert(db, t, NewTxId(t.draw.tx), InsertTxKey)
    case InsertTxKey => Insert(db, t, NewTxKey(LedgerKey(cfg, r.user, r.key)), InsertOrderId)
    case InsertOrderId =>
      if !Storable(r) then Finish(t, Refused(IntegrityViolation))
      else Insert(db, t, NewOrderId(t.draw.order), InsertOrderKey)
    case InsertOrderKey => Insert(db, t, NewOrderKey(r.user, r.key), InsertEventId)
    case InsertEventId => Insert(db, t, NewEventId(t.draw.event), InsertEventKey)
    case InsertEventKey => Insert(db, t, NewEventKey(EventKey(OrderCreated, t.draw.order)), Commit)
    case _ => t
  }

  ghost function CancelStep(cfg: Config, db: Db, t: Txn, r: CancelRequest): Txn {
    match t.stage
    case LockOrder =>
      if r.order !in db.orders || db.orders[r.order].user != r.user then Finish(t, Refused(OrderNotFound)) else
      var o := db.orders[r.order];
      if !KnownAsset(cfg, o.ReserveWallet().asset) then Finish(t, Refused(ReservationState))
      else if o.status == Canceled then Finish(t, Replayed(r.order))
      else if o.status != Open then Finish(t, Refused(OrderNotCancelable))
      else Hold(t, OrderRow(r.order), LockWallet).(order := Some(o))
    case LockWallet =>
      if t.order.None? then t else
      var w := t.order.value.ReserveWallet();
      if w !in db.wallets || db.wallets[w].locked < t.order.value.reserved then Finish(t, Refused(ReservationState))
      else Hold(t, WalletRow(w), InsertTxId).(wallet := Some(db.wallets[w]))
    case InsertTxId => Insert(db, t, NewTxId(t.draw.tx), InsertEventId)
    case InsertEventId => Insert(db, t, NewEventId(t.draw.event), InsertEventKey)
    case InsertEventKey => Insert(db, t, NewEventKey(EventKey(OrderCanceled, r.order)), Commit)
    case _ => t
  }

  ghost function LocalStep(cfg: Config, db: Db, t: Txn): Txn {
    match t.call
    case FundCall(r) => FundStep(cfg, db, t, r)
    case CreateCall(r) => CreateStep(cfg, db, t, r)
    case CancelCall(r) => CancelStep(cfg, db, t, r)
  }

  /** What the next step must acquire, if anything. */
  ghost function Need(cfg: Config, db: Db, t: Txn): Option<Resource> {
    match t.call
    case FundCall(r) => FundNeed(cfg, db, t, r)
    case CreateCall(r) => CreateNeed(cfg, db, t, r)
    case CancelCall(r) => CancelNeed(db, t, r)
  }

  ghost function RowNeed(db: Db, w: WalletId): Option<Resource> {
    if w in db.wallets then Some(WalletRow(w)) else None
  }

  ghost function FundNeed(cfg: Config, db: Db, t: Txn, r: FundRequest): Option<Resource> {
    match t.stage
    case LockTreasury => RowNeed(db, TreasuryOf(cfg, r))
    case LockWallet => RowNeed(db, UserWalletOf(cfg, r))
    case InsertWallet => Some(NewWallet(UserWalletOf(cfg, r)))
    case InsertTxId => Some(NewTxId(t.draw.tx))
    case InsertTxKey => Some(NewTxKey(r.key))
    case _ => None
  }

  ghost function CreateNeed(cfg: Config, db: Db, t: Txn, r: CreateRequest): Option<Resource> {
    match t.stage
    case LockWallet => RowNeed(db, PayerOf(cfg, r))
    case InsertTxId => Some(NewTxId(t.draw.tx))
    case InsertTxKey => Some(NewTxKey(LedgerKey(cfg, r.user, r.key)))
    case InsertOrderId => Some(NewOrderId(t.draw.order))
    case InsertOrderKey => Some(NewOrderKey(r.user, r.key))
    case InsertEventId => Some(NewEventId(t.draw.event))
    case InsertEventKey => Some(NewEventKey(EventKey(OrderCreated, t.draw.order)))
    case _ => None
  }

  ghost function CancelNeed(db: Db, t: Txn, r: CancelRequest): Option<Resource> {
    match t.stage
    case LockOrder => if r.order in db.orders && db.orders[r.order].user == r.user then Some(OrderRow(r.order)) else None
    case LockWallet => if t.order.Some? then RowNeed(db, t.order.value.ReserveWallet()) else None
    case InsertTxId => Some(NewTxId(t.draw.tx))
    case InsertEventId => Some(NewEventId(t.draw.event))
    case InsertEventKey => Some(NewEventKey(EventKey(OrderCanceled, r.order)))
    case _ => None
  }

  // ---------------------------------------------------------------- commit

  /** The locked rows that the writes are computed from were read and allow the writes. */
  predicate Ready(t: Txn) {
    match t.call
    case FundCall(r) => t.treasury.Some? && 0 < r.amount <= t.treasury.value.available
    case CreateCall(r) => t.wallet.Some? && Storable(r) && Covers(t.wallet.value, Exact(r.side, r.price, r.quantity))
    case CancelCall(r) => t.order.Some? && t.wallet.Some? && t.order.value.reserved <= t.wallet.value.locked
  }

  /** The committed rows after the transaction's writes. */
  ghost function CommitDb(cfg: Config, db: Db, t: Txn): Db
    requires Ready(t)
  {
    match t.call
    case FundCall(r) =>
      FundDb(db, r, AssetOr0(cfg, r.assetCode), t.treasury.value,
             if t.wallet.Some? then t.wallet.value else Wallet(0, 0), t.draw)
    case CreateCall(r) =>
      var o := NewOrder(r, AssetOr0(cfg, r.baseCode), AssetOr0(cfg, r.quoteCode), t.draw.tx);
      CreateDb(cfg, db, o, Exact(r.side, r.price, r.quantity), t.wallet.value, t.draw)
    case CancelCall(r) =>
      CancelDb(db, r.order, t.order.value, t.wallet.value, t.draw)
  }

  /** The row the answer names. */
  function CommitId(t: Txn): Uuid {
    match t.call
    case FundCall(r) => t.draw.tx
    case CreateCall(r) => t.draw.order
    case CancelCall(r) => r.order
  }

  // ---------------------------------------------------------------- the system

  /** The committed database, the transactions, and the calls committed so far in commit order. */
  datatype Sys = Sys(db: Db, txns: map<nat, Txn>, log: seq<Invocation>)

  datatype Action = Begin(tid: nat, inv: Invocation) | Advance(tid: nat) | Abort(tid: nat)

  ghost predicate HeldByOther(s: Sys, tid: nat, k: Resource) {
    exists other :: other in s.txns && other != tid && k in s.txns[other].held
  }

  ghost predicate Blocked(cfg: Config, s: Sys, tid: nat)
    requires tid in s.txns
  {
    var need := Need(cfg, s.db, s.txns[tid]);
    need.Some? && HeldByOther(s, tid, need.value)
  }

  /** A new transaction starts, one takes its next step (or waits), or one is lost with its writes. */
  ghost function Step(cfg: Config, s: Sys, a: Action): Sys {
    match a
    case Begin(tid, inv) =>
      if tid in s.txns then s else s.(txns := s.txns[tid := Start(inv)])
    case Abort(tid) =>
      if tid in s.txns && s.txns[tid].Active() then
        s.(txns := s.txns[tid := s.txns[tid].(stage := Crashed, held := {})])
      else s
    case Advance(tid) =>
      if tid !in s.txns || !s.txns[tid].Active() || Blocked(cfg, s, tid) then s else
      var t := s.txns[tid];
      if t.stage == Commit then
        if Ready(t) then
          Sys(CommitDb(cfg, s.db, t), s.txns[tid := Finish(t, Done(CommitId(t)))], s.log + [Invocation(t.call, t.draw)])
        else s
      else s.(txns := s.txns[tid := LocalStep(cfg, s.db, t)])
  }

  /** Any schedule, of any number of transactions. */
  ghost function Exec(cfg: Config, db0: Db, actions: seq<Action>): Sys
    decreases |actions|
  {
    if actions == [] then Sys(db0, map[], []) else
    Step(cfg, Exec(cfg, db0, actions[..|actions| - 1]), actions[|actions| - 1])
  }
}
