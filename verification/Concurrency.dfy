/** What every schedule keeps, and that every commit is the same call run alone. */
module Concurrency {
  import opened Tables
  import opened Rows
  import opened Services
  import opened Invariants
  import opened Serial
  import opened Transactions

  // ---------------------------------------------------------------- ranks

  function StageRank(s: Stage): nat {
    match s
    case Lookup => 0
    case LockTreasury => 1
    case LockOrder => 2
    case LockWallet => 3
    case Recheck => 4
    case InsertWallet => 5
    case InsertTxId => 6
    case InsertTxKey => 7
    case InsertOrderId => 8
    case InsertOrderKey => 9
    case InsertEventId => 10
    case InsertEventKey => 11
    case Commit => 12
    case Finished(_) => 13
    case Crashed => 13
  }

  /** The rank of the stage that acquires a resource. */
  function Rank(k: Resource): nat {
    match k
    case WalletRow(w) => if w.owner == Treasury then 1 else 3
    case OrderRow(_) => 2
    case NewWallet(_) => 5
    case NewTxId(_) => 6
    case NewTxKey(_) => 7
    case NewOrderId(_) => 8
    case NewOrderKey(_, _) => 9
    case NewEventId(_) => 10
    case NewEventKey(_) => 11
  }

  // ---------------------------------------------------------------- one transaction

  /** What is held was acquired at an earlier stage, and claimed index entries are not committed yet. */
  ghost predicate HeldOk(db: Db, t: Txn) {
    && (forall k :: k in t.held ==> Rank(k) < StageRank(t.stage) && !Taken(db, k))
    && (!t.Active() ==> t.held == {})
  }

  /** A locked row is still the row that was read. */
  ghost predicate Pinned(db: Db, t: Txn, w: WalletId, row: Option<Wallet>) {
    row.Some? && WalletRow(w) in t.held && w in db.wallets && db.wallets[w] == row.value
  }

  predicate FundStage(s: Stage) {
    s.Lookup? || s.LockTreasury? || s.LockWallet? || s.InsertWallet? || s.InsertTxId? || s.InsertTxKey? || s.Commit?
  }

  ghost predicate FundOk(cfg: Config, db: Db, t: Txn, r: FundRequest) {
    var n := StageRank(t.stage);
    && FundStage(t.stage)
    && (n > 0 ==> r.amount > 0 && ActiveAsset(cfg, r.assetCode) == Some(AssetOr0(cfg, r.assetCode)))
    && (n > 1 ==> Pinned(db, t, TreasuryOf(cfg, r), t.treasury) && r.amount <= t.treasury.value.available)
    && (n > 3 ==> Pinned(db, t, UserWalletOf(cfg, r), t.wallet)
                  || (t.wallet.None? && UserWalletOf(cfg, r) !in db.wallets))
    && (n <= 5 ==> t.wallet.None?)
    && (n > 5 && t.wallet.None? ==> NewWallet(UserWalletOf(cfg, r)) in t.held)
    && (n > 6 ==> NewTxId(t.draw.tx) in t.held)
    && (n > 7 ==> NewTxKey(r.key) in t.held)
    && (forall w :: NewWallet(w) in t.held ==> w == UserWalletOf(cfg, r) && n > 5)
    && (forall key :: NewEventKey(key) !in t.held)
  }

  predicate CreateStage(s: Stage) {
    s.Lookup? || s.LockWallet? || s.Recheck? || s.InsertTxId? || s.InsertTxKey? || s.InsertOrderId?
    || s.InsertOrderKey? || s.InsertEventId? || s.InsertEventKey? || s.Commit?
  }

  ghost predicate CreateOk(cfg: Config, db: Db, t: Txn, r: CreateRequest) {
    var n := StageRank(t.stage);
    && CreateStage(t.stage)
    && (n > 0 ==> r.price > 0 && r.quantity > 0
                  && ActiveAsset(cfg, r.baseCode) == Some(AssetOr0(cfg, r.baseCode))
                  && ActiveAsset(cfg, r.quoteCode) == Some(AssetOr0(cfg, r.quoteCode))
                  && AssetOr0(cfg, r.baseCode) != AssetOr0(cfg, r.quoteCode))
    && (n > 3 ==> Pinned(db, t, PayerOf(cfg, r), t.wallet) && Covers(t.wallet.value, Exact(r.side, r.price, r.quantity)))
    && (n > 6 ==> NewTxId(t.draw.tx) in t.held)
    && (n > 7 ==> NewTxKey(LedgerKey(cfg, r.user, r.key)) in t.held)
    && (n > 8 ==> Storable(r) && NewOrderId(t.draw.order) in t.held)
    && (n > 9 ==> NewOrderKey(r.user, r.key) in t.held)
    && (n > 10 ==> NewEventId(t.draw.event) in t.held)
    && (n > 11 ==> NewEventKey(EventKey(OrderCreated, t.draw.order)) in t.held)
    && (forall w :: NewWallet(w) !in t.held)
    && (forall key :: NewEventKey(key) in t.held ==> key == EventKey(OrderCreated, t.draw.order) && n > 11)
  }

  predicate CancelStage(s: Stage) {
    s.LockOrder? || s.LockWallet? || s.InsertTxId? || s.InsertEventId? || s.InsertEventKey? || s.Commit?
  }

  ghost predicate CancelOk(cfg: Config, db: Db, t: Txn, r: CancelRequest) {
    var n := StageRank(t.stage);
    && CancelStage(t.stage)
    && (n > 2 ==> t.order.Some? && OrderRow(r.order) in t.held && r.order in db.orders && db.orders[r.order] == t.order.value
                  && t.order.value.user == r.user && t.order.value.status == Open)
    && (n > 3 ==> Pinned(db, t, t.order.value.ReserveWallet(), t.wallet) && t.order.value.reserved <= t.wallet.value.locked)
    && (n > 6 ==> NewTxId(t.draw.tx) in t.held)
    && (n > 10 ==> NewEventId(t.draw.event) in t.held)
    && (n > 11 ==> NewEventKey(EventKey(OrderCanceled, r.order)) in t.held)
    && (forall w :: NewWallet(w) !in t.held)
    && (forall key :: NewEventKey(key) in t.held ==> key == EventKey(OrderCanceled, r.order) && n > 11)
  }

  ghost predicate CallOk(cfg: Config, db: Db, t: Txn) {
    match t.call
    case FundCall(r) => FundOk(cfg, db, t, r)
    case CreateCall(r) => CreateOk(cfg, db, t, r)
    case CancelCall(r) => CancelOk(cfg, db, t, r)
  }

  ghost predicate TxnOk(cfg: Config, db: Db, t: Txn) {
    HeldOk(db, t) && (t.Active() ==> CallOk(cfg, db, t))
  }

  lemma StartOk(cfg: Config, db: Db, inv: Invocation)
    ensures TxnOk(cfg, db, Start(inv))
  {
  }

  lemma FinishOk(cfg: Config, db: Db, t: Txn, answer: Outcome)
    ensures TxnOk(cfg, db, Finish(t, answer))
  {
  }

  lemma FundStepOk(cfg: Config, db: Db, t: Txn, r: FundRequest)
    requires t.call == FundCall(r) && HeldOk(db, t) && FundOk(cfg, db, t, r) && t.stage != Commit
    ensures TxnOk(cfg, db, FundStep(cfg, db, t, r))
  {
    hide FundingReplay, ActiveAsset;
  }

  lemma InsertOk(db: Db, t: Txn, k: Resource, next: Stage)
    requires HeldOk(db, t) && t.Active() && Rank(k) < StageRank(next) <= 12 && StageRank(t.stage) <= StageRank(next)
    requires !k.WalletRow? && !k.OrderRow?
    ensures HeldOk(db, Insert(db, t, k, next))
  {
  }

  lemma CreateReadOk(cfg: Config, db: Db, t: Txn, r: CreateRequest)
    requires t.call == CreateCall(r) && HeldOk(db, t) && CreateOk(cfg, db, t, r) && StageRank(t.stage) < 6
    ensures TxnOk(cfg, db, CreateStep(cfg, db, t, r))
  {
    hide OrderReplay, ActiveAsset, Exact, EventKey, LedgerKey, Storable;
  }

  lemma CreateInsertOk(cfg: Config, db: Db, t: Txn, r: CreateRequest)
    requires t.call == CreateCall(r) && HeldOk(db, t) && CreateOk(cfg, db, t, r) && 6 <= StageRank(t.stage) < 12
    ensures TxnOk(cfg, db, CreateStep(cfg, db, t, r))
  {
    hide OrderReplay, ActiveAsset, Exact, EventKey, LedgerKey, Storable, Taken, HeldOk, Covers;
    match t.stage
    case InsertTxId => InsertOk(db, t, NewTxId(t.draw.tx), InsertTxKey);
    case InsertTxKey => InsertOk(db, t, NewTxKey(LedgerKey(cfg, r.user, r.key)), InsertOrderId);
    case InsertOrderId =>
      FinishOk(cfg, db, t, Refused(IntegrityViolation));
      InsertOk(db, t, NewOrderId(t.draw.order), InsertOrderKey);
    case InsertOrderKey => InsertOk(db, t, NewOrderKey(r.user, r.key), InsertEventId);
    case InsertEventId => InsertOk(db, t, NewEventId(t.draw.event), InsertEventKey);
    case InsertEventKey => InsertOk(db, t, NewEventKey(EventKey(OrderCreated, t.draw.order)), Commit);
  }

  lemma CreateStepOk(cfg: Config, db: Db, t: Txn, r: CreateRequest)
    requires t.call == CreateCall(r) && HeldOk(db, t) && CreateOk(cfg, db, t, r) && t.stage != Commit
    ensures TxnOk(cfg, db, CreateStep(cfg, db, t, r))
  {
    hide TxnOk, HeldOk, CreateStep;
    if StageRank(t.stage) < 6 {
      CreateReadOk(cfg, db, t, r);
    } else {
      CreateInsertOk(cfg, db, t, r);
    }
  }

  lemma CancelStepOk(cfg: Config, db: Db, t: Txn, r: CancelRequest)
    requires t.call == CancelCall(r) && HeldOk(db, t) && CancelOk(cfg, db, t, r) && t.stage != Commit
    ensures TxnOk(cfg, db, CancelStep(cfg, db, t, r))
  {
    hide Exact, EventKey, KnownAsset;
  }

  lemma LocalStepOk(cfg: Config, db: Db, t: Txn)
    requires TxnOk(cfg, db, t) && t.Active() && t.stage != Commit
    ensures TxnOk(cfg, db, LocalStep(cfg, db, t))
  {
    hide FundOk, CreateOk, CancelOk, FundStep, CreateStep, CancelStep, HeldOk;
    match t.call
    case FundCall(r) => FundStepOk(cfg, db, t, r);
    case CreateCall(r) => CreateStepOk(cfg, db, t, r);
    case CancelCall(r) => CancelStepOk(cfg, db, t, r);
  }

  // ---------------------------------------------------------------- a commit is the call run alone

  lemma FundCommit(cfg: Config, db: Db, t: Txn, r: FundRequest)
    requires t.call == FundCall(r) && TxnOk(cfg, db, t) && t.stage == Commit
    ensures Ready(t)
    ensures Fund(cfg, db, r, t.draw) == Result(CommitDb(cfg, db, t), Done(t.draw.tx))
  {
    hide ActiveAsset, Fund;
    var asset := AssetOr0(cfg, r.assetCode);
    assert !Taken(db, NewTxId(t.draw.tx)) && !Taken(db, NewTxKey(r.key));
    FundDone(cfg, db, r, t.draw, asset);
  }

  lemma CreateCommit(cfg: Config, opening: map<WalletId, Wallet>, db: Db, t: Txn, r: CreateRequest)
    requires Inv(cfg, opening, db)
    requires t.call == CreateCall(r) && TxnOk(cfg, db, t) && t.stage == Commit
    ensures Ready(t)
    ensures Create(cfg, db, r, t.draw) == Result(CommitDb(cfg, db, t), Done(t.draw.order))
  {
    hide ActiveAsset, Create, Exact, EventKey, LedgerKey, Money, Books, Life, KnownAsset;
    var base, quote := AssetOr0(cfg, r.baseCode), AssetOr0(cfg, r.quoteCode);
    assert !Taken(db, NewTxId(t.draw.tx)) && !Taken(db, NewTxKey(LedgerKey(cfg, r.user, r.key)));
    assert !Taken(db, NewOrderId(t.draw.order)) && !Taken(db, NewOrderKey(r.user, r.key));
    assert !Taken(db, NewEventId(t.draw.event));
    ActiveIsKnown(cfg, r.baseCode);
    ActiveIsKnown(cfg, r.quoteCode);
    CreateDone(cfg, db, r, t.draw, base, quote);
  }

  lemma CancelCommit(cfg: Config, opening: map<WalletId, Wallet>, db: Db, t: Txn, r: CancelRequest)
    requires Inv(cfg, opening, db)
    requires t.call == CancelCall(r) && TxnOk(cfg, db, t) && t.stage == Commit
    ensures Ready(t)
    ensures Cancel(cfg, db, r, t.draw) == Result(CommitDb(cfg, db, t), Done(r.order))
  {
    hide Inv, Cancel, Exact, EventKey;
    assert !Taken(db, NewTxId(t.draw.tx)) && !Taken(db, NewEventId(t.draw.event));
    CancelDone(cfg, opening, db, r, t.draw);
  }

  /** The rows read under locks, the re-check and the claimed index entries make the commit exactly the call
      run alone on the database at that moment. */
  lemma CommitIsSerial(cfg: Config, opening: map<WalletId, Wallet>, db: Db, t: Txn)
    requires Inv(cfg, opening, db) && TxnOk(cfg, db, t) && t.stage == Commit
    ensures Ready(t)
    ensures Serve(cfg, db, Invocation(t.call, t.draw)) == Result(CommitDb(cfg, db, t), Done(CommitId(t)))
  {
    hide Inv, TxnOk, Ready, CommitDb, Fund, Create, Cancel;
    match t.call
    case FundCall(r) => FundCommit(cfg, db, t, r);
    case CreateCall(r) => CreateCommit(cfg, opening, db, t, r);
    case CancelCall(r) => CancelCommit(cfg, opening, db, t, r);
  }

  // ---------------------------------------------------------------- what a commit leaves alone

  /** A commit of t changes only rows that t locked or inserted. */
  ghost predicate Framed(db: Db, db': Db, t: Txn) {
    && (forall w :: w in db.wallets ==> w in db'.wallets)
    && (forall w :: w in db.wallets && WalletRow(w) !in t.held ==> db'.wallets[w] == db.wallets[w])
    && (forall w :: w in db'.wallets && w !in db.wallets ==> WalletRow(WalletId(Treasury, w.asset)) in t.held)
    && (forall id :: id in db.orders ==> id in db'.orders)
    && (forall id :: id in db.orders && OrderRow(id) !in t.held ==> db'.orders[id] == db.orders[id])
    && (forall k :: Taken(db', k) ==> Taken(db, k) || k in t.held)
  }

  lemma FundFrame(cfg: Config, db: Db, t: Txn, r: FundRequest)
    requires t.call == FundCall(r) && TxnOk(cfg, db, t) && t.stage == Commit && Ready(t)
    ensures Framed(db, CommitDb(cfg, db, t), t)
  {
    hide ActiveAsset;
    var db' := CommitDb(cfg, db, t);
    forall k | Taken(db', k) ensures Taken(db, k) || k in t.held {
      FundTakes(cfg, db, t, r, k);
    }
  }

  lemma FundTakes(cfg: Config, db: Db, t: Txn, r: FundRequest, k: Resource)
    requires t.call == FundCall(r) && TxnOk(cfg, db, t) && t.stage == Commit && Ready(t)
    requires Taken(CommitDb(cfg, db, t), k)
    ensures Taken(db, k) || k in t.held
  {
    hide ActiveAsset;
    var db' := CommitDb(cfg, db, t);
    match k
    case NewTxKey(key) =>
      var x :| x in db'.txs && db'.txs[x].key == Some(key);
      assert x == t.draw.tx || (x in db.txs && db.txs[x].key == Some(key));
    case _ =>
  }

  lemma CreateFrame(cfg: Config, db: Db, t: Txn, r: CreateRequest)
    requires t.call == CreateCall(r) && TxnOk(cfg, db, t) && t.stage == Commit && Ready(t)
    ensures Framed(db, CommitDb(cfg, db, t), t)
  {
    hide ActiveAsset, Exact, EventKey, LedgerKey;
    var db' := CommitDb(cfg, db, t);
    assert !Taken(db, NewOrderId(t.draw.order));
    forall k | Taken(db', k) ensures Taken(db, k) || k in t.held {
      CreateTakes(cfg, db, t, r, k);
    }
  }

  lemma CreateTakes(cfg: Config, db: Db, t: Txn, r: CreateRequest, k: Resource)
    requires t.call == CreateCall(r) && TxnOk(cfg, db, t) && t.stage == Commit && Ready(t)
    requires Taken(CommitDb(cfg, db, t), k)
    ensures Taken(db, k) || k in t.held
  {
    hide ActiveAsset, Exact, EventKey, LedgerKey;
    var db' := CommitDb(cfg, db, t);
    match k
    case NewTxKey(key) =>
      var x :| x in db'.txs && db'.txs[x].key == Some(key);
      assert x == t.draw.tx || (x in db.txs && db.txs[x].key == Some(key));
    case NewOrderKey(user, key) =>
      var id :| id in db'.orders && IsOrderOf(db'.orders[id], user, key);
      assert id == t.draw.order || (id in db.orders && IsOrderOf(db.orders[id], user, key));
    case NewEventKey(key) =>
      var e :| e in db'.events && EventKey(db'.events[e].kind, db'.events[e].order) == key;
      assert e == t.draw.event || (e in db.events && EventKey(db.events[e].kind, db.events[e].order) == key);
    case _ =>
  }

  lemma CancelFrame(cfg: Config, db: Db, t: Txn, r: CancelRequest)
    requires t.call == CancelCall(r) && TxnOk(cfg, db, t) && t.stage == Commit && Ready(t)
    ensures Framed(db, CommitDb(cfg, db, t), t)
  {
    hide Exact, EventKey;
    var db' := CommitDb(cfg, db, t);
    forall k | Taken(db', k) ensures Taken(db, k) || k in t.held {
      CancelTakes(cfg, db, t, r, k);
    }
  }

  lemma CancelTakes(cfg: Config, db: Db, t: Txn, r: CancelRequest, k: Resource)
    requires t.call == CancelCall(r) && TxnOk(cfg, db, t) && t.stage == Commit && Ready(t)
    requires Taken(CommitDb(cfg, db, t), k)
    ensures Taken(db, k) || k in t.held
  {
    hide Exact, EventKey;
    var db' := CommitDb(cfg, db, t);
    match k
    case NewTxKey(key) =>
      var x :| x in db'.txs && db'.txs[x].key == Some(key);
      assert x in db.txs && db.txs[x].key == Some(key);
    case NewOrderKey(user, key) =>
      var id :| id in db'.orders && IsOrderOf(db'.orders[id], user, key);
      assert id in db.orders && IsOrderOf(db.orders[id], user, key);
    case NewEventKey(key) =>
      var e :| e in db'.events && EventKey(db'.events[e].kind, db'.events[e].order) == key;
      assert e == t.draw.event || (e in db.events && EventKey(db.events[e].kind, db.events[e].order) == key);
    case _ =>
  }

  lemma CommitFramed(cfg: Config, db: Db, t: Txn)
    requires TxnOk(cfg, db, t) && t.stage == Commit && Ready(t)
    ensures Framed(db, CommitDb(cfg, db, t), t)
  {
    hide TxnOk, Ready, CommitDb, Framed;
    match t.call
    case FundCall(r) => FundFrame(cfg, db, t, r);
    case CreateCall(r) => CreateFrame(cfg, db, t, r);
    case CancelCall(r) => CancelFrame(cfg, db, t, r);
  }

  /** A transaction that shares no resource with the committing one does not notice the commit. */
  lemma FrameKeeps(cfg: Config, db: Db, db': Db, t: Txn, u: Txn)
    requires Framed(db, db', t) && TxnOk(cfg, db, u) && (forall k :: k in u.held ==> k !in t.held)
    ensures TxnOk(cfg, db', u)
  {
    hide Taken, ActiveAsset, Exact, EventKey, LedgerKey, Covers, Storable;
    match u.call
    case FundCall(r) =>
      if u.Active() && StageRank(u.stage) > 1 {
        assert WalletRow(TreasuryOf(cfg, r)) in u.held;
      }
    case CreateCall(r) =>
    case CancelCall(r) =>
  }
}
