/** The complete answers of a funding and of a creation, in terms of the request and the tables. */
module Replies {
  import opened Tables
  import opened Rows
  import opened Services
  import opened Invariants
  import opened Serial
  import opened Runs
  import opened Idempotency
  import D = Decimals

  /** The answer of a lookup by code: `asset` is the active asset, or None if there is none. */
  ghost predicate Found(cfg: Config, code: string, asset: Option<Uuid>) {
    forall a: Uuid :: asset == Some(a) <==> Active(cfg, code, a)
  }

  lemma FoundIs(cfg: Config, code: string, asset: Option<Uuid>)
    ensures Found(cfg, code, asset) <==> asset == ActiveAsset(cfg, code)
  {
    hide Active, ActiveAsset;
    ActiveAssetIs(cfg, code);
    var it := ActiveAsset(cfg, code);
    assert it.Some? ==> Active(cfg, code, it.value);
    if Found(cfg, code, asset) {
      assert asset.Some? ==> Active(cfg, code, asset.value);
    }
  }

  /** The second entry of a transaction is this credit to the user. */
  predicate Credits(entries: map<EntryId, Entry>, t: Uuid, user: Uuid, asset: Uuid, amount: int) {
    && EntryId(t, 2) in entries
    && entries[EntryId(t, 2)].wallet == WalletId(User(user), asset)
    && entries[EntryId(t, 2)].amount == amount
  }

  ghost predicate KeyUnused(txs: map<Uuid, LedgerTx>, key: string) {
    forall t :: t in txs ==> txs[t].key != Some(key)
  }

  /** Every answer of a funding in a reachable state.  `asset` is what the lookup of its code finds. */
  lemma FundAnswer(cfg: Config, db0: Db, db: Db, r: FundRequest, d: Draw, asset: Option<Uuid>)
    requires Reached(cfg, db0, db) && Found(cfg, r.assetCode, asset)
    ensures var answer := Fund(cfg, db, r, d).outcome;
            && (r.amount <= 0 ==> answer == Refused(InvalidRequest))
            && (r.amount > 0 && asset.None? ==> answer == Refused(AssetNotFound))
            && (r.amount > 0 && asset.Some? ==>
                  && (forall t :: t in db.txs && db.txs[t].key == Some(r.key) ==>
                        answer == if db.txs[t].kind == Funding && Credits(db.entries, t, r.user, asset.value, r.amount)
                                  then Replayed(t) else Refused(IdempotencyConflict))
                  && (KeyUnused(db.txs, r.key) ==>
                        var treasury := WalletId(Treasury, asset.value);
                        answer == if treasury !in db.wallets then Refused(TreasuryNotInitialized)
                                  else if db.wallets[treasury].available < r.amount then Refused(InsufficientTreasury)
                                  else if d.tx in db.txs then Refused(IntegrityViolation)
                                  else Done(d.tx)))
  {
    hide ActiveAsset, Active, FundingReplay, Inv;
    ReachedInv(cfg, db0, db);
    FoundIs(cfg, r.assetCode, asset);
    if asset.Some? {
      forall t | t in db.txs && db.txs[t].key == Some(r.key)
        ensures FundingReplay(db, r.user, asset.value, r.amount, r.key)
             == if db.txs[t].kind == Funding && Credits(db.entries, t, r.user, asset.value, r.amount) then Earlier(t) else Mismatch
      {
        UsedKey(cfg, db0.wallets, db, t, r.user, asset.value, r.amount, r.key);
      }
      UnusedKey(db, r.user, asset.value, r.amount, r.key);
    }
  }

  lemma UsedKey(cfg: Config, opening: map<WalletId, Wallet>, db: Db, t: Uuid, user: Uuid, asset: Uuid, amount: int, key: string)
    requires Inv(cfg, opening, db) && t in db.txs && db.txs[t].key == Some(key)
    ensures FundingReplay(db, user, asset, amount, key)
         == if db.txs[t].kind == Funding && Credits(db.entries, t, user, asset, amount) then Earlier(t) else Mismatch
  {
    hide Money, Life, OrdersOk;
    assert TxFor(db.txs, key) == Some(t);
    var w := WalletId(User(user), asset);
    if db.txs[t].kind == Funding {
      assert IsTransfer(Funding, db.entries[EntryId(t, 1)], db.entries[EntryId(t, 2)]);
      if HasFundingCredit(db.entries, t, w, amount) {
        var k :| k in db.entries && k.tx == t && IsFundingCredit(db.entries[k], w, amount);
        assert k == EntryId(t, 2);
      } else {
        assert !IsFundingCredit(db.entries[EntryId(t, 2)], w, amount);
      }
    }
  }

  lemma UnusedKey(db: Db, user: Uuid, asset: Uuid, amount: int, key: string)
    ensures KeyUnused(db.txs, key) <==> FundingReplay(db, user, asset, amount, key).Fresh?
  {
  }

  // ---------------------------------------------------------------- creations

  /** The amount that the request asks to reserve, in units of 10^-36. */
  function Asked(r: CreateRequest): int {
    if r.side == Buy then r.price * r.quantity else r.quantity * 1_000_000_000_000_000_000
  }

  /** The wallet it is reserved in. */
  function Payer(r: CreateRequest, base: Uuid, quote: Uuid): WalletId {
    WalletId(User(r.user), if r.side == Buy then quote else base)
  }

  /** The wallet exists and covers what is asked. */
  predicate Affordable(db: Db, r: CreateRequest, base: Uuid, quote: Uuid) {
    var w := Payer(r, base, quote);
    w in db.wallets && Asked(r) <= db.wallets[w].available * 1_000_000_000_000_000_000
  }

  ghost predicate OrderKeyUnused(orders: map<Uuid, Order>, user: Uuid, key: string) {
    forall id :: id in orders ==> orders[id].user != user || orders[id].key != key
  }

  /** Every answer of a creation in a reachable state.  `base` and `quote` are what the lookups find. */
  lemma CreateAnswer(cfg: Config, db0: Db, db: Db, r: CreateRequest, d: Draw, base: Option<Uuid>, quote: Option<Uuid>)
    requires Reached(cfg, db0, db) && Found(cfg, r.baseCode, base) && Found(cfg, r.quoteCode, quote)
    ensures var answer := Create(cfg, db, r, d).outcome;
            if base.None? || quote.None? then answer == Refused(AssetNotFound)
            else if base == quote || r.price <= 0 || r.quantity <= 0 then answer == Refused(InvalidRequest)
            else
              && (forall id :: id in db.orders && db.orders[id].user == r.user && db.orders[id].key == r.key ==>
                    var o := db.orders[id];
                    answer == if o.base == base.value && o.quote == quote.value && o.side == r.side
                                 && o.price == r.price && o.quantity == r.quantity
                              then Replayed(id) else Refused(IdempotencyConflict))
              && (OrderKeyUnused(db.orders, r.user, r.key) ==>
                    answer == if !Affordable(db, r, base.value, quote.value) then Refused(InsufficientAvailable)
                              else if || !KeyUnused(db.txs, cfg.digest(UuidText(r.user) + ":" + r.key))
                                      || 2 * Asked(r) < 1_000_000_000_000_000_000
                                      || d.tx in db.txs || d.order in db.orders || d.event in db.events
                                   then Refused(IntegrityViolation)
                              else Done(d.order))
  {
    hide ActiveAsset, Active, OrderReplay, Reservation, Inv, Asked, Affordable, KeyUnused;
    ReachedInv(cfg, db0, db);
    FoundIs(cfg, r.baseCode, base);
    FoundIs(cfg, r.quoteCode, quote);
    if base.Some? && quote.Some? && r.price > 0 && r.quantity > 0 {
      forall id | id in db.orders && db.orders[id].user == r.user && db.orders[id].key == r.key
        ensures OrderReplay(db.orders, r, base.value, quote.value)
             == var o := db.orders[id];
                if o.base == base.value && o.quote == quote.value && o.side == r.side
                   && o.price == r.price && o.quantity == r.quantity then Earlier(id) else Mismatch
      {
        UsedOrderKey(cfg, db0.wallets, db, id, r, base.value, quote.value);
      }
      if OrderKeyUnused(db.orders, r.user, r.key) {
        UnusedOrderKey(db.orders, r, base.value, quote.value);
        ReservationAnswer(cfg, db0.wallets, db, r, base.value, quote.value, d);
      }
    }
  }

  lemma UsedOrderKey(cfg: Config, opening: map<WalletId, Wallet>, db: Db, id: Uuid, r: CreateRequest, base: Uuid, quote: Uuid)
    requires Inv(cfg, opening, db) && id in db.orders && db.orders[id].user == r.user && db.orders[id].key == r.key
    ensures OrderReplay(db.orders, r, base, quote)
         == var o := db.orders[id];
            if o.base == base && o.quote == quote && o.side == r.side
               && o.price == r.price && o.quantity == r.quantity then Earlier(id) else Mismatch
  {
    hide Inv;
    assert IsOrderOf(db.orders[id], r.user, r.key);
    var found := OrderFor(db.orders, r.user, r.key);
    OneOrderPerKey(cfg, opening, db, found.value, id);
  }

  lemma UnusedOrderKey(orders: map<Uuid, Order>, r: CreateRequest, base: Uuid, quote: Uuid)
    ensures OrderKeyUnused(orders, r.user, r.key) <==> OrderReplay(orders, r, base, quote).Fresh?
  {
  }

  lemma ReservationAnswer(cfg: Config, opening: map<WalletId, Wallet>, db: Db, r: CreateRequest, base: Uuid, quote: Uuid, d: Draw)
    requires Inv(cfg, opening, db) && r.price > 0 && r.quantity > 0
    ensures Reservation(cfg, db, r, base, quote, d).outcome
         == if !Affordable(db, r, base, quote) then Refused(InsufficientAvailable)
            else if || !KeyUnused(db.txs, cfg.digest(UuidText(r.user) + ":" + r.key))
                    || 2 * Asked(r) < 1_000_000_000_000_000_000
                    || d.tx in db.txs || d.order in db.orders || d.event in db.events
                 then Refused(IntegrityViolation)
            else Done(d.order)
  {
    hide Money, Books, ReleasesAgree, EventKey, CreateDb, HasReport;
    HasEventIsReport(db.events, OrderCreated, d.order);
    if d.order !in db.orders {
      NoReport(db.orders, db.events, OrderCreated, d.order);
    }
  }

  lemma NoReport(orders: map<Uuid, Order>, events: map<Uuid, Event>, kind: EventKind, id: Uuid)
    requires OutboxAgrees(orders, events) && id !in orders
    ensures !HasReport(events, kind, id)
  {
  }

  /** With a digest without collisions, and no funding key among its values, a creation is granted exactly when its
      assets are active and different, its amount can be stored, its wallet covers it, its user has not used its
      key, and the drawn identifiers are new. */
  lemma CreateGranted(cfg: Config, db0: Db, db: Db, r: CreateRequest, d: Draw)
    requires Reached(cfg, db0, db) && InjectiveDigest(cfg)
    requires forall t, text :: t in db.txs && db.txs[t].kind == Funding ==> db.txs[t].key != Some(cfg.digest(text))
    ensures Create(cfg, db, r, d).outcome.Done? <==>
              exists base: Uuid, quote: Uuid ::
                && Active(cfg, r.baseCode, base) && Active(cfg, r.quoteCode, quote) && base != quote
                && r.price > 0 && r.quantity > 0 && 2 * Asked(r) >= 1_000_000_000_000_000_000
                && Affordable(db, r, base, quote)
                && OrderKeyUnused(db.orders, r.user, r.key)
                && d.tx !in db.txs && d.order !in db.orders && d.event !in db.events
  {
    hide Active, ActiveAsset, Create, Asked, Affordable, Inv, KeyUnused;
    ReachedInv(cfg, db0, db);
    var base, quote := ActiveAsset(cfg, r.baseCode), ActiveAsset(cfg, r.quoteCode);
    FoundIs(cfg, r.baseCode, base);
    FoundIs(cfg, r.quoteCode, quote);
    CreateAnswer(cfg, db0, db, r, d, base, quote);
    if OrderKeyUnused(db.orders, r.user, r.key) {
      DigestUnused(cfg, db0.wallets, db, r.user, r.key);
    }
  }

  lemma {:induction false} DigestUnused(cfg: Config, opening: map<WalletId, Wallet>, db: Db, user: Uuid, key: string)
    requires Inv(cfg, opening, db) && InjectiveDigest(cfg)
    requires forall t, text :: t in db.txs && db.txs[t].kind == Funding ==> db.txs[t].key != Some(cfg.digest(text))
    requires OrderKeyUnused(db.orders, user, key)
    ensures KeyUnused(db.txs, cfg.digest(UuidText(user) + ":" + key))
  {
    hide Inv, OrderKeyUnused;
    var text := UuidText(user) + ":" + key;
    forall t | t in db.txs ensures db.txs[t].key != Some(cfg.digest(text)) {
      KeyOfKind(cfg, opening, db, t);
      if db.txs[t].kind == OrderReserve {
        var id := ReservedFor(cfg, opening, db, t);
        LedgerTextInjective(db.orders[id].user, db.orders[id].key, user, key);
        NotOfKey(db.orders, user, key, id);
      }
    }
  }

  lemma NotOfKey(orders: map<Uuid, Order>, user: Uuid, key: string, id: Uuid)
    requires OrderKeyUnused(orders, user, key) && id in orders
    ensures orders[id].user != user || orders[id].key != key
  {
  }

  lemma KeyOfKind(cfg: Config, opening: map<WalletId, Wallet>, db: Db, t: Uuid)
    requires Inv(cfg, opening, db) && t in db.txs
    ensures db.txs[t].kind == OrderRelease ==> db.txs[t].key == None
    ensures db.txs[t].kind != Trade
  {
    hide Money, Life, OrdersOk;
  }

  /** The order that a reservation is for. */
  lemma ReservedFor(cfg: Config, opening: map<WalletId, Wallet>, db: Db, t: Uuid) returns (id: Uuid)
    requires Inv(cfg, opening, db) && t in db.txs && db.txs[t].kind == OrderReserve
    ensures id in db.orders && db.txs[t].key == Some(cfg.digest(UuidText(db.orders[id].user) + ":" + db.orders[id].key))
  {
    hide Money, Life, UuidText;
    assert HasReservation(db.orders, t);
    id :| id in db.orders && db.orders[id].tx == t;
    assert OrderOk(cfg, db.orders[id], db.txs, db.entries);
  }

  // ---------------------------------------------------------------- states that no run reaches

  /** Every answer of a cancellation on any database whatever, also for an order that is FILLED, whose asset is gone,
      or whose wallet does not cover it. */
  lemma CancelAnswerAnywhere(cfg: Config, db: Db, r: CancelRequest, d: Draw)
    ensures var answer := Cancel(cfg, db, r, d).outcome;
            if r.order !in db.orders || db.orders[r.order].user != r.user then answer == Refused(OrderNotFound)
            else
              var o := db.orders[r.order];
              var w := WalletId(User(r.user), if o.side == Buy then o.quote else o.base);
              answer == if forall c :: c in cfg.assets ==> cfg.assets[c].id != w.asset then Refused(ReservationState)
                        else if o.status == Canceled then Replayed(r.order)
                        else if o.status == Filled then Refused(OrderNotCancelable)
                        else if w !in db.wallets || db.wallets[w].locked < o.reserved then Refused(ReservationState)
                        else if d.tx in db.txs || d.event in db.events || HasReport(db.events, OrderCanceled, r.order)
                             then Refused(IntegrityViolation)
                        else Done(r.order)
  {
    hide HasEvent, HasReport, CancelDb;
    HasEventIsReport(db.events, OrderCanceled, r.order);
  }

  /** On any database a funding is replayed only by a POSTED FUNDING transaction with its key that credits its user
      with its amount; any other transaction with the key is a conflict. */
  lemma FundReplayAnywhere(db: Db, user: Uuid, asset: Uuid, amount: int, key: string)
    requires forall t, u | t in db.txs && u in db.txs && db.txs[t].key == db.txs[u].key == Some(key) :: t == u
    ensures forall t :: t in db.txs && db.txs[t].key == Some(key) ==>
              FundingReplay(db, user, asset, amount, key)
              == if db.txs[t].kind == Funding && db.txs[t].status == Posted
                    && exists k :: k in db.entries && k.tx == t && db.entries[k].wallet == WalletId(User(user), asset)
                         && db.entries[k].entryType == Credit && db.entries[k].bucket == Available && db.entries[k].amount == amount
                 then Earlier(t) else Mismatch
  {
    forall t | t in db.txs && db.txs[t].key == Some(key) ensures TxFor(db.txs, key) == Some(t) {
    }
    forall k | k in db.entries
      ensures IsFundingCredit(db.entries[k], WalletId(User(user), asset), amount)
         <==> db.entries[k].wallet == WalletId(User(user), asset) && db.entries[k].entryType == Credit
              && db.entries[k].bucket == Available && db.entries[k].amount == amount
    {
    }
  }

  // ---------------------------------------------------------------- codes

  /** The case of the letters in a code makes no difference to a funding. */
  lemma FundIgnoresCase(cfg: Config, db: Db, r: FundRequest, q: FundRequest, d: Draw)
    requires SameButCase(r.assetCode, q.assetCode) && r == q.(assetCode := r.assetCode)
    ensures Fund(cfg, db, r, d) == Fund(cfg, db, q, d)
  {
    hide Upper, SameButCase;
    CaseIgnored(r.assetCode, q.assetCode);
  }

  /** Nor to a creation. */
  lemma CreateIgnoresCase(cfg: Config, db: Db, r: CreateRequest, q: CreateRequest, d: Draw)
    requires SameButCase(r.baseCode, q.baseCode) && SameButCase(r.quoteCode, q.quoteCode)
    requires r == q.(baseCode := r.baseCode, quoteCode := r.quoteCode)
    ensures Create(cfg, db, r, d) == Create(cfg, db, q, d)
  {
    hide Upper, SameButCase;
    CaseIgnored(r.baseCode, q.baseCode);
    CaseIgnored(r.quoteCode, q.quoteCode);
  }
}
