/** An order that was created and canceled leaves no trace in what other calls did. */
module Erasure {
  import opened Tables
  import opened Rows
  import opened Services
  import opened Invariants
  import opened Preservation
  import opened Serial
  import opened Runs
  import opened Idempotency
  import opened Effects
  import D = Decimals

  // ---------------------------------------------------------------- a state without one order

  /** The reservation and the release of an order. */
  predicate Belongs(t: Uuid, tx: LedgerTx, id: Uuid, o: Order) {
    t == o.tx || Releases(tx, id)
  }

  function StillLocked(o: Order): nat {
    if o.status == Open then o.reserved else 0
  }

  /** `later` differs from `wallets` by what the order `o` still locks in its wallet, and by `extra` units. */
  ghost predicate WalletsWithout(o: Order, wallets: map<WalletId, Wallet>, later: map<WalletId, Wallet>, extra: int) {
    var w := o.ReserveWallet();
    && w in wallets
    && (forall v :: v in wallets <==> v in later)
    && (forall v :: v in wallets && v != w ==> later[v] == wallets[v])
    && later[w].locked == wallets[w].locked - StillLocked(o)
    && later[w].available == wallets[w].available + StillLocked(o) - extra
  }

  ghost predicate OrdersWithout(id: Uuid, orders: map<Uuid, Order>, later: map<Uuid, Order>) {
    && (forall i :: i in later <==> i in orders && i != id)
    && (forall i :: i in later ==> later[i] == orders[i])
  }

  ghost predicate TxsWithout(id: Uuid, o: Order, txs: map<Uuid, LedgerTx>, later: map<Uuid, LedgerTx>) {
    && (forall t :: t in later <==> t in txs && !Belongs(t, txs[t], id, o))
    && (forall t :: t in later ==> later[t] == txs[t])
  }

  /** The entries of the remaining transactions. */
  ghost predicate EntriesWithout(txs: map<Uuid, LedgerTx>, entries: map<EntryId, Entry>, later: map<EntryId, Entry>) {
    && (forall k :: k in later <==> k in entries && k.tx in txs)
    && (forall k :: k in later ==> later[k] == entries[k])
  }

  ghost predicate EventsWithout(id: Uuid, events: map<Uuid, Event>, later: map<Uuid, Event>) {
    && (forall e :: e in later <==> e in events && events[e].order != id)
    && (forall e :: e in later ==> later[e] == events[e])
  }

  /** `db'` is `db` without the order, its ledger rows, its events and what it moved. */
  ghost predicate Without(id: Uuid, db: Db, db': Db, extra: int) {
    && id in db.orders
    && WalletsWithout(db.orders[id], db.wallets, db'.wallets, extra)
    && OrdersWithout(id, db.orders, db'.orders)
    && TxsWithout(id, db.orders[id], db.txs, db'.txs)
    && EntriesWithout(db'.txs, db.entries, db'.entries)
    && EventsWithout(id, db.events, db'.events)
  }

  /** The calls that are about the order: its creation and the replays of it, its cancellation and the replays. */
  predicate Own(call: Call, id: Uuid, user: Uuid, key: string) {
    match call
    case FundCall(_) => false
    case CreateCall(q) => q.user == user && q.key == key
    case CancelCall(c) => c.order == id
  }

  /** The order's transactions are not those of a funding or of another order. */
  lemma OwnRows(cfg: Config, opening: map<WalletId, Wallet>, db: Db, id: Uuid)
    requires Inv(cfg, opening, db) && id in db.orders
    ensures var o := db.orders[id];
            && o.tx in db.txs && db.txs[o.tx].kind == OrderReserve && o.status != Filled
            && forall k :: k in db.entries ==> k.tx in db.txs
  {
    hide Money, Life, TxsOk;
    assert OrderOk(cfg, db.orders[id], db.txs, db.entries);
  }

  // ---------------------------------------------------------------- one table at a time

  /** A wallet row moves by the same amounts in both. */
  lemma RowWithout(o: Order, wallets: map<WalletId, Wallet>, later: map<WalletId, Wallet>, extra: int,
                   w: WalletId, row: Wallet, row': Wallet)
    requires WalletsWithout(o, wallets, later, extra)
    requires row'.available - row.available == WalletOr0(later, w).available - WalletOr0(wallets, w).available
    requires row'.locked - row.locked == WalletOr0(later, w).locked - WalletOr0(wallets, w).locked
    ensures WalletsWithout(o, wallets[w := row], later[w := row'], extra)
  {
  }

  /** Another transaction is posted in both. */
  lemma PostWithout(id: Uuid, o: Order, txs: map<Uuid, LedgerTx>, later: map<Uuid, LedgerTx>,
                    entries: map<EntryId, Entry>, entries': map<EntryId, Entry>, t: Uuid, tx: LedgerTx, x: Entry, y: Entry)
    requires TxsWithout(id, o, txs, later) && EntriesWithout(later, entries, entries')
    requires t !in txs && !Belongs(t, tx, id, o) && forall k :: k in entries ==> k.tx in txs
    ensures TxsWithout(id, o, txs[t := tx], later[t := tx])
    ensures EntriesWithout(later[t := tx], Post(entries, t, x, y), Post(entries', t, x, y))
  {
  }

  /** A transaction of the order is posted in one of them. */
  lemma PostOwn(id: Uuid, o: Order, txs: map<Uuid, LedgerTx>, later: map<Uuid, LedgerTx>,
                entries: map<EntryId, Entry>, entries': map<EntryId, Entry>, t: Uuid, tx: LedgerTx, x: Entry, y: Entry)
    requires TxsWithout(id, o, txs, later) && EntriesWithout(later, entries, entries')
    requires t !in txs && Belongs(t, tx, id, o) && forall k :: k in entries ==> k.tx in txs
    ensures TxsWithout(id, o, txs[t := tx], later)
    ensures EntriesWithout(later, Post(entries, t, x, y), entries')
  {
  }

  // ---------------------------------------------------------------- fundings

  lemma FundWithout(cfg: Config, opening: map<WalletId, Wallet>, db: Db, db': Db, id: Uuid, extra: int,
                    r: FundRequest, asset: Uuid, d: Draw)
    requires Inv(cfg, opening, db) && Without(id, db, db', extra) && FundGuard(db, r, asset, d)
    ensures FundGuard(db', r, asset, d) && Without(id, Funded(db, r, asset, d), Funded(db', r, asset, d), extra)
  {
    hide Inv, WalletsWithout, TxsWithout, EntriesWithout, Post;
    FundGuardWithout(db, db', id, extra, r, asset, d);
    OwnRows(cfg, opening, db, id);
    var o, t, u := db.orders[id], WalletId(Treasury, asset), WalletId(User(r.user), asset);
    var after, after' := Funded(db, r, asset, d), Funded(db', r, asset, d);
    RowWithout(o, db.wallets, db'.wallets, extra, t, after.wallets[t], after'.wallets[t]);
    RowWithout(o, db.wallets[t := after.wallets[t]], db'.wallets[t := after'.wallets[t]], extra, u, after.wallets[u], after'.wallets[u]);
    PostWithout(id, o, db.txs, db'.txs, db.entries, db'.entries, d.tx, after.txs[d.tx],
                Entry(t, Debit, Available, r.amount), Entry(u, Credit, Available, r.amount));
  }

  lemma FundGuardWithout(db: Db, db': Db, id: Uuid, extra: int, r: FundRequest, asset: Uuid, d: Draw)
    requires Without(id, db, db', extra) && FundGuard(db, r, asset, d)
    ensures FundGuard(db', r, asset, d)
    ensures db'.wallets[WalletId(Treasury, asset)] == db.wallets[WalletId(Treasury, asset)]
  {
  }

  /** A funding that is replayed is replayed. */
  lemma FundReplayWithout(cfg: Config, opening: map<WalletId, Wallet>, db: Db, db': Db, id: Uuid, extra: int,
                          user: Uuid, asset: Uuid, amount: int, key: string)
    requires Inv(cfg, opening, db) && Without(id, db, db', extra)
    requires FundingReplay(db, user, asset, amount, key).Earlier?
    ensures FundingReplay(db', user, asset, amount, key) == FundingReplay(db, user, asset, amount, key)
  {
    hide Money, OrdersOk, LedgerShape, Life;
    OwnRows(cfg, opening, db, id);
    var t := TxFor(db.txs, key).value;
    assert t in db'.txs;
    assert TxFor(db'.txs, key) == Some(t);
    var w := WalletId(User(user), asset);
    var k :| k in db.entries && k.tx == t && IsFundingCredit(db.entries[k], w, amount);
    assert k in db'.entries && IsFundingCredit(db'.entries[k], w, amount);
  }

  // ---------------------------------------------------------------- creations

  /** A creation needs its balance; without the order there is at least as much. */
  lemma CreateWithout(cfg: Config, opening: map<WalletId, Wallet>, db: Db, db': Db, id: Uuid, extra: int,
                      o: Order, v: nat, d: Draw)
    requires Inv(cfg, opening, db) && Without(id, db, db', extra) && CreateGuard(cfg, db, o, v, d)
    requires extra == 0 || Covers(db'.wallets[o.ReserveWallet()], v)
    ensures CreateGuard(cfg, db', o, v, d) && Without(id, Created(cfg, db, o, v, d), Created(cfg, db', o, v, d), extra)
  {
    hide Inv, WalletsWithout, TxsWithout, EntriesWithout, Post, CreateGuard, LedgerKey, Exact, D.Store, Reserve, Covers;
    CreateGuardWithout(cfg, db, db', id, extra, o, v, d);
    OwnRows(cfg, opening, db, id);
    var w := o.ReserveWallet();
    ReserveWithout(db.orders[id], db.wallets, db'.wallets, extra, w, v);
    PostWithout(id, db.orders[id], db.txs, db'.txs, db.entries, db'.entries, d.tx, ReserveTx(cfg, o),
                Entry(w, Debit, Available, o.reserved), Entry(w, Credit, Locked, o.reserved));
  }

  lemma ReserveWithout(o: Order, wallets: map<WalletId, Wallet>, later: map<WalletId, Wallet>, extra: int, w: WalletId, v: nat)
    requires WalletsWithout(o, wallets, later, extra) && w in wallets && w in later
    requires Covers(wallets[w], v) && Covers(later[w], v)
    ensures WalletsWithout(o, wallets[w := Reserve(wallets[w], v)], later[w := Reserve(later[w], v)], extra)
  {
    hide WalletsWithout, Reserve, Covers;
    ReserveMoves(wallets[w], v);
    ReserveMoves(later[w], v);
    RowWithout(o, wallets, later, extra, w, Reserve(wallets[w], v), Reserve(later[w], v));
  }

  lemma CreateGuardWithout(cfg: Config, db: Db, db': Db, id: Uuid, extra: int, o: Order, v: nat, d: Draw)
    requires Without(id, db, db', extra) && CreateGuard(cfg, db, o, v, d)
    requires extra == 0 || Covers(db'.wallets[o.ReserveWallet()], v)
    ensures CreateGuard(cfg, db', o, v, d)
    ensures d.tx !in db.txs && o.tx == d.tx && d.order !in db.orders && d.event !in db.events
    ensures o.ReserveWallet() in db.wallets && o.ReserveWallet() in db'.wallets
    ensures Covers(db.wallets[o.ReserveWallet()], v) && Covers(db'.wallets[o.ReserveWallet()], v)
  {
    hide LedgerKey, Exact, D.Store, EntriesWithout;
    assert extra == 0 ==> db'.wallets[o.ReserveWallet()].available >= db.wallets[o.ReserveWallet()].available;
  }

  lemma OrderReplayWithout(cfg: Config, opening: map<WalletId, Wallet>, db: Db, db': Db, id: Uuid, extra: int,
                           r: CreateRequest, base: Uuid, quote: Uuid)
    requires Inv(cfg, opening, db) && Without(id, db, db', extra) && !IsOrderOf(db.orders[id], r.user, r.key)
    ensures OrderReplay(db'.orders, r, base, quote) == OrderReplay(db.orders, r, base, quote)
  {
    hide Inv;
    var found := OrderFor(db.orders, r.user, r.key);
    var found' := OrderFor(db'.orders, r.user, r.key);
    if found.Some? {
      assert found.value in db'.orders && IsOrderOf(db'.orders[found.value], r.user, r.key);
      OneOrderPerKey(cfg, opening, db, found.value, found'.value);
    }
  }

  // ---------------------------------------------------------------- cancellations

  lemma CancelWithout(cfg: Config, opening: map<WalletId, Wallet>, db: Db, db': Db, id: Uuid, extra: int, x: Uuid, d: Draw)
    requires Inv(cfg, opening, db) && Inv(cfg, opening, db') && Without(id, db, db', extra)
    requires x != id && CancelGuard(db, x, d)
    ensures CancelGuard(db', x, d) && Without(id, CanceledDb(db, x, d), CanceledDb(db', x, d), extra)
  {
    hide Inv, WalletsWithout, TxsWithout, EntriesWithout, Post;
    CancelGuardWithout(cfg, opening, db, db', id, extra, x, d);
    OwnRows(cfg, opening, db, id);
    var o := db.orders[x];
    var w := o.ReserveWallet();
    var after, after' := CanceledDb(db, x, d), CanceledDb(db', x, d);
    RowWithout(db.orders[id], db.wallets, db'.wallets, extra, w, after.wallets[w], after'.wallets[w]);
    PostWithout(id, db.orders[id], db.txs, db'.txs, db.entries, db'.entries, d.tx, after.txs[d.tx],
                Entry(w, Debit, Locked, o.reserved), Entry(w, Credit, Available, o.reserved));
  }

  lemma CancelGuardWithout(cfg: Config, opening: map<WalletId, Wallet>, db: Db, db': Db, id: Uuid, extra: int, x: Uuid, d: Draw)
    requires Inv(cfg, opening, db') && Without(id, db, db', extra)
    requires x != id && CancelGuard(db, x, d)
    ensures CancelGuard(db', x, d) && db'.orders[x] == db.orders[x]
  {
    hide Inv, EntriesWithout;
    OrderFacts(cfg, opening, db', x);
  }

  /** The cancellation of the order itself changes nothing outside it. */
  lemma OwnCancelWithout(cfg: Config, opening: map<WalletId, Wallet>, db: Db, db': Db, id: Uuid, extra: int, d: Draw)
    requires Inv(cfg, opening, db) && Without(id, db, db', extra) && CancelGuard(db, id, d)
    ensures Without(id, CanceledDb(db, id, d), db', extra)
  {
    hide Inv, TxsWithout, EntriesWithout, Post;
    OwnRows(cfg, opening, db, id);
    var o := db.orders[id];
    var w := o.ReserveWallet();
    PostOwn(id, o, db.txs, db'.txs, db.entries, db'.entries, d.tx, CanceledDb(db, id, d).txs[d.tx],
            Entry(w, Debit, Locked, o.reserved), Entry(w, Credit, Available, o.reserved));
    assert TxsWithout(id, o.(status := Canceled), CanceledDb(db, id, d).txs, db'.txs) by {
      SameBelongings(id, o, o.(status := Canceled), CanceledDb(db, id, d).txs, db'.txs);
    }
  }

  lemma SameBelongings(id: Uuid, o: Order, o': Order, txs: map<Uuid, LedgerTx>, later: map<Uuid, LedgerTx>)
    requires TxsWithout(id, o, txs, later) && o'.tx == o.tx
    ensures TxsWithout(id, o', txs, later)
  {
  }

  /** Before its creation the order is not there. */
  lemma CreationWithout(cfg: Config, opening: map<WalletId, Wallet>, db: Db, o: Order, v: nat, d: Draw)
    requires Inv(cfg, opening, db) && CreateGuard(cfg, db, o, v, d)
    ensures Without(d.order, Created(cfg, db, o, v, d), db, if D.Tie(v) then 1 else 0)
  {
    hide Inv, TxsWithout, EntriesWithout, Post, LedgerKey, Exact, D.Store, Reserve;
    NothingYet(cfg, opening, db, o, d);
    var w := o.ReserveWallet();
    ReserveMoves(db.wallets[w], v);
    PostOwn(d.order, o, db.txs, db.txs, db.entries, db.entries, d.tx, ReserveTx(cfg, o),
            Entry(w, Debit, Available, o.reserved), Entry(w, Credit, Locked, o.reserved));
  }

  lemma NothingYet(cfg: Config, opening: map<WalletId, Wallet>, db: Db, o: Order, d: Draw)
    requires Inv(cfg, opening, db) && d.order !in db.orders && d.tx !in db.txs && o.tx == d.tx
    ensures TxsWithout(d.order, o, db.txs, db.txs) && EntriesWithout(db.txs, db.entries, db.entries)
    ensures EventsWithout(d.order, db.events, db.events)
    ensures forall k :: k in db.entries ==> k.tx in db.txs
  {
    hide Money, OrdersOk, TxsOk;
  }

  // ---------------------------------------------------------------- one call

  /** Another call that succeeds still succeeds, with the same answer, and again only the order is missing.
      If the order gained `extra` units, this is so unless the call needs them. */
  lemma OtherCall(cfg: Config, opening: map<WalletId, Wallet>, db: Db, db': Db, id: Uuid, extra: int, inv: Invocation)
    requires Inv(cfg, opening, db) && Inv(cfg, opening, db') && Without(id, db, db', extra)
    requires !Own(inv.call, id, db.orders[id].user, db.orders[id].key)
    requires !Serve(cfg, db, inv).outcome.Refused?
    requires extra == 0 || Serve(cfg, db', inv).outcome == Serve(cfg, db, inv).outcome
    ensures Serve(cfg, db', inv).outcome == Serve(cfg, db, inv).outcome
    ensures Without(id, Serve(cfg, db, inv).db, Serve(cfg, db', inv).db, extra)
  {
    hide Inv, Without;
    match inv.call
    case FundCall(r) => OtherFund(cfg, opening, db, db', id, extra, r, inv.draw);
    case CreateCall(r) => OtherCreate(cfg, opening, db, db', id, extra, r, inv.draw);
    case CancelCall(r) => OtherCancel(cfg, opening, db, db', id, extra, r, inv.draw);
  }

  lemma OtherFund(cfg: Config, opening: map<WalletId, Wallet>, db: Db, db': Db, id: Uuid, extra: int, r: FundRequest, d: Draw)
    requires Inv(cfg, opening, db) && Without(id, db, db', extra)
    requires !Fund(cfg, db, r, d).outcome.Refused?
    ensures Fund(cfg, db', r, d).outcome == Fund(cfg, db, r, d).outcome
    ensures Without(id, Fund(cfg, db, r, d).db, Fund(cfg, db', r, d).db, extra)
  {
    hide Inv, Without, FundGuard, FundingReplay, FundDb;
    var asset := ActiveAsset(cfg, r.assetCode).value;
    FundDone(cfg, db, r, d, asset);
    FundDone(cfg, db', r, d, asset);
    if Fund(cfg, db, r, d).outcome.Done? {
      FundWithout(cfg, opening, db, db', id, extra, r, asset, d);
    } else {
      FundReplayWithout(cfg, opening, db, db', id, extra, r.user, asset, r.amount, r.key);
    }
  }

  lemma OtherCreate(cfg: Config, opening: map<WalletId, Wallet>, db: Db, db': Db, id: Uuid, extra: int, r: CreateRequest, d: Draw)
    requires Inv(cfg, opening, db) && Inv(cfg, opening, db') && Without(id, db, db', extra)
    requires !IsOrderOf(db.orders[id], r.user, r.key)
    requires !Create(cfg, db, r, d).outcome.Refused?
    requires extra == 0 || Create(cfg, db', r, d).outcome == Create(cfg, db, r, d).outcome
    ensures Create(cfg, db', r, d).outcome == Create(cfg, db, r, d).outcome
    ensures Without(id, Create(cfg, db, r, d).db, Create(cfg, db', r, d).db, extra)
  {
    hide Inv, Without, CreateGuard, OrderReplay, CreateDb, Exact;
    var base, quote := ActiveAsset(cfg, r.baseCode).value, ActiveAsset(cfg, r.quoteCode).value;
    InvLife(cfg, opening, db);
    InvLife(cfg, opening, db');
    OrderReplayWithout(cfg, opening, db, db', id, extra, r, base, quote);
    if Create(cfg, db, r, d).outcome.Done? {
      CreateDone(cfg, db, r, d, base, quote);
      CreateDone(cfg, db', r, d, base, quote);
      var o, v := NewOrder(r, base, quote, d.tx), Exact(r.side, r.price, r.quantity);
      if extra != 0 {
        GuardCovers(cfg, db', o, v, d);
      }
      CreateWithout(cfg, opening, db, db', id, extra, o, v, d);
    }
  }

  lemma GuardCovers(cfg: Config, db: Db, o: Order, v: nat, d: Draw)
    requires CreateGuard(cfg, db, o, v, d)
    ensures o.ReserveWallet() in db.wallets && Covers(db.wallets[o.ReserveWallet()], v)
  {
  }

  lemma OtherCancel(cfg: Config, opening: map<WalletId, Wallet>, db: Db, db': Db, id: Uuid, extra: int, r: CancelRequest, d: Draw)
    requires Inv(cfg, opening, db) && Inv(cfg, opening, db') && Without(id, db, db', extra) && r.order != id
    requires !Cancel(cfg, db, r, d).outcome.Refused?
    ensures Cancel(cfg, db', r, d).outcome == Cancel(cfg, db, r, d).outcome
    ensures Without(id, Cancel(cfg, db, r, d).db, Cancel(cfg, db', r, d).db, extra)
  {
    hide Inv, CancelGuard, CancelDb;
    assert r.order in db'.orders && db'.orders[r.order] == db.orders[r.order];
    CancelDone(cfg, opening, db, r, d);
    CancelDone(cfg, opening, db', r, d);
    if Cancel(cfg, db, r, d).outcome.Done? {
      CancelWithout(cfg, opening, db, db', id, extra, r.order, d);
    }
  }

  /** A successful call about the order itself changes nothing outside it. */
  lemma OwnCall(cfg: Config, opening: map<WalletId, Wallet>, db: Db, db': Db, id: Uuid, extra: int, inv: Invocation)
    requires Inv(cfg, opening, db) && Without(id, db, db', extra)
    requires Own(inv.call, id, db.orders[id].user, db.orders[id].key)
    requires !Serve(cfg, db, inv).outcome.Refused?
    ensures Without(id, Serve(cfg, db, inv).db, db', extra)
  {
    hide Inv, WalletsWithout, TxsWithout, OrdersWithout, EntriesWithout, EventsWithout, CancelGuard, Create, Cancel, Exact;
    OnlyDoneChanges(cfg, db, inv);
    if Serve(cfg, db, inv).outcome.Done? {
      match inv.call
      case CreateCall(q) =>
        SpentIsNotDone(cfg, opening, db, inv.call, inv);
      case CancelCall(c) =>
        CancelDone(cfg, opening, db, c, inv.draw);
        OwnCancelWithout(cfg, opening, db, db', id, extra, inv.draw);
    }
  }

  // ---------------------------------------------------------------- whole runs

  /** The run without its refused calls and without the calls about one order. */
  ghost function Erase(cfg: Config, db0: Db, run: seq<Invocation>, id: Uuid, user: Uuid, key: string): seq<Invocation>
    decreases |run|
  {
    if run == [] then [] else
    var before, last := Erase(cfg, db0, run[..|run| - 1], id, user, key), run[|run| - 1];
    if Answer(cfg, db0, run, |run| - 1).Refused? || Own(last.call, id, user, key) then before else before + [last]
  }

  /** Every call of the run is answered with a result or a replay. */
  ghost predicate AllSucceed(cfg: Config, db0: Db, run: seq<Invocation>) {
    forall k :: 0 <= k < |run| ==> !Answer(cfg, db0, run, k).Refused?
  }

  /** The answer that the k-th call of `run` gets when the order's calls and the refused calls are left out. */
  ghost function AnswerWithout(cfg: Config, db0: Db, run: seq<Invocation>, k: nat, id: Uuid, user: Uuid, key: string): Outcome
    requires k < |run|
  {
    Serve(cfg, Run(cfg, db0, Erase(cfg, db0, run[..k], id, user, key)), run[k]).outcome
  }

  /** The other successful calls get the same answers when the order's calls are left out. */
  ghost predicate SameAnswers(cfg: Config, db0: Db, run: seq<Invocation>, id: Uuid, user: Uuid, key: string) {
    forall k :: 0 <= k < |run| && !Answer(cfg, db0, run, k).Refused? && !Own(run[k].call, id, user, key) ==>
      AnswerWithout(cfg, db0, run, k, id, user, key) == Answer(cfg, db0, run, k)
  }

  /** The exact amount of the reservation lies on a half unit. */
  predicate Tied(r: CreateRequest) {
    r.price > 0 && r.quantity > 0 && D.Tie(Exact(r.side, r.price, r.quantity))
  }

  /** The i-th call of the run creates an order. */
  ghost predicate CreatesAt(cfg: Config, db0: Db, run: seq<Invocation>, i: nat, r: CreateRequest) {
    i < |run| && run[i].call == CreateCall(r) && Answer(cfg, db0, run, i).Done?
  }

  lemma {:induction false} RunNext(cfg: Config, db0: Db, run: seq<Invocation>, k: nat)
    requires k < |run|
    ensures Run(cfg, db0, run[..k + 1]) == Serve(cfg, Run(cfg, db0, run[..k]), run[k]).db
  {
    assert run[..k + 1][..k] == run[..k];
  }

  lemma {:induction false} EraseNext(cfg: Config, db0: Db, run: seq<Invocation>, k: nat, id: Uuid, user: Uuid, key: string)
    requires k < |run|
    ensures Erase(cfg, db0, run[..k + 1], id, user, key)
         == if Answer(cfg, db0, run, k).Refused? || Own(run[k].call, id, user, key) then Erase(cfg, db0, run[..k], id, user, key)
            else Erase(cfg, db0, run[..k], id, user, key) + [run[k]]
  {
    hide Serve, Run;
    assert run[..k + 1][..k] == run[..k];
  }

  /** Everything after the k-th call still has the rows of that call. */
  lemma {:induction false} RowsStay(cfg: Config, db0: Db, run: seq<Invocation>, k: nat, n: nat)
    requires Initial(db0) && k <= n <= |run|
    ensures Inv(cfg, db0.wallets, Run(cfg, db0, run[..k])) && Inv(cfg, db0.wallets, Run(cfg, db0, run[..n]))
    ensures Grows(Run(cfg, db0, run[..k]), Run(cfg, db0, run[..n]))
  {
    hide Inv, Serve, Grows;
    InitialInv(cfg, db0);
    RunKeeps(cfg, db0.wallets, db0, run[..k]);
    RunKeeps(cfg, db0.wallets, db0, run[..n]);
    assert run[..n] == run[..k] + run[k..n];
    RunConcat(cfg, db0, run[..k], run[k..n]);
    RunGrows(cfg, db0.wallets, Run(cfg, db0, run[..k]), run[k..n]);
  }

  /** A successful call about an order leaves the order. */
  lemma OwnLeaves(cfg: Config, opening: map<WalletId, Wallet>, db: Db, inv: Invocation, id: Uuid, r: CreateRequest)
    requires Inv(cfg, opening, db) && !Serve(cfg, db, inv).outcome.Refused? && Own(inv.call, id, r.user, r.key)
    ensures inv.call.CreateCall? ==> Spent(Serve(cfg, db, inv).db, CreateCall(r))
    ensures inv.call.CancelCall? ==> id in Serve(cfg, db, inv).db.orders
  {
    hide Inv, Exact, Upper;
    if Serve(cfg, db, inv).outcome.Done? {
      DoneSpends(cfg, opening, db, inv);
    } else if inv.call.CreateCall? {
      assert OrderFor(db.orders, r.user, r.key).Some?;
    }
  }

  /** No successful call about an order precedes its creation. */
  lemma NotOwnBefore(cfg: Config, db0: Db, run: seq<Invocation>, i: nat, r: CreateRequest, k: nat)
    requires Initial(db0) && CreatesAt(cfg, db0, run, i, r)
    requires k < i && !Answer(cfg, db0, run, k).Refused?
    ensures !Own(run[k].call, run[i].draw.order, r.user, r.key)
  {
    hide Inv, Serve, Spent, Create;
    if Own(run[k].call, run[i].draw.order, r.user, r.key) {
      var dbi := Run(cfg, db0, run[..i]);
      RowsStay(cfg, db0, run, k, i);
      RowsStay(cfg, db0, run, k + 1, i);
      RunNext(cfg, db0, run, k);
      OwnLeaves(cfg, db0.wallets, Run(cfg, db0, run[..k]), run[k], run[i].draw.order, r);
      assert Serve(cfg, dbi, run[i]).outcome == Create(cfg, dbi, r, run[i].draw).outcome by { ServeCreate(cfg, dbi, run[i]); }
      if run[k].call.CreateCall? {
        SpentStays(Run(cfg, db0, run[..k + 1]), dbi, CreateCall(r));
        SpentIsNotDone(cfg, db0.wallets, dbi, CreateCall(r), run[i]);
      } else {
        CreatedOrder(cfg, db0.wallets, dbi, r, run[i].draw);
      }
    }
  }

  lemma ServeCreate(cfg: Config, db: Db, inv: Invocation)
    requires inv.call.CreateCall?
    ensures Serve(cfg, db, inv) == Create(cfg, db, inv.call.create, inv.draw)
  {
  }

  /** Up to its creation the order is not missed. */
  lemma {:induction false} EraseBefore(cfg: Config, db0: Db, run: seq<Invocation>, i: nat, r: CreateRequest, n: nat)
    requires Initial(db0) && CreatesAt(cfg, db0, run, i, r) && n <= i < |run|
    ensures Run(cfg, db0, Erase(cfg, db0, run[..n], run[i].draw.order, r.user, r.key)) == Run(cfg, db0, run[..n])
    decreases n
  {
    hide Serve, CreatesAt, Own;
    if n > 0 {
      var k, id := n - 1, run[i].draw.order;
      EraseBefore(cfg, db0, run, i, r, k);
      RunNext(cfg, db0, run, k);
      EraseNext(cfg, db0, run, k, id, r.user, r.key);
      if Answer(cfg, db0, run, k).Refused? {
        OnlyDoneChanges(cfg, Run(cfg, db0, run[..k]), run[k]);
      } else {
        NotOwnBefore(cfg, db0, run, i, r, k);
        RunOne(cfg, db0, Erase(cfg, db0, run[..k], id, r.user, r.key), run[k]);
      }
    }
  }

  lemma {:induction false} CreatesInRun(cfg: Config, db0: Db, run: seq<Invocation>, i: nat, r: CreateRequest)
    requires CreatesAt(cfg, db0, run, i, r)
    ensures i < |run| && run[i].call == CreateCall(r) && Own(run[i].call, run[i].draw.order, r.user, r.key)
    ensures Create(cfg, Run(cfg, db0, run[..i]), r, run[i].draw).outcome.Done?
  {
  }

  /** The two runs side by side: the erased run stays the full run without the order. */
  lemma {:induction false} SideBySide(cfg: Config, db0: Db, run: seq<Invocation>, i: nat, r: CreateRequest, n: nat)
    requires Initial(db0) && CreatesAt(cfg, db0, run, i, r) && i < n <= |run|
    requires Tied(r) ==> SameAnswers(cfg, db0, run, run[i].draw.order, r.user, r.key)
    ensures var id, full := run[i].draw.order, Run(cfg, db0, run[..n]);
            && Without(id, full, Run(cfg, db0, Erase(cfg, db0, run[..n], id, r.user, r.key)), if Tied(r) then 1 else 0)
            && IsOrderOf(full.orders[id], r.user, r.key)
    decreases n
  {
    hide Inv, Serve, CreatesAt, Create, Tied, Without, Run, Erase, Grows, SameAnswers, Own;
    CreatesInRun(cfg, db0, run, i, r);
    var k, id := n - 1, run[i].draw.order;
    var db, db' := Run(cfg, db0, run[..k]), Run(cfg, db0, Erase(cfg, db0, run[..k], id, r.user, r.key));
    var extra := if Tied(r) then 1 else 0;
    RunNext(cfg, db0, run, k);
    EraseNext(cfg, db0, run, k, id, r.user, r.key);
    RowsStay(cfg, db0, run, k, n);
    if k == i {
      EraseBefore(cfg, db0, run, i, r, i);
      ServeCreate(cfg, db, run[i]);
      Starts(cfg, db0.wallets, db, r, run[i].draw);
    } else {
      SideBySide(cfg, db0, run, i, r, k);
      HasOrder(id, db, db', extra);
      SameOwner(db, Run(cfg, db0, run[..n]), id);
      InitialInv(cfg, db0);
      RunKeeps(cfg, db0.wallets, db0, Erase(cfg, db0, run[..k], id, r.user, r.key));
      if Answer(cfg, db0, run, k).Refused? {
        OnlyDoneChanges(cfg, db, run[k]);
      } else if Own(run[k].call, id, r.user, r.key) {
        OwnCall(cfg, db0.wallets, db, db', id, extra, run[k]);
      } else {
        if Tied(r) {
          SameAnswerAt(cfg, db0, run, k, id, r.user, r.key);
        }
        OtherCall(cfg, db0.wallets, db, db', id, extra, run[k]);
        RunOne(cfg, db0, Erase(cfg, db0, run[..k], id, r.user, r.key), run[k]);
      }
    }
  }

  lemma {:induction false} SameAnswerAt(cfg: Config, db0: Db, run: seq<Invocation>, k: nat, id: Uuid, user: Uuid, key: string)
    requires SameAnswers(cfg, db0, run, id, user, key) && k < |run|
    requires !Answer(cfg, db0, run, k).Refused? && !Own(run[k].call, id, user, key)
    ensures Serve(cfg, Run(cfg, db0, Erase(cfg, db0, run[..k], id, user, key)), run[k]).outcome
         == Serve(cfg, Run(cfg, db0, run[..k]), run[k]).outcome
  {
    hide Serve, Run, Erase;
    assert AnswerWithout(cfg, db0, run, k, id, user, key) == Answer(cfg, db0, run, k);
  }

  lemma SameOwner(db: Db, later: Db, id: Uuid)
    requires Grows(db, later) && id in db.orders
    ensures id in later.orders && later.orders[id].user == db.orders[id].user && later.orders[id].key == db.orders[id].key
  {
  }

  lemma {:induction false} RunOne(cfg: Config, db0: Db, run: seq<Invocation>, inv: Invocation)
    ensures Run(cfg, db0, run + [inv]) == Serve(cfg, Run(cfg, db0, run), inv).db
  {
    assert (run + [inv])[..|run|] == run;
  }

  /** Right after its creation the order is the only difference. */
  lemma Starts(cfg: Config, opening: map<WalletId, Wallet>, db: Db, r: CreateRequest, d: Draw)
    requires Inv(cfg, opening, db) && Create(cfg, db, r, d).outcome.Done?
    ensures var after := Create(cfg, db, r, d).db;
            Without(d.order, after, db, if Tied(r) then 1 else 0) && IsOrderOf(after.orders[d.order], r.user, r.key)
  {
    hide Money, Books, Life, CreateGuard, Create, Exact, Without, Created;
    CreatedOrder(cfg, opening, db, r, d);
    var base, quote := ActiveAsset(cfg, r.baseCode).value, ActiveAsset(cfg, r.quoteCode).value;
    CreateDone(cfg, db, r, d, base, quote);
    CreationWithout(cfg, opening, db, NewOrder(r, base, quote, d.tx), Exact(r.side, r.price, r.quantity), d);
  }

  /** Every other call is answered as before. */
  lemma OthersAnswered(cfg: Config, db0: Db, run: seq<Invocation>, i: nat, r: CreateRequest)
    requires Initial(db0) && CreatesAt(cfg, db0, run, i, r) && !Tied(r)
    ensures i < |run| && SameAnswers(cfg, db0, run, run[i].draw.order, r.user, r.key)
  {
    hide Inv, Serve, CreatesAt, Create, Without, Tied;
    CreatesInRun(cfg, db0, run, i, r);
    var id := run[i].draw.order;
    forall k | 0 <= k < |run| && !Answer(cfg, db0, run, k).Refused? && !Own(run[k].call, id, r.user, r.key)
      ensures AnswerWithout(cfg, db0, run, k, id, r.user, r.key) == Answer(cfg, db0, run, k)
    {
      if k <= i {
        EraseBefore(cfg, db0, run, i, r, k);
      } else {
        var without := Erase(cfg, db0, run[..k], id, r.user, r.key);
        SideBySide(cfg, db0, run, i, r, k);
        RowsStay(cfg, db0, run, k, k);
        InitialInv(cfg, db0);
        RunKeeps(cfg, db0.wallets, db0, without);
        HasOrder(id, Run(cfg, db0, run[..k]), Run(cfg, db0, without), 0);
        OtherCall(cfg, db0.wallets, Run(cfg, db0, run[..k]), Run(cfg, db0, without), id, 0, run[k]);
      }
    }
  }

  lemma HasOrder(id: Uuid, db: Db, db': Db, extra: int)
    requires Without(id, db, db', extra)
    ensures id in db.orders
  {
  }

  /** With the same answers, the erased run is a run in which every call succeeds. */
  lemma {:induction false} ErasedSucceeds(cfg: Config, db0: Db, run: seq<Invocation>, id: Uuid, user: Uuid, key: string, n: nat)
    requires SameAnswers(cfg, db0, run, id, user, key) && n <= |run|
    ensures AllSucceed(cfg, db0, Erase(cfg, db0, run[..n], id, user, key))
    decreases n
  {
    hide Serve, Run, AllSucceed, SameAnswers, Erase, Own;
    if n == 0 {
      NothingSucceeds(cfg, db0, run[..0], id, user, key);
    } else {
      var before := Erase(cfg, db0, run[..n - 1], id, user, key);
      ErasedSucceeds(cfg, db0, run, id, user, key, n - 1);
      EraseNext(cfg, db0, run, n - 1, id, user, key);
      if !Answer(cfg, db0, run, n - 1).Refused? && !Own(run[n - 1].call, id, user, key) {
        SameAnswerAt(cfg, db0, run, n - 1, id, user, key);
        OneMoreSucceeds(cfg, db0, before, run[n - 1]);
      }
    }
  }

  lemma {:induction false} NothingSucceeds(cfg: Config, db0: Db, run: seq<Invocation>, id: Uuid, user: Uuid, key: string)
    requires run == []
    ensures AllSucceed(cfg, db0, Erase(cfg, db0, run, id, user, key))
  {
  }

  lemma {:induction false} OneMoreSucceeds(cfg: Config, db0: Db, run: seq<Invocation>, inv: Invocation)
    requires AllSucceed(cfg, db0, run) && !Serve(cfg, Run(cfg, db0, run), inv).outcome.Refused?
    ensures AllSucceed(cfg, db0, run + [inv])
  {
    hide Serve, Run;
    var after := run + [inv];
    forall k | 0 <= k < |after| ensures !Answer(cfg, db0, after, k).Refused? {
      assert after[..k] == run[..k];
      if k < |run| {
        assert !Answer(cfg, db0, run, k).Refused?;
      } else {
        assert run[..k] == run;
      }
    }
  }

  /** The run without its refused calls. */
  ghost function Effective(cfg: Config, db0: Db, run: seq<Invocation>): seq<Invocation>
    decreases |run|
  {
    if run == [] then [] else
    var before := Effective(cfg, db0, run[..|run| - 1]);
    if Answer(cfg, db0, run, |run| - 1).Refused? then before else before + [run[|run| - 1]]
  }

  /** Refused calls can always be left out: the others succeed and end in the same state. */
  lemma {:induction false} EffectiveRun(cfg: Config, db0: Db, run: seq<Invocation>)
    ensures AllSucceed(cfg, db0, Effective(cfg, db0, run))
    ensures Run(cfg, db0, Effective(cfg, db0, run)) == Run(cfg, db0, run)
    decreases |run|
  {
    hide Serve;
    if run != [] {
      var before, last := run[..|run| - 1], run[|run| - 1];
      EffectiveRun(cfg, db0, before);
      if Answer(cfg, db0, run, |run| - 1).Refused? {
        OnlyDoneChanges(cfg, Run(cfg, db0, before), last);
      } else {
        OneMoreSucceeds(cfg, db0, Effective(cfg, db0, before), last);
        RunOne(cfg, db0, Effective(cfg, db0, before), last);
      }
    }
  }

  // ---------------------------------------------------------------- main results

  /** A creation whose amount does not lie on a half unit can be taken out of any run, together with the calls
      about its order: every other call that succeeded still succeeds with the same answer, and the final states
      differ by that order's rows and by what it still locks.  Refused calls are left out too (they changed
      nothing): with the order gone some of them would be granted and use up what later calls need. */
  lemma {:induction false} ErasedOrder(cfg: Config, db0: Db, run: seq<Invocation>, i: nat, r: CreateRequest)
    requires Initial(db0) && CreatesAt(cfg, db0, run, i, r) && !Tied(r)
    ensures i < |run|
    ensures var id := run[i].draw.order;
            var erased := Erase(cfg, db0, run, id, r.user, r.key);
            && SameAnswers(cfg, db0, run, id, r.user, r.key)
            && AllSucceed(cfg, db0, erased)
            && Without(id, Run(cfg, db0, run), Run(cfg, db0, erased), 0)
  {
    hide Inv, Serve, CreatesAt, Without, Tied, AllSucceed, SameAnswers;
    CreatesInRun(cfg, db0, run, i, r);
    OthersAnswered(cfg, db0, run, i, r);
    assert run[..|run|] == run;
    ErasedSucceeds(cfg, db0, run, run[i].draw.order, r.user, r.key, |run|);
    SideBySide(cfg, db0, run, i, r, |run|);
  }

  /** The order was canceled at j. */
  lemma {:induction false} CanceledAtEnd(cfg: Config, db0: Db, run: seq<Invocation>, j: nat, id: Uuid)
    requires Initial(db0) && j < |run| && run[j].call.CancelCall? && run[j].call.cancel.order == id
    requires Answer(cfg, db0, run, j).Done?
    ensures id in Run(cfg, db0, run).orders && Run(cfg, db0, run).orders[id].status == Canceled
  {
    hide Inv, Serve;
    RowsStay(cfg, db0, run, j, |run|);
    RowsStay(cfg, db0, run, j + 1, |run|);
    RunNext(cfg, db0, run, j);
    assert run[..|run|] == run;
    DoneSpends(cfg, db0.wallets, Run(cfg, db0, run[..j]), run[j]);
  }

  /** Erasure of a reservation, exactly: an order that is created and canceled can be taken out of a run so that
      every other successful call gets the same answer and all final balances are the same, if and only if its
      exact amount does not lie on a half unit. */
  lemma {:induction false} ErasureExact(cfg: Config, db0: Db, run: seq<Invocation>, i: nat, r: CreateRequest, j: nat)
    requires Initial(db0) && CreatesAt(cfg, db0, run, i, r)
    requires i < j < |run| && run[j].call.CancelCall? && run[j].call.cancel.order == run[i].draw.order
    requires Answer(cfg, db0, run, j).Done?
    ensures var id := run[i].draw.order;
            var erased := Erase(cfg, db0, run, id, r.user, r.key);
            !Tied(r) <==> SameAnswers(cfg, db0, run, id, r.user, r.key)
                          && Run(cfg, db0, erased).wallets == Run(cfg, db0, run).wallets
  {
    hide Inv, Serve, CreatesAt, Tied, AllSucceed, SameAnswers, OrdersWithout, TxsWithout, EntriesWithout, EventsWithout;
    var id := run[i].draw.order;
    CanceledAtEnd(cfg, db0, run, j, id);
    assert run[..|run|] == run;
    if !Tied(r) {
      ErasedOrder(cfg, db0, run, i, r);
    } else if SameAnswers(cfg, db0, run, id, r.user, r.key) {
      SideBySide(cfg, db0, run, i, r, |run|);
    }
  }
}
