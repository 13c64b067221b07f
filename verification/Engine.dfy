/** The services as they run: one session at a time, writing rows step by step and committing or rolling back. */
module Engine {
  import opened Tables
  import opened Rows
  import opened Services
  import opened Invariants
  import opened Idempotency
  import opened Relay
  import opened Drain
  import D = Decimals

  /** A round of the relay keeps what all processes keep. */
  lemma RoundKeeps(cfg: Config, opening: map<WalletId, Wallet>, db: Db, broker: seq<Message>, only: Option<Uuid>, turn: Turn)
    requires SystemOk(cfg, opening, System(db, broker, map[]))
    ensures var o := Round(Outbox(db.events, broker), only, turn).outbox;
            SystemOk(cfg, opening, System(db.(events := o.events), o.broker, map[]))
  {
    hide Inv, BrokerOk;
    match First(db.events, Eligible(db.events, only))
    case None =>
      assert db.(events := db.events) == db;
    case Some(e) =>
      var error := if turn.delivery.Delivers? then None else Some(turn.delivery.error);
      RecordKeepsInv(cfg, opening, db, e, error, turn.now);
      AttemptKeepsBroker(db.events, broker, e, turn);
  }

  lemma AttemptKeepsBroker(events: map<Uuid, Event>, broker: seq<Message>, e: Uuid, turn: Turn)
    requires BrokerOk(events, broker) && e in events && events[e].publishedAt.None?
    ensures var error := if turn.delivery.Delivers? then None else Some(turn.delivery.error);
            BrokerOk(events[e := Recorded(events[e], error, turn.now)],
                     if turn.delivery.Raises? then broker else broker + [MessageOf(e, events[e])])
  {
    hide Delivered, Cut;
    var m := MessageOf(e, events[e]);
    forall f: Uuid | Delivered(broker, f) || f == e ensures Delivered(broker + [m], f) {
      DeliveredMore(broker, m, f);
    }
  }

  lemma FundValid(cfg: Config, opening: map<WalletId, Wallet>, db: Db, broker: seq<Message>, r: FundRequest, d: Draw)
    requires SystemOk(cfg, opening, System(db, broker, map[]))
    ensures SystemOk(cfg, opening, System(Fund(cfg, db, r, d).db, broker, map[]))
  {
    hide SystemOk, Fund;
    CallKeeps(cfg, opening, System(db, broker, map[]), Invocation(FundCall(r), d));
  }

  lemma CreateValid(cfg: Config, opening: map<WalletId, Wallet>, db: Db, broker: seq<Message>, r: CreateRequest, d: Draw)
    requires SystemOk(cfg, opening, System(db, broker, map[]))
    ensures SystemOk(cfg, opening, System(Create(cfg, db, r, d).db, broker, map[]))
  {
    hide SystemOk, Create;
    CallKeeps(cfg, opening, System(db, broker, map[]), Invocation(CreateCall(r), d));
  }

  lemma CancelValid(cfg: Config, opening: map<WalletId, Wallet>, db: Db, broker: seq<Message>, r: CancelRequest, d: Draw)
    requires SystemOk(cfg, opening, System(db, broker, map[]))
    ensures SystemOk(cfg, opening, System(Cancel(cfg, db, r, d).db, broker, map[]))
  {
    hide SystemOk, Cancel;
    CallKeeps(cfg, opening, System(db, broker, map[]), Invocation(CancelCall(r), d));
  }

  lemma FreshIsUnused(db: Db, r: FundRequest, asset: Uuid)
    requires FundingReplay(db, r.user, asset, r.amount, r.key).Fresh?
    ensures forall t :: t in db.txs ==> db.txs[t].key != Some(r.key)
  {
  }

  class Database {
    const cfg: Config
    ghost const opening: map<WalletId, Wallet>
    var wallets: map<WalletId, Wallet>
    var orders: map<Uuid, Order>
    var txs: map<Uuid, LedgerTx>
    var entries: map<EntryId, Entry>
    var events: map<Uuid, Event>
    var broker: seq<Message>

    function State(): Db
      reads this
    {
      Db(wallets, orders, txs, entries, events)
    }

    ghost predicate Valid()
      reads this
    {
      SystemOk(cfg, opening, System(State(), broker, map[]))
    }

    /** Any treasury and user balances, nothing else. */
    constructor (cfg: Config, wallets: map<WalletId, Wallet>)
      requires forall w :: w in wallets ==> wallets[w].locked == 0
      ensures Valid() && this.cfg == cfg && opening == wallets
      ensures State() == Db(wallets, map[], map[], map[], map[]) && broker == []
    {
      this.cfg, opening, this.wallets := cfg, wallets, wallets;
      orders, txs, entries, events, broker := map[], map[], map[], map[], [];
      new;
      BootOk(cfg, State());
    }

    /** The session is closed before its commit. */
    method Rollback(start: Db)
      modifies this
      ensures State() == start && broker == old(broker)
    {
      wallets, orders, txs, entries, events := start.wallets, start.orders, start.txs, start.entries, start.events;
    }

    // -------------------------------------------------------------- fundings

    method FindFundingReplay(user: Uuid, asset: Uuid, amount: int, key: string) returns (r: Replay)
      requires Valid()
      ensures r == FundingReplay(State(), user, asset, amount, key)
    {
      hide Money, OrdersOk, LedgerShape, Life, BrokerOk, BusyOk;
      if t :| t in txs && txs[t].key == Some(key) {
        if txs[t].kind != Funding || txs[t].status != Posted {
          return Mismatch;
        }
        var w := WalletId(User(user), asset);
        if k :| k in entries && k.tx == t && IsFundingCredit(entries[k], w, amount) {
          return Earlier(t);
        }
        return Mismatch;
      }
      return Fresh;
    }

    method PostSandboxFunding(r: FundRequest, d: Draw) returns (answer: Outcome)
      requires Valid()
      modifies this
      ensures Result(State(), answer) == Fund(cfg, old(State()), r, d)
      ensures Valid() && broker == old(broker)
    {
      hide SystemOk, Inv, FundingReplay, ActiveAsset;
      ghost var start := State();
      FundValid(cfg, opening, start, broker, r, d);
      if r.amount <= 0 {
        return Refused(InvalidRequest);
      }
      var asset := ActiveAsset(cfg, r.assetCode);
      if asset.None? {
        return Refused(AssetNotFound);
      }
      var replay := FindFundingReplay(r.user, asset.value, r.amount, r.key);
      match replay
      case Mismatch => return Refused(IdempotencyConflict);
      case Earlier(tx) => return Replayed(tx);
      case Fresh =>
        var treasury, user := WalletId(Treasury, asset.value), WalletId(User(r.user), asset.value);
        if treasury !in wallets {
          return Refused(TreasuryNotInitialized);
        }
        if wallets[treasury].available < r.amount {
          return Refused(InsufficientTreasury);
        }
        var begin := State();
        FreshIsUnused(begin, r, asset.value);
        if user !in wallets {
          wallets := wallets[user := Wallet(0, 0)];
        }
        if d.tx in txs || exists t :: t in txs && txs[t].key == Some(r.key) {
          Rollback(begin);
          return Refused(IntegrityViolation);
        }
        txs := txs[d.tx := LedgerTx(Some(r.key), Funding, Posted, None)];
        wallets := wallets[treasury := wallets[treasury].(available := wallets[treasury].available - r.amount)]
                          [user := wallets[user].(available := wallets[user].available + r.amount)];
        entries := entries[EntryId(d.tx, 1) := Entry(treasury, Debit, Available, r.amount)]
                          [EntryId(d.tx, 2) := Entry(user, Credit, Available, r.amount)];
        assert wallets == Fund(cfg, begin, r, d).db.wallets;
        return Done(d.tx);
    }

    // -------------------------------------------------------------- orders

    method ExistingOrderReplay(r: CreateRequest, base: Uuid, quote: Uuid) returns (replay: Replay)
      requires Valid()
      ensures replay == OrderReplay(orders, r, base, quote)
    {
      hide Inv, BrokerOk, BusyOk;
      if id :| id in orders && IsOrderOf(orders[id], r.user, r.key) {
        OneOrderPerKey(cfg, opening, State(), id, OrderFor(orders, r.user, r.key).value);
        if !SameOrderData(orders[id], base, quote, r.side, r.price, r.quantity) {
          return Mismatch;
        }
        return Earlier(id);
      }
      return Fresh;
    }

    /** Adds the event of a transition unless its id or its key is taken. */
    method EnqueueOutboxEvent(kind: EventKind, order: Uuid, d: Draw) returns (ok: bool)
      modifies this`events
      ensures ok <==> d.event !in old(events) && !HasEvent(old(events), kind, order)
      ensures events == if ok then old(events)[d.event := Event(kind, order, d.now, None, 0, None)] else old(events)
    {
      if d.event in events || exists e :: e in events && IsEventOf(events[e], kind, order) {
        return false;
      }
      events := events[d.event := Event(kind, order, d.now, None, 0, None)];
      return true;
    }

    method CreateOrderReservation(r: CreateRequest, d: Draw) returns (answer: Outcome)
      requires Valid()
      modifies this
      ensures Result(State(), answer) == Create(cfg, old(State()), r, d)
      ensures Valid() && broker == old(broker)
    {
      hide SystemOk, Inv, OrderReplay, ActiveAsset, Exact, CreateDb;
      ghost var start := State();
      CreateValid(cfg, opening, start, broker, r, d);
      var base, quote := ActiveAsset(cfg, r.baseCode), ActiveAsset(cfg, r.quoteCode);
      if base.None? || quote.None? {
        return Refused(AssetNotFound);
      }
      if base == quote || r.price <= 0 || r.quantity <= 0 {
        return Refused(InvalidRequest);
      }
      var reserved := Exact(r.side, r.price, r.quantity);
      var replay := ExistingOrderReplay(r, base.value, quote.value);
      match replay {
        case Mismatch => return Refused(IdempotencyConflict);
        case Earlier(id) => return Replayed(id);
        case Fresh =>
      }
      var w := WalletId(User(r.user), if r.side == Buy then quote.value else base.value);
      if w !in wallets || D.Scale(wallets[w].available) < reserved {
        return Refused(InsufficientAvailable);
      }
      replay := ExistingOrderReplay(r, base.value, quote.value);
      match replay {
        case Mismatch => return Refused(IdempotencyConflict);
        case Earlier(id) => return Replayed(id);
        case Fresh =>
      }
      answer := WriteReservation(r, base.value, quote.value, reserved, w, d);
    }

    /** The rows of a reservation whose wallet `w` covers the exact amount `reserved`. */
    method WriteReservation(r: CreateRequest, base: Uuid, quote: Uuid, reserved: nat, w: WalletId, d: Draw) returns (answer: Outcome)
      requires r.price > 0 && r.quantity > 0 && reserved == Exact(r.side, r.price, r.quantity)
      requires w == WalletId(User(r.user), if r.side == Buy then quote else base)
      requires w in wallets && reserved <= D.Scale(wallets[w].available)
      modifies this
      ensures Result(State(), answer) == Reservation(cfg, old(State()), r, base, quote, d)
      ensures broker == old(broker)
    {
      hide LedgerKey, EventKey, HasEvent, D.Store, Exact;
      var begin := State();
      var key := LedgerKey(cfg, r.user, r.key);
      if d.tx in txs || exists t :: t in txs && txs[t].key == Some(key) {
        return Refused(IntegrityViolation);
      }
      txs := txs[d.tx := LedgerTx(Some(key), OrderReserve, Posted, None)];
      var stored := D.Store(reserved);
      if stored == 0 || d.order in orders {
        Rollback(begin);
        return Refused(IntegrityViolation);
      }
      var order := Order(r.user, base, quote, r.key, d.tx, r.side, Open, r.price, r.quantity, stored);
      orders := orders[d.order := order];
      var available, locked := D.Scale(wallets[w].available) - reserved, D.Scale(wallets[w].locked) + reserved;
      wallets := wallets[w := Wallet(D.Store(available), D.Store(locked))];
      entries := entries[EntryId(d.tx, 1) := Entry(w, Debit, Available, stored)]
                        [EntryId(d.tx, 2) := Entry(w, Credit, Locked, stored)];
      var ok := EnqueueOutboxEvent(OrderCreated, d.order, d);
      if !ok {
        Rollback(begin);
        return Refused(IntegrityViolation);
      }
      return Done(d.order);
    }

    method CancelOrderReservation(r: CancelRequest, d: Draw) returns (answer: Outcome)
      requires Valid()
      modifies this
      ensures Result(State(), answer) == Cancel(cfg, old(State()), r, d)
      ensures Valid() && broker == old(broker)
    {
      hide SystemOk, Inv, ActiveAsset, EventKey, HasEvent;
      ghost var start := State();
      CancelValid(cfg, opening, start, broker, r, d);
      if r.order !in orders || orders[r.order].user != r.user {
        return Refused(OrderNotFound);
      }
      var order := orders[r.order];
      var reserveAsset := if order.side == Buy then order.quote else order.base;
      if !exists c :: c in cfg.assets && cfg.assets[c].id == reserveAsset {
        return Refused(ReservationState);
      }
      if order.status == Canceled {
        return Replayed(r.order);
      }
      if order.status != Open {
        return Refused(OrderNotCancelable);
      }
      var w := WalletId(User(r.user), reserveAsset);
      if w !in wallets || wallets[w].locked < order.reserved {
        return Refused(ReservationState);
      }
      var begin := State();
      if d.tx in txs {
        return Refused(IntegrityViolation);
      }
      txs := txs[d.tx := LedgerTx(None, OrderRelease, Posted, Some(r.order))];
      wallets := wallets[w := Wallet(wallets[w].available + order.reserved, wallets[w].locked - order.reserved)];
      orders := orders[r.order := order.(status := Canceled)];
      entries := entries[EntryId(d.tx, 1) := Entry(w, Debit, Locked, order.reserved)]
                        [EntryId(d.tx, 2) := Entry(w, Credit, Available, order.reserved)];
      var ok := EnqueueOutboxEvent(OrderCanceled, r.order, d);
      if !ok {
        Rollback(begin);
        return Refused(IntegrityViolation);
      }
      return Done(r.order);
    }

    // -------------------------------------------------------------- the relay

    /** `turn` is what the publisher does with the event and the clock afterwards. */
    method PublishNextOutboxEvent(only: Option<Uuid>, turn: Turn) returns (delivered: bool)
      requires Valid()
      modifies this`events, this`broker
      ensures RoundResult(Outbox(events, broker), delivered) == Round(old(Outbox(events, broker)), only, turn)
      ensures Valid()
    {
      hide SystemOk, Inv, IsFirst;
      RoundKeeps(cfg, opening, State(), broker, only, turn);
      ghost var eligible := Eligible(events, only);
      FirstFound(events, eligible);
      if e :| e in events && IsNext(events, only, e) {
        NextIsFirst(events, only, e);
        var ev := events[e].(attempts := events[e].attempts + 1);
        events := events[e := ev];
        match turn.delivery
        case Delivers =>
          broker := broker + [MessageOf(e, ev)];
          ev := ev.(publishedAt := Some(turn.now), lastError := None);
          events := events[e := ev];
          return true;
        case Raises(error) =>
          events := events[e := ev.(lastError := Some(Cut(error)))];
          return false;
        case DeliversThenRaises(error) =>
          broker := broker + [MessageOf(e, ev)];
          events := events[e := ev.(lastError := Some(Cut(error)))];
          return false;
      }
      NoneIsNext(events, only);
      return false;
    }

    /** The loop of the worker, for as many rounds as there are turns.  It sleeps after each round that delivered
        nothing; `sleeps` counts how often. */
    method RunOutboxRelay(turns: seq<Turn>) returns (answers: seq<bool>, sleeps: nat)
      requires Valid()
      modifies this`events, this`broker
      ensures Outbox(events, broker) == Rounds(old(Outbox(events, broker)), turns)
      ensures answers == Answers(old(Outbox(events, broker)), turns)
      ensures broker == old(broker) + QueueLog(old(Queue(events)), turns)
      ensures Queue(events) == QueueLeft(old(Queue(events)), turns)
      ensures sleeps == |set i | 0 <= i < |answers| && !answers[i]|
      ensures sleeps == |turns| - (|Pending(old(events))| - |Pending(events)|)
      ensures Valid()
    {
      hide SystemOk, Round, Queue;
      ghost var start := Outbox(events, broker);
      LoopIsQueue(start, turns);
      answers, sleeps := [], 0;
      var i := 0;
      while i < |turns|
        invariant 0 <= i <= |turns|
        invariant Valid()
        invariant sleeps == |Failed(answers)|
        invariant sleeps == i - (|Pending(start.events)| - |Pending(events)|)
        invariant Rounds(start, turns) == Rounds(Outbox(events, broker), turns[i..])
        invariant Answers(start, turns) == answers + Answers(Outbox(events, broker), turns[i..])
      {
        assert turns[i..][0] == turns[i] && turns[i..][1..] == turns[i + 1..];
        ghost var before := Outbox(events, broker);
        var delivered := PublishNextOutboxEvent(None, turns[i]);
        RoundShrinks(before, turns[i]);
        FailedNext(answers, delivered);
        answers := answers + [delivered];
        if !delivered {
          sleeps := sleeps + 1;
        }
        i := i + 1;
      }
    }
  }

  /** The rounds that answered False. */
  ghost function Failed(answers: seq<bool>): set<int> {
    set i | 0 <= i < |answers| && !answers[i]
  }

  lemma FailedNext(answers: seq<bool>, last: bool)
    ensures |Failed(answers + [last])| == |Failed(answers)| + if last then 0 else 1
  {
    assert Failed(answers + [last]) == if last then Failed(answers) else Failed(answers) + {|answers|};
  }

  /** A round answers True exactly when one event less is unpublished. */
  lemma RoundShrinks(o: Outbox, turn: Turn)
    ensures var after := Round(o, None, turn);
            |Pending(after.outbox.events)| == |Pending(o.events)| - if after.delivered then 1 else 0
  {
    RoundServes(o, turn);
    SortedLists(o.events, Pending(o.events));
    SortedLists(Round(o, None, turn).outbox.events, Pending(Round(o, None, turn).outbox.events));
  }

  predicate IsEligible(ev: Event, e: Uuid, only: Option<Uuid>) {
    ev.publishedAt.None? && (only.None? || only == Some(e))
  }

  /** The row that the claim selects. */
  predicate IsNext(events: map<Uuid, Event>, only: Option<Uuid>, e: Uuid)
    requires e in events
  {
    IsEligible(events[e], e, only) && forall f :: f in events && IsEligible(events[f], f, only) ==> !Before(events, f, e)
  }

  lemma NextIsFirst(events: map<Uuid, Event>, only: Option<Uuid>, e: Uuid)
    requires e in events && IsNext(events, only, e)
    ensures First(events, Eligible(events, only)) == Some(e)
  {
    FirstFound(events, Eligible(events, only));
    assert IsFirst(events, Eligible(events, only), e);
  }

  lemma NoneIsNext(events: map<Uuid, Event>, only: Option<Uuid>)
    requires forall e :: e in events ==> !IsNext(events, only, e)
    ensures First(events, Eligible(events, only)) == None
  {
    var first := First(events, Eligible(events, only));
    if first.Some? {
      assert IsNext(events, only, first.value);
    }
  }
}
