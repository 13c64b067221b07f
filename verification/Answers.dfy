/** What the callers of concurrent transactions are told. */
module Answers {
  import opened Tables
  import opened Rows
  import opened Services
  import opened Invariants
  import opened Serial
  import opened Idempotency
  import opened Effects
  import opened Transactions
  import opened Concurrency
  import opened Refinement

  ghost predicate NamesOrder(cfg: Config, db: Db, r: CreateRequest, id: Uuid) {
    && id in db.orders && IsOrderOf(db.orders[id], r.user, r.key)
    && SameOrderData(db.orders[id], AssetOr0(cfg, r.baseCode), AssetOr0(cfg, r.quoteCode), r.side, r.price, r.quantity)
  }

  ghost predicate NamesFunding(cfg: Config, db: Db, r: FundRequest, id: Uuid) {
    && id in db.txs && db.txs[id].key == Some(r.key) && db.txs[id].kind == Funding
    && HasFundingCredit(db.entries, id, UserWalletOf(cfg, r), r.amount)
  }

  ghost predicate NamesCanceled(db: Db, r: CancelRequest, id: Uuid) {
    id == r.order && id in db.orders && db.orders[id].user == r.user && db.orders[id].status == Canceled
  }

  /** A success, fresh or replayed, names a committed row with the data of the request; the two errors that
      would betray an inconsistent reservation are never given. */
  ghost predicate Justified(cfg: Config, db: Db, call: Call, answer: Outcome) {
    match answer
    case Refused(e) => e != ReservationState && e != OrderNotCancelable
    case _ =>
      match call
      case FundCall(r) => NamesFunding(cfg, db, r, answer.id)
      case CreateCall(r) => NamesOrder(cfg, db, r, answer.id)
      case CancelCall(r) => NamesCanceled(db, r, answer.id)
  }

  ghost predicate AnswerOk(cfg: Config, db: Db, t: Txn) {
    t.stage.Finished? ==> Justified(cfg, db, t.call, t.stage.answer)
  }

  lemma JustifiedStays(cfg: Config, db: Db, db': Db, call: Call, answer: Outcome)
    requires Grows(db, db') && Justified(cfg, db, call, answer)
    ensures Justified(cfg, db', call, answer)
  {
    hide ActiveAsset;
    if !answer.Refused? {
      match call
      case FundCall(r) =>
        var k :| k in db.entries && k.tx == answer.id && IsFundingCredit(db.entries[k], UserWalletOf(cfg, r), r.amount);
        assert k in db'.entries && IsFundingCredit(db'.entries[k], UserWalletOf(cfg, r), r.amount);
      case CreateCall(r) =>
      case CancelCall(r) =>
    }
  }

  lemma LocalAnswer(cfg: Config, opening: map<WalletId, Wallet>, db: Db, t: Txn)
    requires Inv(cfg, opening, db) && TxnOk(cfg, db, t) && t.Active() && t.stage != Commit
    ensures AnswerOk(cfg, db, LocalStep(cfg, db, t))
  {
    hide Inv, Upper, EventKey, LedgerKey, Covers, Storable, HeldOk, Taken, Exact;
    match t.call
    case FundCall(r) => FundAnswer(cfg, db, t, r);
    case CreateCall(r) => CreateAnswer(cfg, db, t, r);
    case CancelCall(r) => CancelTxnAnswer(cfg, opening, db, t, r);
  }

  lemma FundAnswer(cfg: Config, db: Db, t: Txn, r: FundRequest)
    requires t.call == FundCall(r) && FundOk(cfg, db, t, r) && t.Active() && t.stage != Commit
    ensures AnswerOk(cfg, db, FundStep(cfg, db, t, r))
  {
    hide Upper, Pinned, Taken;
  }

  lemma CreateAnswer(cfg: Config, db: Db, t: Txn, r: CreateRequest)
    requires t.call == CreateCall(r) && CreateOk(cfg, db, t, r) && t.Active() && t.stage != Commit
    ensures AnswerOk(cfg, db, CreateStep(cfg, db, t, r))
  {
    hide Upper, Pinned, Taken, Exact, EventKey, LedgerKey, Storable;
  }

  lemma CancelTxnAnswer(cfg: Config, opening: map<WalletId, Wallet>, db: Db, t: Txn, r: CancelRequest)
    requires Inv(cfg, opening, db)
    requires t.call == CancelCall(r) && CancelOk(cfg, db, t, r) && t.Active() && t.stage != Commit
    ensures AnswerOk(cfg, db, CancelStep(cfg, db, t, r))
  {
    hide Inv, Pinned, Taken, EventKey, Exact;
    if r.order in db.orders {
      OrderFacts(cfg, opening, db, r.order);
    }
  }

  lemma CommitAnswer(cfg: Config, opening: map<WalletId, Wallet>, db: Db, t: Txn)
    requires Inv(cfg, opening, db) && TxnOk(cfg, db, t) && t.stage == Commit && Ready(t)
    ensures Justified(cfg, CommitDb(cfg, db, t), t.call, Done(CommitId(t)))
  {
    hide Inv, Taken, Exact, EventKey, LedgerKey, HeldOk, Upper;
    var db' := CommitDb(cfg, db, t);
    match t.call
    case FundCall(r) =>
      var k := EntryId(t.draw.tx, 2);
      assert k in db'.entries && k.tx == t.draw.tx && IsFundingCredit(db'.entries[k], UserWalletOf(cfg, r), r.amount);
    case CreateCall(r) =>
    case CancelCall(r) =>
  }

  ghost predicate AnswersOk(cfg: Config, s: Sys) {
    forall a :: a in s.txns ==> AnswerOk(cfg, s.db, s.txns[a])
  }

  lemma StepAnswers(cfg: Config, db0: Db, s: Sys, a: Action)
    requires Initial(db0) && SysOk(cfg, db0, s) && AnswersOk(cfg, s)
    ensures AnswersOk(cfg, Step(cfg, s, a))
  {
    hide TxnOk, LocalStep, Blocked, CommitDb, IsSerial, Ready, Inv, Justified, Serve, Grows;
    if a.Advance? && a.tid in s.txns && s.txns[a.tid].Active() && !Blocked(cfg, s, a.tid) {
      var t := s.txns[a.tid];
      SerialInv(cfg, db0, s);
      if t.stage == Commit {
        CommitIsSerial(cfg, db0.wallets, s.db, t);
        CommitAnswer(cfg, db0.wallets, s.db, t);
        ServeGrows(cfg, db0.wallets, s.db, Invocation(t.call, t.draw));
        var db' := CommitDb(cfg, s.db, t);
        forall b | b in s.txns && s.txns[b].stage.Finished? ensures AnswerOk(cfg, db', s.txns[b]) {
          assert AnswerOk(cfg, s.db, s.txns[b]);
          JustifiedStays(cfg, s.db, db', s.txns[b].call, s.txns[b].stage.answer);
        }
      } else {
        LocalAnswer(cfg, db0.wallets, s.db, t);
      }
    }
  }

  lemma {:induction false} ExecAnswers(cfg: Config, db0: Db, actions: seq<Action>)
    requires Initial(db0)
    ensures AnswersOk(cfg, Exec(cfg, db0, actions))
    decreases |actions|
  {
    hide Step, SysOk;
    if actions != [] {
      ExecAnswers(cfg, db0, actions[..|actions| - 1]);
      ExecOk(cfg, db0, actions[..|actions| - 1]);
      StepAnswers(cfg, db0, Exec(cfg, db0, actions[..|actions| - 1]), actions[|actions| - 1]);
    }
  }

  // ---------------------------------------------------------------- main results

  /** In any schedule every success is justified by a committed row, and no cancellation meets a reservation
      that the locked balance does not cover. */
  lemma {:induction false} EveryAnswerJustified(cfg: Config, db0: Db, actions: seq<Action>, tid: nat)
    requires Initial(db0)
    requires tid in Exec(cfg, db0, actions).txns && Exec(cfg, db0, actions).txns[tid].stage.Finished?
    ensures var s := Exec(cfg, db0, actions);
            Justified(cfg, s.db, s.txns[tid].call, s.txns[tid].stage.answer)
  {
    hide Exec, Justified;
    ExecAnswers(cfg, db0, actions);
    assert AnswerOk(cfg, Exec(cfg, db0, actions).db, Exec(cfg, db0, actions).txns[tid]);
  }

  /** In any schedule each funding key, each (user, key) and each order's cancellation commits at most once. */
  lemma {:induction false} CommittedAtMostOnce(cfg: Config, db0: Db, actions: seq<Action>, i: nat, j: nat)
    requires Initial(db0) && i < j < |Exec(cfg, db0, actions).log|
    ensures !SameKey(Exec(cfg, db0, actions).log[i].call, Exec(cfg, db0, actions).log[j].call)
  {
    hide Exec, Answer, SameKey;
    ConcurrentIsSerial(cfg, db0, actions);
    var log := Exec(cfg, db0, actions).log;
    assert Answer(cfg, db0, log, i).Done? && Answer(cfg, db0, log, j).Done?;
    if SameKey(log[i].call, log[j].call) {
      DoneAtMostOnce(cfg, db0, log, i, j);
    }
  }

  predicate Succeeded(t: Txn) {
    t.stage.Finished? && !t.stage.answer.Refused?
  }

  /** Submission takes effect at most once: any two successful submissions of a (user, key), in any schedule,
      were given the same order and asked for the same order. */
  lemma {:induction false} OneOrderPerSubmission(cfg: Config, db0: Db, actions: seq<Action>, a: nat, b: nat, r: CreateRequest, q: CreateRequest)
    requires Initial(db0)
    requires var s := Exec(cfg, db0, actions);
             && a in s.txns && s.txns[a].call == CreateCall(r) && Succeeded(s.txns[a])
             && b in s.txns && s.txns[b].call == CreateCall(q) && Succeeded(s.txns[b])
    requires r.user == q.user && r.key == q.key
    ensures Exec(cfg, db0, actions).txns[a].stage.answer.id == Exec(cfg, db0, actions).txns[b].stage.answer.id
    ensures AssetOr0(cfg, r.baseCode) == AssetOr0(cfg, q.baseCode) && AssetOr0(cfg, r.quoteCode) == AssetOr0(cfg, q.quoteCode)
    ensures r.side == q.side && r.price == q.price && r.quantity == q.quantity
  {
    hide Exec, Inv, ActiveAsset, TxnsOk, Run;
    var s := Exec(cfg, db0, actions);
    ExecOk(cfg, db0, actions);
    SerialInv(cfg, db0, s);
    EveryAnswerJustified(cfg, db0, actions, a);
    EveryAnswerJustified(cfg, db0, actions, b);
    OneOrderPerKey(cfg, db0.wallets, s.db, s.txns[a].stage.answer.id, s.txns[b].stage.answer.id);
  }

  /** The outbox row of a transition enters its unique index without waiting and without a violation. */
  lemma {:induction false} EventInsertSucceeds(cfg: Config, db0: Db, actions: seq<Action>, tid: nat)
    requires Initial(db0)
    requires tid in Exec(cfg, db0, actions).txns && Exec(cfg, db0, actions).txns[tid].stage == InsertEventKey
    ensures !Blocked(cfg, Exec(cfg, db0, actions), tid)
    ensures Exec(cfg, db0, actions + [Advance(tid)]).txns[tid].stage == Commit
  {
    hide ActiveAsset, LedgerKey, Covers, Storable, EventKey, Inv, Run, Answer, Exact;
    var s := Exec(cfg, db0, actions);
    var all := actions + [Advance(tid)];
    assert all[..|all| - 1] == actions;
    ExecOk(cfg, db0, actions);
    SerialInv(cfg, db0, s);
    var t := s.txns[tid];
    assert TxnOk(cfg, s.db, t);
    TransitionIsNew(cfg, db0.wallets, s.db, t);
    var key := Need(cfg, s.db, t).value;
    forall b | b in s.txns && b != tid ensures key !in s.txns[b].held {
      if key in s.txns[b].held {
        SameTransition(cfg, s.db, t, s.txns[b]);
      }
    }
  }

  /** What serialises the transitions of an order: its row when it is canceled, its new id when it is created. */
  function Guard(t: Txn): Resource {
    match t.call
    case CancelCall(r) => OrderRow(r.order)
    case _ => NewOrderId(t.draw.order)
  }

  lemma TransitionIsNew(cfg: Config, opening: map<WalletId, Wallet>, db: Db, t: Txn)
    requires Inv(cfg, opening, db) && TxnOk(cfg, db, t) && t.stage == InsertEventKey
    ensures !t.call.FundCall? && Need(cfg, db, t).Some? && Need(cfg, db, t).value.NewEventKey?
    ensures !Taken(db, Need(cfg, db, t).value)
  {
    hide ActiveAsset, LedgerKey, Covers, Storable, EventKey, Money, Books, Exact;
    match t.call
    case CreateCall(r) =>
      assert !Taken(db, NewOrderId(t.draw.order));
      TakenIsReport(db, OrderCreated, t.draw.order);
    case CancelCall(r) =>
      TakenIsReport(db, OrderCanceled, r.order);
  }

  lemma TakenIsReport(db: Db, kind: EventKind, order: Uuid)
    ensures Taken(db, NewEventKey(EventKey(kind, order))) <==> HasReport(db.events, kind, order)
  {
    hide EventKey;
    HasEventIsReport(db.events, kind, order);
    if Taken(db, NewEventKey(EventKey(kind, order))) {
      var e :| e in db.events && EventKey(db.events[e].kind, db.events[e].order) == EventKey(kind, order);
      assert IsEventOf(db.events[e], kind, order);
    }
    if HasEvent(db.events, kind, order) {
      var e :| e in db.events && IsEventOf(db.events[e], kind, order);
      assert EventKey(db.events[e].kind, db.events[e].order) == EventKey(kind, order);
    }
  }

  /** Two transactions with the same event key are at the same transition of the same order. */
  lemma SameTransition(cfg: Config, db: Db, t: Txn, u: Txn)
    requires TxnOk(cfg, db, t) && t.stage == InsertEventKey && TxnOk(cfg, db, u)
    requires Need(cfg, db, t).Some? && Need(cfg, db, t).value in u.held
    ensures Guard(t) in t.held && Guard(t) in u.held
  {
    hide ActiveAsset, LedgerKey, Covers, Storable, EventKey, Exact, Taken, Pinned;
    assert u.Active();
    var (k1, o1) := if t.call.CancelCall? then (OrderCanceled, t.call.cancel.order) else (OrderCreated, t.draw.order);
    var (k2, o2) := if u.call.CancelCall? then (OrderCanceled, u.call.cancel.order) else (OrderCreated, u.draw.order);
    assert Need(cfg, db, t).value == NewEventKey(EventKey(k1, o1));
    assert EventKey(k1, o1) == EventKey(k2, o2);
    EventKeyInjective(k1, o1, k2, o2);
  }
}
