/** What a transaction answers: the serial answer, unless its key was committed behind its back. */
module Alone {
  import opened Rows
  import opened Services
  import opened Invariants
  import opened Serial
  import opened Transactions
  import opened Concurrency
  import opened Refinement
  import opened Progress
  import opened Replies

  // ---------------------------------------------------------------- one step

  /** A committed row uses the idempotency key of the call. */
  ghost predicate KeyTaken(db: Db, call: Call) {
    match call
    case FundCall(r) => !KeyUnused(db.txs, r.key)
    case CreateCall(r) => !OrderKeyUnused(db.orders, r.user, r.key)
    case CancelCall(_) => false
  }

  /** The errors of a call that looks no more for a replay. */
  predicate TooLate(answer: Outcome) {
    answer == Refused(TreasuryNotInitialized) || answer == Refused(InsufficientTreasury)
    || answer == Refused(InsufficientAvailable) || answer == Refused(IntegrityViolation)
  }

  /** The answer of a step on the committed database `db`: what the call would be told if it ran alone now, or, if
      its key has been committed since its lookup, an error of the steps that follow the lookup. */
  ghost predicate ReplyOk(cfg: Config, db: Db, t: Txn, answer: Outcome) {
    || (answer == Serve(cfg, db, Invocation(t.call, t.draw)).outcome && !answer.Done?)
    || (t.stage != Lookup && KeyTaken(db, t.call) && TooLate(answer))
  }

  lemma FundReply(cfg: Config, db: Db, t: Txn, r: FundRequest)
    requires t.call == FundCall(r) && TxnOk(cfg, db, t) && t.Active() && t.stage != Commit
    requires FundStep(cfg, db, t, r).stage.Finished?
    ensures ReplyOk(cfg, db, t, FundStep(cfg, db, t, r).stage.answer)
  {
    hide ActiveAsset, FundingReplay, FundDb;
    if t.stage != Lookup {
      UnusedKey(db, r.user, AssetOr0(cfg, r.assetCode), r.amount, r.key);
    }
  }

  lemma CreateReadReply(cfg: Config, db: Db, t: Txn, r: CreateRequest)
    requires t.call == CreateCall(r) && TxnOk(cfg, db, t) && StageRank(t.stage) < 6
    requires CreateStep(cfg, db, t, r).stage.Finished?
    ensures ReplyOk(cfg, db, t, CreateStep(cfg, db, t, r).stage.answer)
  {
    hide ActiveAsset, OrderReplay, CreateDb, HeldOk, Exact, Storable, LedgerKey, EventKey;
    if t.stage == LockWallet && OrderKeyUnused(db.orders, r.user, r.key) {
      UnusedOrderKey(db.orders, r, AssetOr0(cfg, r.baseCode), AssetOr0(cfg, r.quoteCode));
    }
  }

  lemma CreateInsertReply(cfg: Config, db: Db, t: Txn, r: CreateRequest)
    requires t.call == CreateCall(r) && TxnOk(cfg, db, t) && 6 <= StageRank(t.stage) < 12
    requires CreateStep(cfg, db, t, r).stage.Finished?
    ensures ReplyOk(cfg, db, t, CreateStep(cfg, db, t, r).stage.answer)
  {
    hide ActiveAsset, OrderReplay, CreateDb, HeldOk, Exact, LedgerKey, EventKey;
    if OrderKeyUnused(db.orders, r.user, r.key) {
      UnusedOrderKey(db.orders, r, AssetOr0(cfg, r.baseCode), AssetOr0(cfg, r.quoteCode));
      TakenIsEvent(db, OrderCreated, t.draw.order);
    }
  }

  lemma TakenIsEvent(db: Db, kind: EventKind, order: Uuid)
    ensures Taken(db, NewEventKey(EventKey(kind, order))) <==> HasEvent(db.events, kind, order)
  {
    hide EventKey;
    if Taken(db, NewEventKey(EventKey(kind, order))) {
      var e :| e in db.events && EventKey(db.events[e].kind, db.events[e].order) == EventKey(kind, order);
      assert IsEventOf(db.events[e], kind, order);
    }
    if HasEvent(db.events, kind, order) {
      var e :| e in db.events && IsEventOf(db.events[e], kind, order);
      assert EventKey(db.events[e].kind, db.events[e].order) == EventKey(kind, order);
    }
  }

  lemma CancelReply(cfg: Config, opening: map<WalletId, Wallet>, db: Db, t: Txn, r: CancelRequest)
    requires Inv(cfg, opening, db)
    requires t.call == CancelCall(r) && TxnOk(cfg, db, t) && t.Active() && t.stage != Commit
    requires CancelStep(cfg, db, t, r).stage.Finished?
    ensures ReplyOk(cfg, db, t, CancelStep(cfg, db, t, r).stage.answer)
  {
    hide Inv, HeldOk, CancelDb, EventKey, KnownAsset;
    if r.order in db.orders {
      OrderFacts(cfg, opening, db, r.order);
    }
    TakenIsEvent(db, OrderCanceled, r.order);
  }

  lemma StepReply(cfg: Config, opening: map<WalletId, Wallet>, db: Db, t: Txn)
    requires Inv(cfg, opening, db)
    requires TxnOk(cfg, db, t) && t.Active() && t.stage != Commit && LocalStep(cfg, db, t).stage.Finished?
    ensures ReplyOk(cfg, db, t, LocalStep(cfg, db, t).stage.answer)
  {
    hide Inv, TxnOk, ReplyOk, FundStep, CreateStep, CancelStep;
    match t.call
    case FundCall(r) => FundReply(cfg, db, t, r);
    case CreateCall(r) =>
      if StageRank(t.stage) < 6 {
        CreateReadReply(cfg, db, t, r);
      } else {
        CreateStages(cfg, db, t, r);
        CreateInsertReply(cfg, db, t, r);
      }
    case CancelCall(r) => CancelReply(cfg, opening, db, t, r);
  }

  lemma CreateStages(cfg: Config, db: Db, t: Txn, r: CreateRequest)
    requires t.call == CreateCall(r) && TxnOk(cfg, db, t) && t.Active() && t.stage != Commit
    ensures StageRank(t.stage) < 12
  {
  }

  /** Replies of concurrent transactions.  Whenever a step ends a transaction without a commit, the answer is the
      one the call would get if it ran alone on the committed database of that moment; only if another transaction
      has committed the same key since the lookup can it be an error of the later steps instead. */
  lemma {:induction false} ReplyOfTheMoment(cfg: Config, db0: Db, actions: seq<Action>, tid: nat)
    requires Initial(db0)
    requires var s := Exec(cfg, db0, actions);
             && tid in s.txns && s.txns[tid].Active() && s.txns[tid].stage != Commit && !Blocked(cfg, s, tid)
             && Step(cfg, s, Advance(tid)).txns[tid].stage.Finished?
    ensures var s := Exec(cfg, db0, actions);
            && Step(cfg, s, Advance(tid)).db == s.db
            && ReplyOk(cfg, s.db, s.txns[tid], Step(cfg, s, Advance(tid)).txns[tid].stage.answer)
  {
    hide Exec, TxnOk, ReplyOk, LocalStep, Blocked, Exclusive, Inv, IsSerial;
    var s := Exec(cfg, db0, actions);
    ExecOk(cfg, db0, actions);
    SerialInv(cfg, db0, s);
    StepReply(cfg, db0.wallets, s.db, s.txns[tid]);
  }

  // ---------------------------------------------------------------- undisturbed

  /** Only `tid` is active, and nobody has committed its key since its lookup. */
  ghost predicate AloneAt(s: Sys, tid: nat) {
    && tid in s.txns && s.txns[tid].Active()
    && (forall b :: b in s.txns && b != tid ==> !s.txns[b].Active())
    && (s.txns[tid].stage != Lookup ==> !KeyTaken(s.db, s.txns[tid].call))
  }

  /** A lookup that goes on has found that the key is unused. */
  lemma LookupGoesOn(cfg: Config, db: Db, t: Txn)
    requires t.stage == Lookup && !LocalStep(cfg, db, t).stage.Finished?
    ensures !KeyTaken(db, t.call)
  {
    hide ActiveAsset;
    match t.call
    case FundCall(r) =>
      if ActiveAsset(cfg, r.assetCode).Some? {
        UnusedKey(db, r.user, ActiveAsset(cfg, r.assetCode).value, r.amount, r.key);
      }
    case CreateCall(r) =>
      var base, quote := ActiveAsset(cfg, r.baseCode), ActiveAsset(cfg, r.quoteCode);
      if base.Some? && quote.Some? {
        UnusedOrderKey(db.orders, r, base.value, quote.value);
      }
    case CancelCall(_) =>
  }

  lemma SameCall(cfg: Config, db: Db, t: Txn)
    ensures LocalStep(cfg, db, t).call == t.call && LocalStep(cfg, db, t).draw == t.draw
    ensures !LocalStep(cfg, db, t).stage.Crashed? || t.stage.Crashed?
  {
    hide ActiveAsset, FundingReplay, OrderReplay, Taken, Exact, Covers, Storable, KnownAsset, LedgerKey, EventKey;
    match t.call
    case FundCall(r) =>
    case CreateCall(r) =>
    case CancelCall(r) =>
  }

  /** Nobody blocks a transaction that is alone. */
  lemma NotBlocked(cfg: Config, s: Sys, tid: nat)
    requires LocksOk(cfg, s) && AloneAt(s, tid)
    ensures !Blocked(cfg, s, tid)
  {
    hide Need, CallOk, Taken, KeyTaken, Exclusive;
    forall b | b in s.txns && b != tid ensures s.txns[b].held == {} {
      assert TxnOk(cfg, s.db, s.txns[b]);
    }
  }

  /** `s'` is `s` after the call of the transaction `tid` ran alone on it, with its answer given to `tid`. */
  ghost predicate ServedTo(cfg: Config, s: Sys, s': Sys, tid: nat, inv: Invocation) {
    && s'.db == Serve(cfg, s.db, inv).db
    && tid in s'.txns && s'.txns[tid].stage == Finished(Serve(cfg, s.db, inv).outcome)
  }

  function Advances(tid: nat, n: nat): seq<Action> {
    seq(n, _ => Advance(tid))
  }

  /** One step of a transaction that is alone: it is served, or alone at a later stage on the same database. */
  lemma StepAlone(cfg: Config, opening: map<WalletId, Wallet>, s: Sys, tid: nat)
    requires Inv(cfg, opening, s.db) && LocksOk(cfg, s) && AloneAt(s, tid)
    ensures var t, s' := s.txns[tid], Step(cfg, s, Advance(tid));
            var inv := Invocation(t.call, t.draw);
            || ServedTo(cfg, s, s', tid, inv)
            || (&& s'.db == s.db && AloneAt(s', tid) && StageRank(s'.txns[tid].stage) > StageRank(t.stage)
                && Invocation(s'.txns[tid].call, s'.txns[tid].draw) == inv)
  {
    hide Inv, LocksOk, LocalStep, CommitDb, Ready, Serve, Need, KeyTaken, Blocked, StageRank, TxnOk;
    var t := s.txns[tid];
    NotBlocked(cfg, s, tid);
    TxnFacts(cfg, s, tid);
    if t.stage == Commit {
      StepCommit(cfg, opening, s, tid);
    } else {
      SameCall(cfg, s.db, t);
      LocalForward(cfg, s.db, t);
      if LocalStep(cfg, s.db, t).stage.Finished? {
        StepReply(cfg, opening, s.db, t);
        OnlyDoneChanges(cfg, s.db, Invocation(t.call, t.draw));
      } else if t.stage == Lookup {
        LookupGoesOn(cfg, s.db, t);
      }
    }
  }

  lemma TxnFacts(cfg: Config, s: Sys, tid: nat)
    requires LocksOk(cfg, s) && tid in s.txns
    ensures TxnOk(cfg, s.db, s.txns[tid])
  {
  }

  lemma {:induction false} Drive(cfg: Config, db0: Db, actions: seq<Action>, tid: nat) returns (n: nat)
    requires Initial(db0) && AloneAt(Exec(cfg, db0, actions), tid)
    ensures var s := Exec(cfg, db0, actions);
            ServedTo(cfg, s, Exec(cfg, db0, actions + Advances(tid, n)), tid, Invocation(s.txns[tid].call, s.txns[tid].draw))
    decreases 13 - StageRank(Exec(cfg, db0, actions).txns[tid].stage)
  {
    hide Step, LocksOk, IsSerial, Inv, StageRank, ServedTo, KeyTaken;
    var s := Exec(cfg, db0, actions);
    ExecOk(cfg, db0, actions);
    SerialInv(cfg, db0, s);
    var next := actions + [Advance(tid)];
    assert next[..|next| - 1] == actions;
    var s' := Exec(cfg, db0, next);
    StepAlone(cfg, db0.wallets, s, tid);
    var inv := Invocation(s.txns[tid].call, s.txns[tid].draw);
    if ServedTo(cfg, s, s', tid, inv) {
      n := 1;
      assert actions + Advances(tid, 1) == next;
    } else {
      RankBound(s'.txns[tid].stage);
      var m := Drive(cfg, db0, next, tid);
      n := m + 1;
      assert actions + Advances(tid, n) == next + Advances(tid, m);
      ServedSame(cfg, s, s', Exec(cfg, db0, next + Advances(tid, m)), tid, inv);
    }
  }

  lemma ServedSame(cfg: Config, s: Sys, s1: Sys, s2: Sys, tid: nat, inv: Invocation)
    requires s1.db == s.db && ServedTo(cfg, s1, s2, tid, inv)
    ensures ServedTo(cfg, s, s2, tid, inv)
  {
    hide Serve;
  }

  /** A transaction that runs undisturbed is the serial call: from every reachable state in which no transaction is
      active, a new one brings the database to what its call leaves alone, and gives the call's answer, whatever
      the call and whatever the answer. */
  lemma {:induction false} Undisturbed(cfg: Config, db0: Db, actions: seq<Action>, tid: nat, inv: Invocation) returns (n: nat)
    requires Initial(db0) && tid !in Exec(cfg, db0, actions).txns
    requires var s := Exec(cfg, db0, actions); forall b :: b in s.txns ==> !s.txns[b].Active()
    ensures var s := Exec(cfg, db0, actions);
            var s' := Exec(cfg, db0, actions + [Begin(tid, inv)] + Advances(tid, n));
            && s'.db == Serve(cfg, s.db, inv).db
            && tid in s'.txns && s'.txns[tid].stage == Finished(Serve(cfg, s.db, inv).outcome)
  {
    hide Serve, LocalStep, CommitDb;
    var s := Exec(cfg, db0, actions);
    var next := actions + [Begin(tid, inv)];
    assert next[..|next| - 1] == actions;
    assert Exec(cfg, db0, next) == s.(txns := s.txns[tid := Start(inv)]);
    n := Drive(cfg, db0, next, tid);
  }

  // ---------------------------------------------------------------- aborted

  /** An abort takes effect at once and for good: the database stays, the locks are gone, and whatever happens
      later the transaction does nothing more. */
  lemma {:induction false} AbortedForGood(cfg: Config, db0: Db, actions: seq<Action>, tid: nat, more: seq<Action>)
    requires tid in Exec(cfg, db0, actions).txns && Exec(cfg, db0, actions).txns[tid].Active()
    ensures Exec(cfg, db0, actions + [Abort(tid)]).db == Exec(cfg, db0, actions).db
    ensures var s := Exec(cfg, db0, actions + [Abort(tid)] + more);
            tid in s.txns && s.txns[tid].stage == Crashed && s.txns[tid].held == {}
    decreases |more|
  {
    hide LocalStep, CommitDb, Blocked;
    var next := actions + [Abort(tid)];
    assert next[..|next| - 1] == actions;
    if more == [] {
      assert next + more == next;
    } else {
      AbortedForGood(cfg, db0, actions, tid, more[..|more| - 1]);
      var all := next + more;
      assert all[..|all| - 1] == next + more[..|more| - 1];
    }
  }
}
