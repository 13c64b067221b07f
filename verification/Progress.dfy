/** Waiting: no deadlock in any schedule, and which waits and violations cannot occur. */
module Progress {
  import opened Tables
  import opened Rows
  import opened Services
  import opened Invariants
  import opened Transactions
  import opened Concurrency
  import opened Refinement

  // ---------------------------------------------------------------- the wait-for graph

  /** a waits for b: the next step of a needs what b holds. */
  ghost predicate WaitsFor(cfg: Config, s: Sys, a: nat, b: nat) {
    && a in s.txns && b in s.txns && a != b && s.txns[a].Active()
    && Need(cfg, s.db, s.txns[a]).Some? && Need(cfg, s.db, s.txns[a]).value in s.txns[b].held
  }

  /** Each stage acquires resources of its own rank only. */
  lemma NeedRank(cfg: Config, db: Db, t: Txn)
    requires TxnOk(cfg, db, t) && t.Active() && Need(cfg, db, t).Some?
    ensures Rank(Need(cfg, db, t).value) == StageRank(t.stage)
  {
    hide ActiveAsset, EventKey, LedgerKey, Pinned, HeldOk;
  }

  lemma WaitsAhead(cfg: Config, s: Sys, a: nat, b: nat)
    requires LocksOk(cfg, s) && WaitsFor(cfg, s, a, b)
    ensures s.txns[b].Active() && StageRank(s.txns[a].stage) < StageRank(s.txns[b].stage)
  {
    hide Need, CallOk, Taken;
    assert TxnOk(cfg, s.db, s.txns[a]) && TxnOk(cfg, s.db, s.txns[b]);
    NeedRank(cfg, s.db, s.txns[a]);
  }

  /** A path of waits leads strictly forward. */
  lemma {:induction false} PathAhead(cfg: Config, s: Sys, path: seq<nat>)
    requires LocksOk(cfg, s) && |path| >= 2
    requires forall i :: 0 <= i < |path| - 1 ==> WaitsFor(cfg, s, path[i], path[i + 1])
    ensures path[0] in s.txns && path[|path| - 1] in s.txns
    ensures StageRank(s.txns[path[0]].stage) < StageRank(s.txns[path[|path| - 1]].stage)
  {
    hide Need, StageRank, LocksOk;
    assert WaitsFor(cfg, s, path[0], path[1]);
    WaitsAhead(cfg, s, path[0], path[1]);
    if |path| > 2 {
      var rest := path[1..];
      assert rest[0] == path[1] && rest[|rest| - 1] == path[|path| - 1];
      forall i | 0 <= i < |rest| - 1 ensures WaitsFor(cfg, s, rest[i], rest[i + 1]) {
        assert WaitsFor(cfg, s, path[i + 1], path[i + 2]);
      }
      PathAhead(cfg, s, rest);
    }
  }

  /** A wait leads to a transaction that is strictly further along, and that is itself active. */
  lemma {:induction false} WaitsForLater(cfg: Config, db0: Db, actions: seq<Action>, a: nat, b: nat)
    requires Initial(db0) && WaitsFor(cfg, Exec(cfg, db0, actions), a, b)
    ensures var s := Exec(cfg, db0, actions);
            s.txns[b].Active() && StageRank(s.txns[a].stage) < StageRank(s.txns[b].stage)
  {
    hide Exec, LocksOk, StageRank;
    ExecOk(cfg, db0, actions);
    WaitsAhead(cfg, Exec(cfg, db0, actions), a, b);
  }

  /** The wait-for graph has no cycle: a path of waits never returns to its start. */
  lemma {:induction false} NoWaitCycle(cfg: Config, db0: Db, actions: seq<Action>, path: seq<nat>)
    requires Initial(db0) && |path| >= 2
    requires forall i :: 0 <= i < |path| - 1 ==> WaitsFor(cfg, Exec(cfg, db0, actions), path[i], path[i + 1])
    ensures path[0] != path[|path| - 1]
    ensures path[0] in Exec(cfg, db0, actions).txns && path[|path| - 1] in Exec(cfg, db0, actions).txns
    ensures var s := Exec(cfg, db0, actions);
            StageRank(s.txns[path[0]].stage) < StageRank(s.txns[path[|path| - 1]].stage)
  {
    hide Exec, LocksOk, StageRank, WaitsFor;
    ExecOk(cfg, db0, actions);
    PathAhead(cfg, Exec(cfg, db0, actions), path);
  }

  // ---------------------------------------------------------------- some transaction can always step

  lemma {:induction false} Unblocked(cfg: Config, s: Sys, tid: nat) returns (free: nat)
    requires LocksOk(cfg, s) && tid in s.txns && s.txns[tid].Active()
    ensures StepsFreely(cfg, s, free)
    decreases 13 - StageRank(s.txns[tid].stage)
  {
    hide Need, StageRank, LocksOk;
    if Blocked(cfg, s, tid) {
      var b :| b in s.txns && b != tid && Need(cfg, s.db, s.txns[tid]).value in s.txns[b].held;
      assert WaitsFor(cfg, s, tid, b);
      WaitsAhead(cfg, s, tid, b);
      RankBound(s.txns[b].stage);
      free := Unblocked(cfg, s, b);
    } else {
      free := tid;
    }
  }

  /** The transaction is active and its next step does not wait. */
  ghost predicate StepsFreely(cfg: Config, s: Sys, tid: nat) {
    tid in s.txns && s.txns[tid].Active() && !Blocked(cfg, s, tid)
  }

  lemma RankBound(s: Stage)
    ensures StageRank(s) <= 13
  {
  }

  /** A local step goes strictly forward. */
  lemma LocalForward(cfg: Config, db: Db, t: Txn)
    requires TxnOk(cfg, db, t) && t.Active() && t.stage != Commit
    ensures StageRank(LocalStep(cfg, db, t).stage) > StageRank(t.stage)
  {
    hide Taken, ActiveAsset, EventKey, LedgerKey, Covers, Storable, FundingReplay, OrderReplay, HeldOk, KnownAsset;
    match t.call
    case FundCall(r) =>
    case CreateCall(r) =>
    case CancelCall(r) =>
  }

  /** The work left: how far the transactions are from their end. */
  ghost function Work(s: Sys): int {
    Sum(s.txns, (i: nat, t: Txn) => 13 - StageRank(t.stage))
  }

  lemma WorkLeft(s: Sys)
    ensures Work(s) >= 0
    ensures forall a :: a in s.txns ==> 13 - StageRank(s.txns[a].stage) <= Work(s)
  {
    hide StageRank;
    forall st: Stage { RankBound(st); }
    SumAtLeast(s.txns, (i: nat, t: Txn) => 13 - StageRank(t.stage));
  }

  /** A step of an unblocked active transaction leaves less work. */
  lemma {:induction false} AdvanceWorks(cfg: Config, db0: Db, actions: seq<Action>, tid: nat)
    requires Initial(db0)
    requires tid in Exec(cfg, db0, actions).txns && Exec(cfg, db0, actions).txns[tid].Active()
    requires !Blocked(cfg, Exec(cfg, db0, actions), tid)
    ensures Work(Exec(cfg, db0, actions + [Advance(tid)])) < Work(Exec(cfg, db0, actions))
  {
    hide Need, Sum, LocalStep, CommitDb, TxnOk, Blocked, IsSerial, Inv;
    var s := Exec(cfg, db0, actions);
    var all := actions + [Advance(tid)];
    assert all[..|all| - 1] == actions;
    var s' := Exec(cfg, db0, all);
    assert s' == Step(cfg, s, Advance(tid));
    ExecOk(cfg, db0, actions);
    var t := s.txns[tid];
    if t.stage == Commit {
      SerialInv(cfg, db0, s);
      CommitIsSerial(cfg, db0.wallets, s.db, t);
    } else {
      LocalForward(cfg, s.db, t);
    }
    assert s'.txns == s.txns[tid := s'.txns[tid]];
    SumUpdate(s.txns, (i: nat, t: Txn) => 13 - StageRank(t.stage), tid, s'.txns[tid]);
  }

  /** Deadlock freedom: from every reachable state the transactions in flight can all be driven to their end
      by steps that never wait. */
  lemma {:induction false} AllCanFinish(cfg: Config, db0: Db, actions: seq<Action>) returns (more: seq<Action>)
    requires Initial(db0)
    ensures forall i :: 0 <= i < |more| ==> more[i].Advance? && StepsFreely(cfg, Exec(cfg, db0, actions + more[..i]), more[i].tid)
    ensures forall a :: a in Exec(cfg, db0, actions + more).txns ==> !Exec(cfg, db0, actions + more).txns[a].Active()
    decreases Work(Exec(cfg, db0, actions))
  {
    hide Exec, Work, Blocked, LocksOk, IsSerial;
    var s := Exec(cfg, db0, actions);
    if tid :| tid in s.txns && s.txns[tid].Active() {
      ExecOk(cfg, db0, actions);
      var free := Unblocked(cfg, s, tid);
      AdvanceWorks(cfg, db0, actions, free);
      WorkLeft(s);
      WorkLeft(Exec(cfg, db0, actions + [Advance(free)]));
      var rest := AllCanFinish(cfg, db0, actions + [Advance(free)]);
      more := [Advance(free)] + rest;
      assert actions + more == actions + [Advance(free)] + rest;
      forall i | 0 <= i < |more| ensures more[i].Advance? && StepsFreely(cfg, Exec(cfg, db0, actions + more[..i]), more[i].tid) {
        if i == 0 {
          assert actions + more[..i] == actions;
        } else {
          assert actions + more[..i] == actions + [Advance(free)] + rest[..i - 1];
        }
      }
    } else {
      more := [];
      assert actions + more == actions;
    }
  }

  // ---------------------------------------------------------------- waits and violations that cannot occur

  /** The treasury lock closes the wallet-creation gap: a funding that found no user wallet inserts one without
      waiting and without violating the unique constraint on (user, asset). */
  lemma {:induction false} WalletInsertSucceeds(cfg: Config, db0: Db, actions: seq<Action>, tid: nat)
    requires Initial(db0)
    requires tid in Exec(cfg, db0, actions).txns && Exec(cfg, db0, actions).txns[tid].stage == InsertWallet
    ensures !Blocked(cfg, Exec(cfg, db0, actions), tid)
    ensures Exec(cfg, db0, actions + [Advance(tid)]).txns[tid].stage == InsertTxId
  {
    hide ActiveAsset, EventKey, LedgerKey, Covers, Storable, IsSerial;
    var s := Exec(cfg, db0, actions);
    var all := actions + [Advance(tid)];
    assert all[..|all| - 1] == actions;
    ExecOk(cfg, db0, actions);
    assert TxnOk(cfg, s.db, s.txns[tid]);
    var r := s.txns[tid].call.fund;
    var u := UserWalletOf(cfg, r);
    assert WalletRow(TreasuryOf(cfg, r)) in s.txns[tid].held;
    forall b | b in s.txns && b != tid ensures NewWallet(u) !in s.txns[b].held {
      if NewWallet(u) in s.txns[b].held {
        InsertedUnderTreasury(cfg, s.db, s.txns[b], u);
      }
    }
  }

  lemma InsertedUnderTreasury(cfg: Config, db: Db, t: Txn, u: WalletId)
    requires TxnOk(cfg, db, t) && NewWallet(u) in t.held
    ensures WalletRow(WalletId(Treasury, u.asset)) in t.held
  {
    hide ActiveAsset, EventKey, LedgerKey, Covers, Storable, Taken;
    assert t.Active();
    match t.call
    case FundCall(r) =>
    case CreateCall(r) =>
    case CancelCall(r) =>
  }
}
