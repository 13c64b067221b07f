/** Every schedule of concurrent transactions commits what the committed calls commit one at a time. */
module Refinement {
  import opened Tables
  import opened Rows
  import opened Services
  import opened Invariants
  import opened Runs
  import opened Transactions
  import opened Concurrency

  // ---------------------------------------------------------------- the system invariant

  /** No resource has two holders. */
  ghost predicate Exclusive(s: Sys) {
    forall a, b, k | a in s.txns && b in s.txns && k in s.txns[a].held && k in s.txns[b].held :: a == b
  }

  ghost predicate TxnsOk(cfg: Config, s: Sys) {
    forall a :: a in s.txns ==> TxnOk(cfg, s.db, s.txns[a])
  }

  /** Who holds what, and what each transaction has read. */
  ghost predicate LocksOk(cfg: Config, s: Sys) {
    Exclusive(s) && TxnsOk(cfg, s)
  }

  /** The database is the serial run of the log, in which every call is Done. */
  ghost predicate IsSerial(cfg: Config, db0: Db, s: Sys) {
    && s.db == Run(cfg, db0, s.log)
    && forall k :: 0 <= k < |s.log| ==> Answer(cfg, db0, s.log, k).Done?
  }

  ghost predicate SysOk(cfg: Config, db0: Db, s: Sys) {
    LocksOk(cfg, s) && IsSerial(cfg, db0, s)
  }

  lemma SerialInv(cfg: Config, db0: Db, s: Sys)
    requires Initial(db0) && IsSerial(cfg, db0, s)
    ensures Inv(cfg, db0.wallets, s.db)
  {
    InitialInv(cfg, db0);
    RunKeeps(cfg, db0.wallets, db0, s.log);
  }

  /** What a local step acquires is what it needs. */
  lemma Acquires(cfg: Config, db: Db, t: Txn, k: Resource)
    requires TxnOk(cfg, db, t) && t.Active() && t.stage != Commit
    requires k in LocalStep(cfg, db, t).held && k !in t.held
    ensures Need(cfg, db, t) == Some(k)
  {
    hide Taken, ActiveAsset, EventKey, LedgerKey, Covers, Storable, FundingReplay, OrderReplay, HeldOk, Pinned, KnownAsset;
    match t.call
    case FundCall(r) =>
    case CreateCall(r) =>
    case CancelCall(r) =>
  }

  lemma StepLocal(cfg: Config, s: Sys, tid: nat)
    requires LocksOk(cfg, s) && tid in s.txns && s.txns[tid].Active() && s.txns[tid].stage != Commit
    requires !Blocked(cfg, s, tid)
    ensures LocksOk(cfg, s.(txns := s.txns[tid := LocalStep(cfg, s.db, s.txns[tid])]))
  {
    hide TxnOk, LocalStep, Need;
    var t := s.txns[tid];
    var t' := LocalStep(cfg, s.db, t);
    LocalStepOk(cfg, s.db, t);
    forall k | k in t'.held && k !in t.held ensures !HeldByOther(s, tid, k) {
      Acquires(cfg, s.db, t, k);
    }
    forall b, k | b in s.txns && b != tid && k in t'.held ensures k !in s.txns[b].held {
      assert k in t.held || !HeldByOther(s, tid, k);
    }
  }

  lemma StepCommit(cfg: Config, opening: map<WalletId, Wallet>, s: Sys, tid: nat)
    requires Inv(cfg, opening, s.db) && LocksOk(cfg, s) && tid in s.txns && s.txns[tid].stage == Commit
    ensures Ready(s.txns[tid])
    ensures var t := s.txns[tid];
            && Serve(cfg, s.db, Invocation(t.call, t.draw)) == Result(CommitDb(cfg, s.db, t), Done(CommitId(t)))
            && LocksOk(cfg, Sys(CommitDb(cfg, s.db, t), s.txns[tid := Finish(t, Done(CommitId(t)))],
                                s.log + [Invocation(t.call, t.draw)]))
  {
    hide TxnOk, Inv, Ready, CommitDb, Serve;
    var t := s.txns[tid];
    CommitIsSerial(cfg, opening, s.db, t);
    CommitFramed(cfg, s.db, t);
    var db' := CommitDb(cfg, s.db, t);
    FinishOk(cfg, db', t, Done(CommitId(t)));
    CommitKeepsOthers(cfg, s, tid, db');
  }

  lemma CommitKeepsOthers(cfg: Config, s: Sys, tid: nat, db': Db)
    requires Exclusive(s) && TxnsOk(cfg, s) && tid in s.txns && Framed(s.db, db', s.txns[tid])
    ensures forall a :: a in s.txns && a != tid ==> TxnOk(cfg, db', s.txns[a])
  {
    hide TxnOk, Framed;
    forall a | a in s.txns && a != tid ensures TxnOk(cfg, db', s.txns[a]) {
      FrameKeeps(cfg, s.db, db', s.txns[tid], s.txns[a]);
    }
  }

  lemma {:induction false} LogExtends(cfg: Config, db0: Db, s: Sys, inv: Invocation)
    requires IsSerial(cfg, db0, s) && Serve(cfg, s.db, inv).outcome.Done?
    ensures Run(cfg, db0, s.log + [inv]) == Serve(cfg, s.db, inv).db
    ensures forall k :: 0 <= k < |s.log| + 1 ==> Answer(cfg, db0, s.log + [inv], k).Done?
  {
    hide Serve;
    var log' := s.log + [inv];
    assert log'[..|s.log|] == s.log;
    forall k | 0 <= k < |log'| ensures Answer(cfg, db0, log', k).Done? {
      if k < |s.log| {
        assert log'[..k] == s.log[..k];
        assert Answer(cfg, db0, s.log, k).Done?;
      }
    }
  }

  /** A step keeps the locks in order; it leaves database and log alone, or adds a call that is Done there. */
  lemma StepLocks(cfg: Config, opening: map<WalletId, Wallet>, s: Sys, a: Action)
    requires Inv(cfg, opening, s.db) && LocksOk(cfg, s)
    ensures var s' := Step(cfg, s, a);
            && LocksOk(cfg, s')
            && ((s'.db == s.db && s'.log == s.log)
                || exists inv :: s'.log == s.log + [inv] && CommitsCall(cfg, s.db, inv, s'.db))
  {
    hide TxnOk, LocalStep, Blocked, CommitDb, Ready, Inv, Serve;
    match a
    case Begin(tid, inv) =>
      StartOk(cfg, s.db, inv);
    case Abort(tid) =>
      if tid in s.txns && s.txns[tid].Active() {
        CrashOk(cfg, s.db, s.txns[tid]);
      }
    case Advance(tid) =>
      if tid in s.txns && s.txns[tid].Active() && !Blocked(cfg, s, tid) {
        if s.txns[tid].stage == Commit {
          StepCommit(cfg, opening, s, tid);
          assert CommitsCall(cfg, s.db, Invocation(s.txns[tid].call, s.txns[tid].draw), Step(cfg, s, a).db);
        } else {
          StepLocal(cfg, s, tid);
        }
      }
  }

  /** Run alone on `db`, the call is Done and leaves `db'`. */
  ghost predicate CommitsCall(cfg: Config, db: Db, inv: Invocation, db': Db) {
    Serve(cfg, db, inv).outcome.Done? && Serve(cfg, db, inv).db == db'
  }

  lemma StepKeeps(cfg: Config, db0: Db, s: Sys, a: Action)
    requires Initial(db0) && SysOk(cfg, db0, s)
    ensures SysOk(cfg, db0, Step(cfg, s, a))
  {
    hide LocksOk, Step, Inv, IsSerial, Serve;
    var s' := Step(cfg, s, a);
    SerialInv(cfg, db0, s);
    StepLocks(cfg, db0.wallets, s, a);
    if s'.db == s.db && s'.log == s.log {
      SameSerial(cfg, db0, s, s');
    } else {
      var inv :| s'.log == s.log + [inv] && CommitsCall(cfg, s.db, inv, s'.db);
      LogExtends(cfg, db0, s, inv);
      SerialExtends(cfg, db0, s, inv, s');
    }
  }

  lemma {:induction false} SerialExtends(cfg: Config, db0: Db, s: Sys, inv: Invocation, s': Sys)
    requires s'.log == s.log + [inv] && s'.db == Run(cfg, db0, s.log + [inv])
    requires forall k :: 0 <= k < |s.log| + 1 ==> Answer(cfg, db0, s.log + [inv], k).Done?
    ensures IsSerial(cfg, db0, s')
  {
    hide Run, Answer;
  }

  lemma SameSerial(cfg: Config, db0: Db, s: Sys, s': Sys)
    requires IsSerial(cfg, db0, s) && s'.db == s.db && s'.log == s.log
    ensures IsSerial(cfg, db0, s')
  {
  }

  lemma CrashOk(cfg: Config, db: Db, t: Txn)
    ensures TxnOk(cfg, db, t.(stage := Crashed, held := {}))
  {
  }

  lemma {:induction false} ExecOk(cfg: Config, db0: Db, actions: seq<Action>)
    requires Initial(db0)
    ensures SysOk(cfg, db0, Exec(cfg, db0, actions))
    decreases |actions|
  {
    hide Step, SysOk;
    if actions == [] {
      StartSysOk(cfg, db0);
    } else {
      ExecOk(cfg, db0, actions[..|actions| - 1]);
      StepKeeps(cfg, db0, Exec(cfg, db0, actions[..|actions| - 1]), actions[|actions| - 1]);
    }
  }

  lemma StartSysOk(cfg: Config, db0: Db)
    ensures SysOk(cfg, db0, Sys(db0, map[], []))
  {
  }

  // ---------------------------------------------------------------- main results

  /** Refinement: after any schedule of any number of transactions the committed database is the one that the
      committed calls leave when they run one at a time in commit order, and each of them is Done in that run. */
  lemma {:induction false} ConcurrentIsSerial(cfg: Config, db0: Db, actions: seq<Action>)
    requires Initial(db0)
    ensures var s := Exec(cfg, db0, actions);
            && s.db == Run(cfg, db0, s.log)
            && Reached(cfg, db0, s.db)
            && forall k :: 0 <= k < |s.log| ==> Answer(cfg, db0, s.log, k).Done?
  {
    hide Step, Run, Answer;
    ExecOk(cfg, db0, actions);
  }

  /** Only a commit changes the committed database, and it changes it as its call does alone. */
  lemma {:induction false} OnlyCommitsChange(cfg: Config, db0: Db, actions: seq<Action>, a: Action)
    requires Initial(db0)
    ensures var s := Exec(cfg, db0, actions);
            var s' := Step(cfg, s, a);
            || (s'.db == s.db && s'.log == s.log)
            || (&& a.Advance? && a.tid in s.txns && s.txns[a.tid].stage == Commit
                && var inv := Invocation(s.txns[a.tid].call, s.txns[a.tid].draw);
                   && s'.log == s.log + [inv]
                   && Serve(cfg, s.db, inv) == Result(s'.db, Done(CommitId(s.txns[a.tid])))
                   && s'.txns[a.tid].stage == Finished(Done(CommitId(s.txns[a.tid]))))
  {
    hide TxnOk, LocalStep, Blocked, CommitDb, IsSerial, Serve, Inv;
    var s := Exec(cfg, db0, actions);
    ExecOk(cfg, db0, actions);
    if a.Advance? && a.tid in s.txns && s.txns[a.tid].stage == Commit {
      SerialInv(cfg, db0, s);
      CommitIsSerial(cfg, db0.wallets, s.db, s.txns[a.tid]);
    }
  }
}
