/** One machine with both: transactions that interleave step by step, and relay workers beside them.

    Workers see what is committed and lock only outbox rows, which no transaction reads or updates.  Every run of
    the whole is, seen from the outbox, a run of the relay machine with the calls in commit order. */
module Composition {
  import opened Tables
  import opened Rows
  import opened Services
  import opened Invariants
  import opened Concurrency
  import opened Refinement
  import opened DeliveryOrder
  import T = Transactions
  import R = Relay
  import P = Progress
  import D = Decimals

  /** `trace` is what a relay machine with atomic calls would have done: the commits and the workers' steps. */
  datatype Site = Site(db: Db, txns: map<nat, T.Txn>, broker: seq<R.Message>, busy: map<nat, R.Work>, trace: seq<R.Action>)

  datatype Move = Transact(step: T.Action) | Work(labor: R.Action)

  /** The site seen by the transactions, before anything is logged. */
  function Inside(s: Site): T.Sys {
    T.Sys(s.db, s.txns, [])
  }

  /** The site seen by the workers. */
  function Outside(s: Site): R.System {
    R.System(s.db, s.broker, s.busy)
  }

  function Calls(log: seq<Invocation>): seq<R.Action> {
    seq(|log|, i requires 0 <= i < |log| => R.Call(log[i]))
  }

  /** A transaction starts, steps or aborts; or a worker claims, publishes, records or crashes. */
  ghost function Step(cfg: Config, s: Site, m: Move): Site {
    match m
    case Transact(a) =>
      var next := T.Step(cfg, Inside(s), a);
      Site(next.db, next.txns, s.broker, s.busy, s.trace + Calls(next.log))
    case Work(a) =>
      if a.Call? then s else
      var next := R.Step(cfg, Outside(s), a);
      Site(next.db, s.txns, next.broker, next.busy, s.trace + [a])
  }

  ghost function Exec(cfg: Config, db0: Db, moves: seq<Move>): Site
    decreases |moves|
  {
    if moves == [] then Site(db0, map[], [], map[], []) else
    Step(cfg, Exec(cfg, db0, moves[..|moves| - 1]), moves[|moves| - 1])
  }

  // ---------------------------------------------------------------- invariant

  /** The calls of the trace succeed where they stand. */
  ghost predicate CallsDone(cfg: Config, db0: Db, trace: seq<R.Action>) {
    forall k :: 0 <= k < |trace| && trace[k].Call? ==>
      Serve(cfg, R.Exec(cfg, R.Boot(db0), trace[..k]).db, trace[k].inv).outcome.Done?
  }

  ghost predicate SiteOk(cfg: Config, db0: Db, s: Site) {
    && LocksOk(cfg, Inside(s))
    && Outside(s) == R.Exec(cfg, R.Boot(db0), s.trace)
    && CallsDone(cfg, db0, s.trace)
  }

  lemma {:induction false} SiteInv(cfg: Config, db0: Db, s: Site)
    requires Initial(db0) && Outside(s) == R.Exec(cfg, R.Boot(db0), s.trace)
    ensures Inv(cfg, db0.wallets, s.db) && R.SystemOk(cfg, db0.wallets, Outside(s))
  {
    hide Inv, R.Exec;
    R.ExecOk(cfg, db0, s.trace);
  }

  /** Transactions do not notice what a worker does. */
  lemma WorkUnnoticed(cfg: Config, s: Site, a: R.Action)
    requires LocksOk(cfg, Inside(s)) && !a.Call?
    ensures LocksOk(cfg, Inside(Step(cfg, s, Work(a))))
  {
    hide TxnOk, Framed;
    var s' := Step(cfg, s, Work(a));
    forall x | x in s.txns ensures TxnOk(cfg, s'.db, s.txns[x]) {
      var nobody := T.Txn(s.txns[x].call, s.txns[x].draw, T.Crashed, {}, None, None, None);
      WorkFramed(cfg, s, a, nobody);
      FrameKeeps(cfg, s.db, s'.db, nobody, s.txns[x]);
    }
  }

  lemma WorkFramed(cfg: Config, s: Site, a: R.Action, nobody: T.Txn)
    requires !a.Call? && nobody.held == {}
    ensures Framed(s.db, Step(cfg, s, Work(a)).db, nobody)
  {
    hide EventKey, R.First, R.Cut;
    var db' := Step(cfg, s, Work(a)).db;
    forall k | T.Taken(db', k) ensures T.Taken(s.db, k) {
      match k
      case NewEventKey(key) =>
        var e :| e in db'.events && EventKey(db'.events[e].kind, db'.events[e].order) == key;
        assert e in s.db.events && EventKey(s.db.events[e].kind, s.db.events[e].order) == key;
      case NewTxKey(key) =>
      case NewOrderKey(user, key) =>
      case _ =>
    }
  }

  lemma {:induction false} TraceExtends(cfg: Config, db0: Db, trace: seq<R.Action>, a: R.Action)
    requires CallsDone(cfg, db0, trace)
    requires a.Call? ==> Serve(cfg, R.Exec(cfg, R.Boot(db0), trace).db, a.inv).outcome.Done?
    ensures R.Exec(cfg, R.Boot(db0), trace + [a]) == R.Step(cfg, R.Exec(cfg, R.Boot(db0), trace), a)
    ensures CallsDone(cfg, db0, trace + [a])
  {
    hide Serve, R.Step;
    var longer := trace + [a];
    assert longer[..|trace|] == trace;
    forall k | 0 <= k < |longer| && longer[k].Call?
      ensures Serve(cfg, R.Exec(cfg, R.Boot(db0), longer[..k]).db, longer[k].inv).outcome.Done?
    {
      if k < |trace| {
        assert longer[..k] == trace[..k] && trace[k].Call?;
      }
    }
  }

  lemma WorkKeeps(cfg: Config, db0: Db, s: Site, a: R.Action)
    requires Initial(db0) && SiteOk(cfg, db0, s)
    ensures SiteOk(cfg, db0, Step(cfg, s, Work(a)))
  {
    hide LocksOk, CallsDone, R.Exec, R.Step, Serve;
    if !a.Call? {
      WorkUnnoticed(cfg, s, a);
      TraceExtends(cfg, db0, s.trace, a);
    }
  }

  lemma TransactKeeps(cfg: Config, db0: Db, s: Site, a: T.Action)
    requires Initial(db0) && SiteOk(cfg, db0, s)
    ensures SiteOk(cfg, db0, Step(cfg, s, Transact(a)))
  {
    hide LocksOk, CallsDone, R.Exec, T.Step, Inv, Serve;
    var s' := Step(cfg, s, Transact(a));
    var next := T.Step(cfg, Inside(s), a);
    SiteInv(cfg, db0, s);
    StepLocks(cfg, db0.wallets, Inside(s), a);
    SameLocks(cfg, next);
    if next.db == s.db && next.log == [] {
      assert s'.trace == s.trace;
    } else {
      var inv :| next.log == [] + [inv] && CommitsCall(cfg, s.db, inv, next.db);
      assert Calls(next.log) == [R.Call(inv)];
      TraceExtends(cfg, db0, s.trace, R.Call(inv));
    }
  }

  lemma SameLocks(cfg: Config, s: T.Sys)
    requires LocksOk(cfg, s)
    ensures LocksOk(cfg, T.Sys(s.db, s.txns, []))
  {
    hide TxnOk;
  }

  lemma {:induction false} ExecOk(cfg: Config, db0: Db, moves: seq<Move>)
    requires Initial(db0)
    ensures SiteOk(cfg, db0, Exec(cfg, db0, moves))
    decreases |moves|
  {
    hide SiteOk, Step;
    if moves == [] {
      NothingYet(cfg, db0);
    } else {
      var s := Exec(cfg, db0, moves[..|moves| - 1]);
      ExecOk(cfg, db0, moves[..|moves| - 1]);
      match moves[|moves| - 1]
      case Transact(a) => TransactKeeps(cfg, db0, s, a);
      case Work(a) => WorkKeeps(cfg, db0, s, a);
    }
  }

  lemma {:induction false} NothingYet(cfg: Config, db0: Db)
    ensures SiteOk(cfg, db0, Site(db0, map[], [], map[], []))
  {
  }

  // ---------------------------------------------------------------- main results

  /** The workers' steps among the moves. */
  function Labors(moves: seq<Move>): seq<R.Action>
    decreases |moves|
  {
    if moves == [] then [] else
    var before, m := Labors(moves[..|moves| - 1]), moves[|moves| - 1];
    if m.Work? && !m.labor.Call? then before + [m.labor] else before
  }

  /** The steps of a trace that are not calls. */
  function NoCalls(trace: seq<R.Action>): seq<R.Action>
    decreases |trace|
  {
    if trace == [] then [] else
    var before, a := NoCalls(trace[..|trace| - 1]), trace[|trace| - 1];
    if a.Call? then before else before + [a]
  }

  lemma {:induction false} NoCallsNext(trace: seq<R.Action>, a: R.Action)
    ensures NoCalls(trace + [a]) == if a.Call? then NoCalls(trace) else NoCalls(trace) + [a]
  {
    assert (trace + [a])[..|trace|] == trace;
  }

  /** What a transaction's step adds to the trace is nothing or one call. */
  lemma TransactTrace(cfg: Config, db0: Db, s: Site, a: T.Action)
    requires Initial(db0) && SiteOk(cfg, db0, s)
    ensures NoCalls(Step(cfg, s, Transact(a)).trace) == NoCalls(s.trace)
  {
    hide LocksOk, CallsDone, R.Exec, T.Step, Inv, Serve, NoCalls;
    SiteInv(cfg, db0, s);
    StepLocks(cfg, db0.wallets, Inside(s), a);
    var next := T.Step(cfg, Inside(s), a);
    if next.db == s.db && next.log == [] {
      assert s.trace + Calls(next.log) == s.trace;
    } else {
      var inv :| next.log == [] + [inv] && CommitsCall(cfg, s.db, inv, next.db);
      assert Calls(next.log) == [R.Call(inv)];
      NoCallsNext(s.trace, R.Call(inv));
    }
  }

  lemma {:induction false} SameLabors(cfg: Config, db0: Db, moves: seq<Move>)
    requires Initial(db0)
    ensures NoCalls(Exec(cfg, db0, moves).trace) == Labors(moves)
    decreases |moves|
  {
    hide SiteOk, T.Step, R.Step;
    if moves != [] {
      var before, m := moves[..|moves| - 1], moves[|moves| - 1];
      var s := Exec(cfg, db0, before);
      SameLabors(cfg, db0, before);
      ExecOk(cfg, db0, before);
      match m
      case Transact(a) => TransactTrace(cfg, db0, s, a);
      case Work(a) => NoCallsNext(s.trace, a);
    }
  }

  /** Projection: after any interleaving of transactions and workers, database, log and claims are those of a run
      of the relay machine that takes the same workers' steps and, in commit order, the committed calls, each of
      which is Done where it stands. */
  lemma {:induction false} RunsAreRelayRuns(cfg: Config, db0: Db, moves: seq<Move>)
    requires Initial(db0)
    ensures var s := Exec(cfg, db0, moves);
            && Outside(s) == R.Exec(cfg, R.Boot(db0), s.trace)
            && CallsDone(cfg, db0, s.trace)
            && NoCalls(s.trace) == Labors(moves)
  {
    hide Exec, R.Exec, LocksOk, CallsDone;
    ExecOk(cfg, db0, moves);
    SameLabors(cfg, db0, moves);
  }

  lemma {:induction false} AllLabors(trace: seq<R.Action>, p: R.Action -> bool)
    requires forall i :: 0 <= i < |NoCalls(trace)| ==> p(NoCalls(trace)[i])
    ensures forall i :: 0 <= i < |trace| && !trace[i].Call? ==> p(trace[i])
    decreases |trace|
  {
    if trace != [] {
      var before, a := trace[..|trace| - 1], trace[|trace| - 1];
      var kept := NoCalls(before);
      forall i | 0 <= i < |kept| ensures p(kept[i]) {
        assert NoCalls(trace)[i] == kept[i];
      }
      AllLabors(before, p);
      if !a.Call? {
        assert NoCalls(trace)[|kept|] == a;
      }
    }
  }

  /** Under interleaved transactions: a published event is in the log, every message is a committed event of a
      transition its order has made, no event is claimed twice, and claimed events are unpublished. */
  lemma {:induction false} NothingLostNothingInvented(cfg: Config, db0: Db, moves: seq<Move>)
    requires Initial(db0)
    ensures var s := Exec(cfg, db0, moves);
            && (forall e :: e in s.db.events && s.db.events[e].publishedAt.Some? ==> R.Delivered(s.broker, e))
            && (forall i :: 0 <= i < |s.broker| ==>
                  && s.broker[i].event in s.db.events
                  && s.broker[i] == R.MessageOf(s.broker[i].event, s.db.events[s.broker[i].event])
                  && s.broker[i].order in s.db.orders
                  && (s.broker[i].kind == OrderCanceled ==> s.db.orders[s.broker[i].order].status == Canceled))
            && R.BusyOk(s.db.events, s.broker, s.busy)
  {
    hide Exec, R.Exec, R.Delivered, Inv;
    RunsAreRelayRuns(cfg, db0, moves);
    var s := Exec(cfg, db0, moves);
    SiteInv(cfg, db0, s);
    R.NoLossNoPhantom(cfg, db0, s.trace);
    assert Outside(s).db == s.db && Outside(s).broker == s.broker && Outside(s).busy == s.busy;
  }

  /** Under interleaved transactions and with one live worker, any failures, crashes and retries: if every
      cancellation is stamped after its creation, `order.created` is delivered first. */
  lemma {:induction false} CreatedFirstAmongTransactions(cfg: Config, db0: Db, moves: seq<Move>, w: nat)
    requires Initial(db0) && forall i :: 0 <= i < |Labors(moves)| ==> Solo(Labors(moves)[i], w)
    requires Stamped(Exec(cfg, db0, moves).db.events)
    ensures InOrder(Exec(cfg, db0, moves).broker)
  {
    hide Exec, R.Exec, Stamped, InOrder, CallsDone;
    RunsAreRelayRuns(cfg, db0, moves);
    var s := Exec(cfg, db0, moves);
    AllLabors(s.trace, (a: R.Action) => Solo(a, w));
    assert Outside(s).db == s.db && Outside(s).broker == s.broker;
    CreatedFirst(cfg, db0, s.trace, w);
  }

  /** Under interleaved transactions, if no worker crashes and no publisher raises, a published event is in the log
      exactly once after exactly one attempt. */
  lemma {:induction false} ExactlyOnceAmongTransactions(cfg: Config, db0: Db, moves: seq<Move>, e: Uuid)
    requires Initial(db0) && forall i :: 0 <= i < |Labors(moves)| ==> Smooth(Labors(moves)[i])
    requires e in Exec(cfg, db0, moves).db.events && Exec(cfg, db0, moves).db.events[e].publishedAt.Some?
    ensures var s := Exec(cfg, db0, moves); Copies(s.broker, e) == 1 && s.db.events[e].attempts == 1
  {
    hide Exec, R.Exec, Copies, CallsDone;
    RunsAreRelayRuns(cfg, db0, moves);
    var s := Exec(cfg, db0, moves);
    AllLabors(s.trace, (a: R.Action) => Smooth(a));
    assert Outside(s).db == s.db && Outside(s).broker == s.broker;
    ExactlyOnce(cfg, db0, s.trace, e);
  }

  /** With workers beside them, the transactions' wait-for graph has no cycle, and while one is active one can
      step without waiting. */
  lemma {:induction false} NoDeadlockWithWorkers(cfg: Config, db0: Db, moves: seq<Move>, path: seq<nat>)
    requires Initial(db0)
    ensures var s := Exec(cfg, db0, moves);
            && (|path| >= 2 && (forall i :: 0 <= i < |path| - 1 ==> P.WaitsFor(cfg, Inside(s), path[i], path[i + 1])) ==>
                  path[0] != path[|path| - 1])
            && ((exists tid :: tid in s.txns && s.txns[tid].Active()) ==> exists free :: P.StepsFreely(cfg, Inside(s), free))
  {
    hide Exec, LocksOk, P.WaitsFor, CallsDone, StageRank, P.StepsFreely;
    ExecOk(cfg, db0, moves);
    var s := Exec(cfg, db0, moves);
    if |path| >= 2 && (forall i :: 0 <= i < |path| - 1 ==> P.WaitsFor(cfg, Inside(s), path[i], path[i + 1])) {
      P.PathAhead(cfg, Inside(s), path);
    }
    if tid :| tid in s.txns && s.txns[tid].Active() {
      var free := P.Unblocked(cfg, Inside(s), tid);
    }
  }

  // ---------------------------------------------------------------- the workers do not matter to the calls

  /** The database as if no worker had touched it. */
  ghost function Untouched(db: Db): Db {
    db.(events := map e | e in db.events :: db.events[e].(publishedAt := None, attempts := 0, lastError := None))
  }

  lemma SameEvents(db: Db, kind: EventKind, order: Uuid)
    ensures HasEvent(Untouched(db).events, kind, order) <==> HasEvent(db.events, kind, order)
  {
    hide EventKey;
    var events := Untouched(db).events;
    if HasEvent(db.events, kind, order) {
      var e :| e in db.events && IsEventOf(db.events[e], kind, order);
      assert e in events && IsEventOf(events[e], kind, order);
    }
    if HasEvent(events, kind, order) {
      var e :| e in events && IsEventOf(events[e], kind, order);
      assert e in db.events && IsEventOf(db.events[e], kind, order);
    }
  }

  /** A call does the same whether or not workers have delivered what was there. */
  lemma ServeUntouched(cfg: Config, db: Db, inv: Invocation)
    ensures Serve(cfg, Untouched(db), inv).outcome == Serve(cfg, db, inv).outcome
    ensures Serve(cfg, Untouched(db), inv).db == Untouched(Serve(cfg, db, inv).db)
  {
    hide Fund, Create, Cancel, Untouched;
    match inv.call
    case FundCall(r) => FundUntouched(cfg, db, r, inv.draw);
    case CreateCall(r) => CreateUntouched(cfg, db, r, inv.draw);
    case CancelCall(r) => CancelUntouched(cfg, db, r, inv.draw);
  }

  lemma CreateUntouched(cfg: Config, db: Db, r: CreateRequest, d: Draw)
    ensures Create(cfg, Untouched(db), r, d) == Result(Untouched(Create(cfg, db, r, d).db), Create(cfg, db, r, d).outcome)
  {
    hide HasEvent, ActiveAsset, OrderReplay, Reservation;
    if r.price > 0 && r.quantity > 0 {
      ReservationUntouched(cfg, db, r, T.AssetOr0(cfg, r.baseCode), T.AssetOr0(cfg, r.quoteCode), d);
    }
  }

  lemma ReservationUntouched(cfg: Config, db: Db, r: CreateRequest, base: Uuid, quote: Uuid, d: Draw)
    requires r.price > 0 && r.quantity > 0
    ensures Reservation(cfg, Untouched(db), r, base, quote, d)
         == Result(Untouched(Reservation(cfg, db, r, base, quote, d).db), Reservation(cfg, db, r, base, quote, d).outcome)
  {
    hide HasEvent, EventKey, LedgerKey, TxFor, Exact, Post, Reserve, Covers;
    SameEvents(db, OrderCreated, d.order);
  }

  lemma CancelUntouched(cfg: Config, db: Db, r: CancelRequest, d: Draw)
    ensures Cancel(cfg, Untouched(db), r, d) == Result(Untouched(Cancel(cfg, db, r, d).db), Cancel(cfg, db, r, d).outcome)
  {
    hide HasEvent, EventKey, KnownAsset, Post;
    SameEvents(db, OrderCanceled, r.order);
  }

  lemma FundUntouched(cfg: Config, db: Db, r: FundRequest, d: Draw)
    ensures Fund(cfg, Untouched(db), r, d) == Result(Untouched(Fund(cfg, db, r, d).db), Fund(cfg, db, r, d).outcome)
  {
    hide ActiveAsset, TxFor, HasFundingCredit, Post;
  }

  function CallsOf(trace: seq<R.Action>): seq<Invocation>
    decreases |trace|
  {
    if trace == [] then [] else
    var before, a := CallsOf(trace[..|trace| - 1]), trace[|trace| - 1];
    if a.Call? then before + [a.inv] else before
  }

  lemma {:induction false} RelayRunUntouched(cfg: Config, db0: Db, trace: seq<R.Action>)
    requires Initial(db0)
    ensures Untouched(R.Exec(cfg, R.Boot(db0), trace).db) == Run(cfg, db0, CallsOf(trace))
    decreases |trace|
  {
    hide Serve;
    if trace == [] {
      assert Untouched(db0) == db0;
    } else {
      var before, a := trace[..|trace| - 1], trace[|trace| - 1];
      RelayRunUntouched(cfg, db0, before);
      var s := R.Exec(cfg, R.Boot(db0), before);
      if a.Call? {
        ServeUntouched(cfg, s.db, a.inv);
        assert (CallsOf(before) + [a.inv])[..|CallsOf(before)|] == CallsOf(before);
      } else {
        WorkUntouched(cfg, s, a);
      }
    }
  }

  lemma WorkUntouched(cfg: Config, s: R.System, a: R.Action)
    requires !a.Call?
    ensures Untouched(R.Step(cfg, s, a).db) == Untouched(s.db)
  {
    hide R.First, R.Cut;
  }

  /** Refinement with workers: apart from the three delivery columns of the outbox, the database after any
      interleaving is the one that the committed calls leave when run one at a time in commit order. */
  lemma {:induction false} ConcurrentIsSerialWithWorkers(cfg: Config, db0: Db, moves: seq<Move>)
    requires Initial(db0)
    ensures var s := Exec(cfg, db0, moves); Untouched(s.db) == Run(cfg, db0, CallsOf(s.trace))
  {
    hide Exec, R.Exec, Run, CallsDone;
    RunsAreRelayRuns(cfg, db0, moves);
    var s := Exec(cfg, db0, moves);
    assert Outside(s).db == s.db;
    RelayRunUntouched(cfg, db0, s.trace);
  }

  // ---------------------------------------------------------------- forgetting the workers

  ghost function Clean(s: T.Sys): T.Sys {
    s.(db := Untouched(s.db))
  }

  lemma TakenUntouched(db: Db, k: T.Resource)
    ensures T.Taken(Untouched(db), k) <==> T.Taken(db, k)
  {
    hide EventKey;
    var events := Untouched(db).events;
    match k
    case NewEventKey(key) =>
      if T.Taken(db, k) {
        var e :| e in db.events && EventKey(db.events[e].kind, db.events[e].order) == key;
        assert e in events && EventKey(events[e].kind, events[e].order) == key;
      }
      if T.Taken(Untouched(db), k) {
        var e :| e in events && EventKey(events[e].kind, events[e].order) == key;
        assert e in db.events && EventKey(db.events[e].kind, db.events[e].order) == key;
      }
    case _ =>
  }

  lemma LocalUntouched(cfg: Config, db: Db, t: T.Txn)
    ensures T.LocalStep(cfg, Untouched(db), t) == T.LocalStep(cfg, db, t)
  {
    hide T.Taken, ActiveAsset, HasFundingCredit, TxFor, OrderReplay, Covers, Exact, Storable, LedgerKey, EventKey, KnownAsset;
    forall k ensures T.Taken(Untouched(db), k) <==> T.Taken(db, k) {
      TakenUntouched(db, k);
    }
    match t.call
    case FundCall(r) =>
    case CreateCall(r) =>
    case CancelCall(r) =>
  }

  lemma CommitUntouched(cfg: Config, db: Db, t: T.Txn)
    requires T.Ready(t)
    ensures T.CommitDb(cfg, Untouched(db), t) == Untouched(T.CommitDb(cfg, db, t))
  {
    hide ActiveAsset, Exact, FundDb, CreateDb, CancelDb, Untouched, D.Store;
    match t.call
    case FundCall(r) =>
      FundDbUntouched(db, r, T.AssetOr0(cfg, r.assetCode), t.treasury.value, if t.wallet.Some? then t.wallet.value else Wallet(0, 0), t.draw);
    case CreateCall(r) =>
      var o := NewOrder(r, T.AssetOr0(cfg, r.baseCode), T.AssetOr0(cfg, r.quoteCode), t.draw.tx);
      CreateDbUntouched(cfg, db, o, Exact(r.side, r.price, r.quantity), t.wallet.value, t.draw);
    case CancelCall(r) =>
      CancelDbUntouched(db, r.order, t.order.value, t.wallet.value, t.draw);
  }

  lemma FundDbUntouched(db: Db, r: FundRequest, asset: Uuid, treasury: Wallet, user: Wallet, d: Draw)
    requires 0 < r.amount <= treasury.available
    ensures FundDb(Untouched(db), r, asset, treasury, user, d) == Untouched(FundDb(db, r, asset, treasury, user, d))
  {
    hide Post;
  }

  lemma CreateDbUntouched(cfg: Config, db: Db, o: Order, v: nat, wallet: Wallet, d: Draw)
    requires Covers(wallet, v)
    ensures CreateDb(cfg, Untouched(db), o, v, wallet, d) == Untouched(CreateDb(cfg, db, o, v, wallet, d))
  {
    hide Post, Reserve, LedgerKey;
  }

  lemma CancelDbUntouched(db: Db, id: Uuid, o: Order, wallet: Wallet, d: Draw)
    requires o.reserved <= wallet.locked
    ensures CancelDb(Untouched(db), id, o, wallet, d) == Untouched(CancelDb(db, id, o, wallet, d))
  {
    hide Post;
  }

  lemma BlockedUntouched(cfg: Config, s: T.Sys, tid: nat)
    requires tid in s.txns
    ensures T.Blocked(cfg, Clean(s), tid) <==> T.Blocked(cfg, s, tid)
  {
    hide ActiveAsset, LedgerKey, EventKey;
    assert T.Need(cfg, Untouched(s.db), s.txns[tid]) == T.Need(cfg, s.db, s.txns[tid]);
  }

  /** A transaction's step is the same whether or not workers have delivered what was there. */
  lemma StepUntouched(cfg: Config, s: T.Sys, a: T.Action)
    ensures T.Step(cfg, Clean(s), a) == Clean(T.Step(cfg, s, a))
  {
    hide T.LocalStep, T.CommitDb, T.Blocked, T.Ready, Untouched;
    if a.Advance? && a.tid in s.txns {
      BlockedUntouched(cfg, s, a.tid);
      LocalUntouched(cfg, s.db, s.txns[a.tid]);
      if T.Ready(s.txns[a.tid]) {
        CommitUntouched(cfg, s.db, s.txns[a.tid]);
      }
    }
  }

  /** The log does not matter to a step, which adds at most one call to it. */
  lemma StepLogs(cfg: Config, s: T.Sys, a: T.Action)
    ensures var bare, full := T.Step(cfg, T.Sys(s.db, s.txns, []), a), T.Step(cfg, s, a);
            && full == T.Sys(bare.db, bare.txns, s.log + bare.log)
            && |bare.log| <= 1
  {
    hide T.LocalStep, T.CommitDb, T.Ready, T.Need;
    var bare := T.Sys(s.db, s.txns, []);
    assert s.log + [] == s.log;
    if a.Advance? && a.tid in s.txns {
      SameBlocked(cfg, s, a.tid);
    }
  }

  lemma SameBlocked(cfg: Config, s: T.Sys, tid: nat)
    requires tid in s.txns
    ensures T.Blocked(cfg, T.Sys(s.db, s.txns, []), tid) <==> T.Blocked(cfg, s, tid)
  {
    hide T.Need;
    assert forall k :: T.HeldByOther(T.Sys(s.db, s.txns, []), tid, k) <==> T.HeldByOther(s, tid, k);
  }

  lemma {:induction false} CallsAppended(trace: seq<R.Action>, log: seq<Invocation>)
    requires |log| <= 1
    ensures CallsOf(trace + Calls(log)) == CallsOf(trace) + log
  {
    if log == [] {
      assert trace + Calls(log) == trace;
    } else {
      assert Calls(log) == [R.Call(log[0])];
      CallsOfNext(trace, R.Call(log[0]));
      assert log == [log[0]];
    }
  }

  lemma {:induction false} CallsOfNext(trace: seq<R.Action>, a: R.Action)
    ensures CallsOf(trace + [a]) == if a.Call? then CallsOf(trace) + [a.inv] else CallsOf(trace)
  {
    assert (trace + [a])[..|trace|] == trace;
  }

  /** The transactions' steps among the moves. */
  function Steps(moves: seq<Move>): seq<T.Action>
    decreases |moves|
  {
    if moves == [] then [] else
    var before, m := Steps(moves[..|moves| - 1]), moves[|moves| - 1];
    if m.Transact? then before + [m.step] else before
  }

  /** Forgetting the workers: the transactions of any run of the whole do exactly what they do without workers, step
      by step; their states, the commit order and, apart from the delivery columns, the database are the same. */
  lemma {:induction false} RunsAreTransactionRuns(cfg: Config, db0: Db, moves: seq<Move>)
    requires Initial(db0)
    ensures var s := Exec(cfg, db0, moves);
            T.Exec(cfg, db0, Steps(moves)) == T.Sys(Untouched(s.db), s.txns, CallsOf(s.trace))
    decreases |moves|
  {
    hide T.Step, R.Step, Untouched;
    if moves == [] {
      NobodyTouched(db0);
    } else {
      var before, m := moves[..|moves| - 1], moves[|moves| - 1];
      var s := Exec(cfg, db0, before);
      RunsAreTransactionRuns(cfg, db0, before);
      match m
      case Transact(a) =>
        var logged := T.Sys(s.db, s.txns, CallsOf(s.trace));
        StepUntouched(cfg, logged, a);
        StepLogs(cfg, logged, a);
        CallsAppended(s.trace, T.Step(cfg, Inside(s), a).log);
        StepsNext(before, a);
        assert moves == before + [m];
        ExecNext(cfg, db0, Steps(before), a);
      case Work(a) =>
        if !a.Call? {
          WorkUntouched(cfg, Outside(s), a);
          CallsOfNext(s.trace, a);
        }
    }
  }

  lemma NobodyTouched(db0: Db)
    requires Initial(db0)
    ensures Untouched(db0) == db0
  {
  }

  lemma {:induction false} StepsNext(moves: seq<Move>, a: T.Action)
    ensures Steps(moves + [Transact(a)]) == Steps(moves) + [a]
  {
    assert (moves + [Transact(a)])[..|moves|] == moves;
  }

  lemma {:induction false} ExecNext(cfg: Config, db0: Db, actions: seq<T.Action>, a: T.Action)
    ensures T.Exec(cfg, db0, actions + [a]) == T.Step(cfg, T.Exec(cfg, db0, actions), a)
  {
    assert (actions + [a])[..|actions|] == actions;
  }
}
