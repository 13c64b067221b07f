/** The outbox relay: any number of workers that claim, publish and record, beside the calls that add events.

    A worker claims the first unpublished event that no other worker holds (`FOR UPDATE SKIP LOCKED`), hands it
    to a publisher that may deliver, raise, or deliver and then raise, and records the result at its commit.  A
    crash before the commit loses the record, not the delivery.  The calls are atomic here: every schedule of
    their transactions commits what they commit one at a time. */
module Relay {
  import opened Tables
  import opened Rows
  import opened Services
  import opened Invariants
  import opened Serial
  import opened Idempotency

  // ---------------------------------------------------------------- the next event

  /** ORDER BY created_at, id. */
  predicate Before(events: map<Uuid, Event>, a: Uuid, b: Uuid)
    requires a in events && b in events
  {
    events[a].createdAt < events[b].createdAt || (events[a].createdAt == events[b].createdAt && a < b)
  }

  ghost function Pending(events: map<Uuid, Event>): set<Uuid> {
    set e | e in events && events[e].publishedAt.None?
  }

  ghost predicate IsFirst(events: map<Uuid, Event>, from: set<Uuid>, e: Uuid) {
    e in from && e in events && forall f :: f in from && f in events ==> !Before(events, f, e)
  }

  /** The first of a set of events, if there is one. */
  ghost function First(events: map<Uuid, Event>, from: set<Uuid>): (r: Option<Uuid>)
    ensures r.Some? ==> IsFirst(events, from, r.value)
  {
    if exists e :: IsFirst(events, from, e) then
      var e :| IsFirst(events, from, e);
      Some(e)
    else
      None
  }

  lemma {:induction false} SomeIsFirst(events: map<Uuid, Event>, from: set<Uuid>)
    requires from != {} && forall e :: e in from ==> e in events
    ensures exists e :: IsFirst(events, from, e)
    decreases |from|
  {
    var x :| x in from;
    var rest := from - {x};
    if rest == {} {
      assert from == {x};
      assert IsFirst(events, from, x);
    } else {
      SomeIsFirst(events, rest);
      var y :| IsFirst(events, rest, y);
      if Before(events, x, y) {
        assert IsFirst(events, from, x);
      } else {
        assert IsFirst(events, from, y);
      }
    }
  }

  lemma FirstFound(events: map<Uuid, Event>, from: set<Uuid>)
    requires forall e :: e in from ==> e in events
    ensures First(events, from).None? <==> from == {}
    ensures forall e: Uuid :: IsFirst(events, from, e) ==> First(events, from) == Some(e)
  {
    if from != {} {
      SomeIsFirst(events, from);
    }
  }

  // ---------------------------------------------------------------- the machine

  datatype Message = Message(event: Uuid, kind: EventKind, order: Uuid)

  datatype Delivery = Delivers | Raises(error: string) | DeliversThenRaises(error: string)

  /** A busy worker has claimed an event, or its publisher has returned, with an error or without. */
  datatype Work = Claimed(event: Uuid) | Returned(event: Uuid, error: Option<string>)

  /** The database, everything the broker accepted, and the busy workers. */
  datatype System = System(db: Db, broker: seq<Message>, busy: map<nat, Work>)

  datatype Action =
    | Call(inv: Invocation)
    | Claim(worker: nat)
    | Publish(worker: nat, delivery: Delivery)
    | Record(worker: nat, now: int)
    | Crash(worker: nat)

  ghost function Held(busy: map<nat, Work>): set<Uuid> {
    set w | w in busy :: busy[w].event
  }

  function Cut(text: string): string {
    if |text| > 2000 then text[..2000] else text
  }

  /** The row after the attempt: published, or still unpublished with the error (cut to 2000 characters). */
  function Recorded(ev: Event, error: Option<string>, now: int): Event {
    match error
    case None => ev.(publishedAt := Some(now), attempts := ev.attempts + 1, lastError := None)
    case Some(text) => ev.(attempts := ev.attempts + 1, lastError := Some(Cut(text)))
  }

  function MessageOf(e: Uuid, ev: Event): Message {
    Message(e, ev.kind, ev.order)
  }

  ghost function Step(cfg: Config, s: System, a: Action): System {
    match a
    case Call(inv) => s.(db := Serve(cfg, s.db, inv).db)
    case Claim(w) =>
      if w in s.busy then s else (
      match First(s.db.events, Pending(s.db.events) - Held(s.busy))
      case None => s
      case Some(e) => s.(busy := s.busy[w := Claimed(e)]))
    case Publish(w, d) =>
      if w !in s.busy || !s.busy[w].Claimed? || s.busy[w].event !in s.db.events then s else
      var e := s.busy[w].event;
      System(s.db,
             if d.Raises? then s.broker else s.broker + [MessageOf(e, s.db.events[e])],
             s.busy[w := Returned(e, if d.Delivers? then None else Some(d.error))])
    case Record(w, now) =>
      if w !in s.busy || !s.busy[w].Returned? || s.busy[w].event !in s.db.events then s else
      var e := s.busy[w].event;
      System(s.db.(events := s.db.events[e := Recorded(s.db.events[e], s.busy[w].error, now)]), s.broker, s.busy - {w})
    case Crash(w) => s.(busy := s.busy - {w})
  }

  ghost function Exec(cfg: Config, s: System, actions: seq<Action>): System
    decreases |actions|
  {
    if actions == [] then s else
    Step(cfg, Exec(cfg, s, actions[..|actions| - 1]), actions[|actions| - 1])
  }

  // ---------------------------------------------------------------- invariant

  predicate Delivered(broker: seq<Message>, e: Uuid) {
    exists i :: 0 <= i < |broker| && broker[i].event == e
  }

  ghost predicate BrokerOk(events: map<Uuid, Event>, broker: seq<Message>) {
    && (forall i :: 0 <= i < |broker| ==>
          broker[i].event in events && broker[i] == MessageOf(broker[i].event, events[broker[i].event]))
    && (forall e :: e in events && events[e].publishedAt.Some? ==> Delivered(broker, e))
  }

  ghost predicate BusyOk(events: map<Uuid, Event>, broker: seq<Message>, busy: map<nat, Work>) {
    && (forall w :: w in busy ==>
          && busy[w].event in Pending(events)
          && (busy[w].Returned? && busy[w].error.None? ==> Delivered(broker, busy[w].event)))
    && (forall v, w | v in busy && w in busy && busy[v].event == busy[w].event :: v == w)
  }

  ghost predicate SystemOk(cfg: Config, opening: map<WalletId, Wallet>, s: System) {
    && Inv(cfg, opening, s.db)
    && BrokerOk(s.db.events, s.broker)
    && BusyOk(s.db.events, s.broker, s.busy)
  }

  lemma SameReports(events: map<Uuid, Event>, e: Uuid, ev: Event, kind: EventKind, id: Uuid)
    requires e in events && ev.kind == events[e].kind && ev.order == events[e].order && HasReport(events, kind, id)
    ensures HasReport(events[e := ev], kind, id)
  {
    var f :| f in events && Reports(events[f], kind, id);
    assert Reports(events[e := ev][f], kind, id);
  }

  lemma RecordKeepsReports(orders: map<Uuid, Order>, events: map<Uuid, Event>, e: Uuid, ev: Event)
    requires OutboxAgrees(orders, events) && e in events && ev.kind == events[e].kind && ev.order == events[e].order
    ensures OutboxAgrees(orders, events[e := ev])
  {
    hide HasReport;
    forall kind, id | HasReport(events, kind, id) ensures HasReport(events[e := ev], kind, id) {
      SameReports(events, e, ev, kind, id);
    }
  }

  /** The outbox columns that a worker writes do not matter to the rest of the database. */
  lemma RecordKeepsInv(cfg: Config, opening: map<WalletId, Wallet>, db: Db, e: Uuid, error: Option<string>, now: int)
    requires Inv(cfg, opening, db) && e in db.events
    ensures Inv(cfg, opening, db.(events := db.events[e := Recorded(db.events[e], error, now)]))
  {
    hide Money, Books, ReleasesAgree, OutboxAgrees;
    RecordKeepsReports(db.orders, db.events, e, Recorded(db.events[e], error, now));
  }

  lemma DeliveredMore(broker: seq<Message>, m: Message, e: Uuid)
    requires Delivered(broker, e) || m.event == e
    ensures Delivered(broker + [m], e)
  {
    if Delivered(broker, e) {
      var i :| 0 <= i < |broker| && broker[i].event == e;
      assert (broker + [m])[i].event == e;
    } else {
      assert (broker + [m])[|broker|].event == e;
    }
  }

  lemma CallKeeps(cfg: Config, opening: map<WalletId, Wallet>, s: System, inv: Invocation)
    requires SystemOk(cfg, opening, s)
    ensures SystemOk(cfg, opening, Step(cfg, s, Call(inv)))
  {
    hide Inv, Serve, Delivered;
    ServeKeeps(cfg, opening, s.db, inv);
    ServeGrows(cfg, opening, s.db, inv);
    NewEventsUnpublished(cfg, opening, s.db, inv);
  }

  /** A call adds only unpublished events. */
  lemma NewEventsUnpublished(cfg: Config, opening: map<WalletId, Wallet>, db: Db, inv: Invocation)
    requires Inv(cfg, opening, db)
    ensures forall e :: e in Serve(cfg, db, inv).db.events && e !in db.events ==>
              && Serve(cfg, db, inv).db.events[e].publishedAt.None? && Serve(cfg, db, inv).db.events[e].attempts == 0
              && Serve(cfg, db, inv).db.events[e].lastError.None?
  {
    hide Inv, Upper, Exact, EventKey, LedgerKey;
  }

  lemma ClaimKeeps(cfg: Config, opening: map<WalletId, Wallet>, s: System, w: nat)
    requires SystemOk(cfg, opening, s)
    ensures SystemOk(cfg, opening, Step(cfg, s, Claim(w)))
  {
    hide Inv, Delivered;
  }

  lemma PublishKeeps(cfg: Config, opening: map<WalletId, Wallet>, s: System, w: nat, d: Delivery)
    requires SystemOk(cfg, opening, s)
    ensures SystemOk(cfg, opening, Step(cfg, s, Publish(w, d)))
  {
    hide Inv, Delivered;
    if w in s.busy {
      var e := s.busy[w].event;
      var m := MessageOf(e, s.db.events[e]);
      forall f: Uuid | Delivered(s.broker, f) || f == e ensures Delivered(s.broker + [m], f) {
        DeliveredMore(s.broker, m, f);
      }
    }
  }

  lemma RecordKeeps(cfg: Config, opening: map<WalletId, Wallet>, s: System, w: nat, now: int)
    requires SystemOk(cfg, opening, s)
    ensures SystemOk(cfg, opening, Step(cfg, s, Record(w, now)))
  {
    hide Inv, Delivered;
    if w in s.busy && s.busy[w].Returned? {
      RecordKeepsInv(cfg, opening, s.db, s.busy[w].event, s.busy[w].error, now);
    }
  }

  lemma CrashKeeps(cfg: Config, opening: map<WalletId, Wallet>, s: System, w: nat)
    requires SystemOk(cfg, opening, s)
    ensures SystemOk(cfg, opening, Step(cfg, s, Crash(w)))
  {
    hide Inv, Delivered;
  }

  lemma StepKeeps(cfg: Config, opening: map<WalletId, Wallet>, s: System, a: Action)
    requires SystemOk(cfg, opening, s)
    ensures SystemOk(cfg, opening, Step(cfg, s, a))
  {
    hide SystemOk, Step;
    match a
    case Call(inv) => CallKeeps(cfg, opening, s, inv);
    case Claim(w) => ClaimKeeps(cfg, opening, s, w);
    case Publish(w, d) => PublishKeeps(cfg, opening, s, w, d);
    case Record(w, now) => RecordKeeps(cfg, opening, s, w, now);
    case Crash(w) => CrashKeeps(cfg, opening, s, w);
  }

  /** The system before any call: an initial database, nothing delivered, nobody busy. */
  function Boot(db0: Db): System {
    System(db0, [], map[])
  }

  lemma {:induction false} ExecKeeps(cfg: Config, opening: map<WalletId, Wallet>, s: System, actions: seq<Action>)
    requires SystemOk(cfg, opening, s)
    ensures SystemOk(cfg, opening, Exec(cfg, s, actions))
    decreases |actions|
  {
    hide SystemOk, Step;
    if actions != [] {
      ExecKeeps(cfg, opening, s, actions[..|actions| - 1]);
      StepKeeps(cfg, opening, Exec(cfg, s, actions[..|actions| - 1]), actions[|actions| - 1]);
    }
  }

  lemma BootOk(cfg: Config, db0: Db)
    requires Initial(db0)
    ensures SystemOk(cfg, db0.wallets, Boot(db0))
  {
    hide Inv;
    InitialInv(cfg, db0);
  }

  lemma {:induction false} ExecOk(cfg: Config, db0: Db, actions: seq<Action>)
    requires Initial(db0)
    ensures SystemOk(cfg, db0.wallets, Exec(cfg, Boot(db0), actions))
  {
    hide SystemOk;
    BootOk(cfg, db0);
    ExecKeeps(cfg, db0.wallets, Boot(db0), actions);
  }

  // ---------------------------------------------------------------- at least once, without phantoms

  /** For any number of workers, crashes and publisher failures: a published event is in the broker's log, and
      every message is a committed event that reports a transition its order has made. */
  lemma {:induction false} NoLossNoPhantom(cfg: Config, db0: Db, actions: seq<Action>)
    requires Initial(db0)
    ensures var s := Exec(cfg, Boot(db0), actions);
            && (forall e :: e in s.db.events && s.db.events[e].publishedAt.Some? ==> Delivered(s.broker, e))
            && (forall i :: 0 <= i < |s.broker| ==>
                  && s.broker[i].event in s.db.events
                  && s.broker[i] == MessageOf(s.broker[i].event, s.db.events[s.broker[i].event])
                  && s.broker[i].order in s.db.orders
                  && (s.broker[i].kind == OrderCanceled ==> s.db.orders[s.broker[i].order].status == Canceled))
  {
    hide Money, Books, ReleasesAgree, Delivered, Exec;
    ExecOk(cfg, db0, actions);
  }

  /** Two messages with the same event key are copies of one event, and a transition has only one key: after
      deduplication by `event_key` each transition of each order is reported at most once. */
  lemma {:induction false} SameKeySameEvent(cfg: Config, db0: Db, actions: seq<Action>, i: nat, j: nat)
    requires Initial(db0)
    requires i < |Exec(cfg, Boot(db0), actions).broker| && j < |Exec(cfg, Boot(db0), actions).broker|
    ensures var b := Exec(cfg, Boot(db0), actions).broker;
            EventKey(b[i].kind, b[i].order) == EventKey(b[j].kind, b[j].order) <==> b[i] == b[j]
  {
    hide Money, Books, ReleasesAgree, Delivered, Exec, EventKey;
    ExecOk(cfg, db0, actions);
    var s := Exec(cfg, Boot(db0), actions);
    if EventKey(s.broker[i].kind, s.broker[i].order) == EventKey(s.broker[j].kind, s.broker[j].order) {
      EventKeyInjective(s.broker[i].kind, s.broker[i].order, s.broker[j].kind, s.broker[j].order);
      assert Reports(s.db.events[s.broker[i].event], s.broker[j].kind, s.broker[j].order);
    }
  }

  /** A consumer that skips a message whose `event_key` it has seen. */
  function Consume(broker: seq<Message>): seq<Message>
  {
    if broker == [] then [] else
    var seen := Consume(broker[..|broker| - 1]);
    var m := broker[|broker| - 1];
    if KeySeen(seen, m) then seen else seen + [m]
  }

  predicate KeySeen(c: seq<Message>, m: Message) {
    exists i :: 0 <= i < |c| && EventKey(c[i].kind, c[i].order) == EventKey(m.kind, m.order)
  }

  predicate Seen(c: seq<Message>, kind: EventKind, order: Uuid) {
    exists i :: 0 <= i < |c| && c[i].kind == kind && c[i].order == order
  }

  /** Every transition in the log is there, and none is there twice. */
  ghost predicate Deduplicated(c: seq<Message>, broker: seq<Message>) {
    && (forall i, j :: 0 <= i < j < |c| ==> c[i].kind != c[j].kind || c[i].order != c[j].order)
    && (forall i :: 0 <= i < |c| ==> c[i] in broker)
    && (forall i :: 0 <= i < |broker| ==> Seen(c, broker[i].kind, broker[i].order))
  }

  /** Deduplicating by `event_key` yields each order transition of the log exactly once. */
  lemma {:induction false} ConsumedOnce(broker: seq<Message>)
    ensures Deduplicated(Consume(broker), broker)
  {
    hide KeySeen, Deduplicated;
    if broker == [] {
      ConsumedNothing();
    } else {
      var before, m := broker[..|broker| - 1], broker[|broker| - 1];
      ConsumedOnce(before);
      ConsumeNext(before, Consume(before), m);
      assert broker == before + [m];
    }
  }

  lemma ConsumedNothing()
    ensures Deduplicated([], [])
  {
  }

  lemma ConsumeNext(before: seq<Message>, c: seq<Message>, m: Message)
    requires Deduplicated(c, before)
    ensures Deduplicated(if KeySeen(c, m) then c else c + [m], before + [m])
  {
    hide KeySeen, Seen;
    SeenNext(c, m);
  }

  /** A key is new exactly when the transition is. */
  lemma SeenNext(c: seq<Message>, m: Message)
    ensures KeySeen(c, m) <==> Seen(c, m.kind, m.order)
    ensures !KeySeen(c, m) ==> forall i :: 0 <= i < |c| ==> c[i].kind != m.kind || c[i].order != m.order
    ensures forall kind, order :: Seen(c, kind, order) ==> Seen(c + [m], kind, order)
    ensures Seen(c + [m], m.kind, m.order)
  {
    hide EventKey;
    if KeySeen(c, m) {
      var i :| 0 <= i < |c| && EventKey(c[i].kind, c[i].order) == EventKey(m.kind, m.order);
      EventKeyInjective(c[i].kind, c[i].order, m.kind, m.order);
    }
    forall kind, order | Seen(c, kind, order) ensures Seen(c + [m], kind, order) {
      var i :| 0 <= i < |c| && c[i].kind == kind && c[i].order == order;
      assert (c + [m])[i] == c[i];
    }
    assert (c + [m])[|c|] == m;
  }

  // ---------------------------------------------------------------- published for ever

  /** Events stay, keep their transition and their time stamp, and once published stay as they are. */
  ghost predicate EventsGrow(events: map<Uuid, Event>, events': map<Uuid, Event>) {
    forall e :: e in events ==>
      && e in events'
      && events'[e].kind == events[e].kind && events'[e].order == events[e].order
      && events'[e].createdAt == events[e].createdAt
      && (events[e].publishedAt.Some? ==> events'[e] == events[e])
  }

  lemma StepEventsGrow(cfg: Config, opening: map<WalletId, Wallet>, s: System, a: Action)
    requires SystemOk(cfg, opening, s)
    ensures EventsGrow(s.db.events, Step(cfg, s, a).db.events)
  {
    hide Inv, Delivered, Serve;
    if a.Call? {
      ServeGrows(cfg, opening, s.db, a.inv);
    }
  }

  /** A marked event is never claimed again and never changes: `published_at` is never unset. */
  lemma {:induction false} PublishedForEver(cfg: Config, db0: Db, actions: seq<Action>, more: seq<Action>)
    requires Initial(db0)
    ensures var s, later := Exec(cfg, Boot(db0), actions), Exec(cfg, Boot(db0), actions + more);
            && EventsGrow(s.db.events, later.db.events)
            && forall e :: e in s.db.events && s.db.events[e].publishedAt.Some? ==> e !in Held(later.busy)
  {
    hide Inv, Delivered, Step;
    ExecOk(cfg, db0, actions + more);
    EventsStay(cfg, db0, actions, more);
  }

  lemma {:induction false} EventsStay(cfg: Config, db0: Db, actions: seq<Action>, more: seq<Action>)
    requires Initial(db0)
    ensures EventsGrow(Exec(cfg, Boot(db0), actions).db.events, Exec(cfg, Boot(db0), actions + more).db.events)
    decreases |more|
  {
    hide SystemOk, Step;
    if more == [] {
      assert actions + more == actions;
    } else {
      var prefix := actions + more[..|more| - 1];
      var all := actions + more;
      assert all[..|all| - 1] == prefix;
      EventsStay(cfg, db0, actions, more[..|more| - 1]);
      ExecOk(cfg, db0, prefix);
      StepEventsGrow(cfg, db0.wallets, Exec(cfg, Boot(db0), prefix), more[|more| - 1]);
    }
  }

  /** No event is held by two workers, and a held event is unpublished. */
  lemma {:induction false} ClaimsExclude(cfg: Config, db0: Db, actions: seq<Action>, v: nat, w: nat)
    requires Initial(db0)
    requires v in Exec(cfg, Boot(db0), actions).busy && w in Exec(cfg, Boot(db0), actions).busy
    ensures var s := Exec(cfg, Boot(db0), actions);
            && s.busy[v].event in s.db.events && s.db.events[s.busy[v].event].publishedAt.None?
            && (s.busy[v].event == s.busy[w].event ==> v == w)
  {
    hide Inv, Delivered, Exec;
    ExecOk(cfg, db0, actions);
  }

  // ---------------------------------------------------------------- what a claim takes

  predicate Unheld(s: System, e: Uuid) {
    && e in s.db.events && s.db.events[e].publishedAt.None?
    && forall v :: v in s.busy ==> s.busy[v].event != e
  }

  /** Unpublished, held by nobody, and before all others like it. */
  ghost predicate NextUnheld(s: System, e: Uuid) {
    Unheld(s, e) && forall f: Uuid :: Unheld(s, f) && f != e ==> Before(s.db.events, e, f)
  }

  /** An idle worker's claim succeeds exactly when some unpublished event is not held, whatever else is held, and
      then takes the first such event. */
  lemma ClaimTakesNext(cfg: Config, s: System, w: nat)
    ensures w in s.busy ==> Step(cfg, s, Claim(w)) == s
    ensures (forall e :: !Unheld(s, e)) ==> Step(cfg, s, Claim(w)) == s
    ensures w !in s.busy ==> forall e :: NextUnheld(s, e) ==> Step(cfg, s, Claim(w)) == s.(busy := s.busy[w := Claimed(e)])
    ensures (exists e :: Unheld(s, e)) ==> exists e :: NextUnheld(s, e)
  {
    var from := Pending(s.db.events) - Held(s.busy);
    forall e: Uuid ensures e in from <==> Unheld(s, e) {
    }
    FirstFound(s.db.events, from);
    forall e | NextUnheld(s, e) ensures IsFirst(s.db.events, from, e) {
      assert forall f :: f in from && f != e ==> Before(s.db.events, e, f);
    }
    if from != {} {
      var e := First(s.db.events, from).value;
      assert IsFirst(s.db.events, from, e);
      assert NextUnheld(s, e);
    }
  }

  /** A crash loses the claim and nothing else: the event can be claimed again. */
  lemma CrashLosesTheClaim(cfg: Config, s: System, w: nat)
    ensures var s' := Step(cfg, s, Crash(w));
            && s'.db == s.db && s'.broker == s.broker && w !in s'.busy
            && forall v :: v != w ==> (v in s'.busy <==> v in s.busy) && (v in s.busy ==> s'.busy[v] == s.busy[v])
    ensures forall e | w in s.busy && e == s.busy[w].event && e in s.db.events && s.db.events[e].publishedAt.None?
                       && (forall v :: v in s.busy && v != w ==> s.busy[v].event != e) :: Unheld(Step(cfg, s, Crash(w)), e)
  {
  }

  // ---------------------------------------------------------------- what a row tells

  /** Untouched, or published without an error, or tried and failed with an error of at most 2000 characters. */
  predicate TellsAttempts(ev: Event) {
    && (ev.attempts == 0 ==> ev.publishedAt.None? && ev.lastError.None?)
    && (ev.attempts > 0 ==> (ev.publishedAt.Some? <==> ev.lastError.None?))
    && (ev.lastError.Some? ==> |ev.lastError.value| <= 2000)
  }

  lemma StepTells(cfg: Config, opening: map<WalletId, Wallet>, s: System, a: Action)
    requires SystemOk(cfg, opening, s) && forall e :: e in s.db.events ==> TellsAttempts(s.db.events[e])
    ensures var events := Step(cfg, s, a).db.events; forall e :: e in events ==> TellsAttempts(events[e])
  {
    hide Inv, Delivered, Serve, IsFirst;
    if a.Call? {
      ServeGrows(cfg, opening, s.db, a.inv);
      NewEventsUnpublished(cfg, opening, s.db, a.inv);
    }
  }

  /** In every run the columns of an outbox row tell how its delivery stands. */
  lemma {:induction false} RowsTellAttempts(cfg: Config, db0: Db, actions: seq<Action>)
    requires Initial(db0)
    ensures var events := Exec(cfg, Boot(db0), actions).db.events; forall e :: e in events ==> TellsAttempts(events[e])
    decreases |actions|
  {
    hide SystemOk, Step, TellsAttempts;
    if actions != [] {
      RowsTellAttempts(cfg, db0, actions[..|actions| - 1]);
      ExecOk(cfg, db0, actions[..|actions| - 1]);
      StepTells(cfg, db0.wallets, Exec(cfg, Boot(db0), actions[..|actions| - 1]), actions[|actions| - 1]);
    }
  }
}
