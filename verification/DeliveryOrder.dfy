/** In which order, and how often, the relay delivers. */
module DeliveryOrder {
  import opened Tables
  import opened Rows
  import opened Services
  import opened Invariants
  import opened Idempotency
  import opened Relay

  // ---------------------------------------------------------------- exactly once when nothing fails

  predicate Smooth(a: Action) {
    !a.Crash? && (a.Publish? ==> a.delivery.Delivers?)
  }

  function Copies(broker: seq<Message>, e: Uuid): nat
  {
    if broker == [] then 0 else
    Copies(broker[..|broker| - 1], e) + (if broker[|broker| - 1].event == e then 1 else 0)
  }

  lemma {:induction false} CopiesMore(broker: seq<Message>, m: Message, e: Uuid)
    ensures Copies(broker + [m], e) == Copies(broker, e) + (if m.event == e then 1 else 0)
  {
    assert (broker + [m])[..|broker|] == broker;
  }

  lemma {:induction false} NoCopies(broker: seq<Message>, e: Uuid)
    requires forall i :: 0 <= i < |broker| ==> broker[i].event != e
    ensures Copies(broker, e) == 0
  {
    if broker != [] {
      NoCopies(broker[..|broker| - 1], e);
    }
  }

  /** A worker has delivered the event and not yet recorded it. */
  ghost predicate InDelivery(busy: map<nat, Work>, e: Uuid) {
    exists w :: w in busy && busy[w] == Returned(e, None)
  }

  ghost predicate SmoothAt(ev: Event, e: Uuid, copies: nat, busy: map<nat, Work>) {
    && ev.attempts == (if ev.publishedAt.Some? then 1 else 0)
    && copies == (if ev.publishedAt.Some? || InDelivery(busy, e) then 1 else 0)
  }

  ghost predicate SmoothOk(s: System) {
    && (forall e :: e in s.db.events ==> SmoothAt(s.db.events[e], e, Copies(s.broker, e), s.busy))
    && (forall w :: w in s.busy && s.busy[w].Returned? ==> s.busy[w].error.None?)
  }

  lemma SmoothCall(cfg: Config, opening: map<WalletId, Wallet>, s: System, inv: Invocation)
    requires SystemOk(cfg, opening, s) && SmoothOk(s)
    ensures SmoothOk(Step(cfg, s, Call(inv)))
  {
    hide Inv, Serve, Delivered, Copies;
    ServeGrows(cfg, opening, s.db, inv);
    NewEventsUnpublished(cfg, opening, s.db, inv);
    var s' := Step(cfg, s, Call(inv));
    forall e | e in s'.db.events ensures SmoothAt(s'.db.events[e], e, Copies(s.broker, e), s.busy) {
      if e !in s.db.events {
        NoCopies(s.broker, e);
      }
    }
  }

  lemma SmoothClaim(cfg: Config, opening: map<WalletId, Wallet>, s: System, w: nat)
    requires SystemOk(cfg, opening, s) && SmoothOk(s)
    ensures SmoothOk(Step(cfg, s, Claim(w)))
  {
    hide Inv, Delivered, Copies, IsFirst;
    var s' := Step(cfg, s, Claim(w));
    forall e: Uuid ensures InDelivery(s'.busy, e) <==> InDelivery(s.busy, e) {
      if InDelivery(s.busy, e) {
        var v :| v in s.busy && s.busy[v] == Returned(e, None);
        assert s'.busy[v] == Returned(e, None);
      }
    }
  }

  lemma SmoothPublish(cfg: Config, opening: map<WalletId, Wallet>, s: System, w: nat)
    requires SystemOk(cfg, opening, s) && SmoothOk(s)
    ensures SmoothOk(Step(cfg, s, Publish(w, Delivers)))
  {
    hide Inv, Delivered, Copies;
    var s' := Step(cfg, s, Publish(w, Delivers));
    if w in s.busy && s.busy[w].Claimed? {
      var x := s.busy[w].event;
      forall e: Uuid ensures InDelivery(s'.busy, e) <==> InDelivery(s.busy, e) || e == x {
        if InDelivery(s.busy, e) {
          var v :| v in s.busy && s.busy[v] == Returned(e, None);
          assert s'.busy[v] == Returned(e, None);
        }
        assert s'.busy[w] == Returned(x, None);
      }
      forall e | e in s.db.events ensures SmoothAt(s'.db.events[e], e, Copies(s'.broker, e), s'.busy) {
        CopiesMore(s.broker, MessageOf(x, s.db.events[x]), e);
      }
    }
  }

  lemma SmoothRecord(cfg: Config, opening: map<WalletId, Wallet>, s: System, w: nat, now: int)
    requires SystemOk(cfg, opening, s) && SmoothOk(s)
    ensures SmoothOk(Step(cfg, s, Record(w, now)))
  {
    hide Inv, Delivered, Copies;
    var s' := Step(cfg, s, Record(w, now));
    if w in s.busy && s.busy[w].Returned? {
      var x := s.busy[w].event;
      forall e: Uuid ensures InDelivery(s'.busy, e) <==> InDelivery(s.busy, e) && e != x {
        if InDelivery(s.busy, e) && e != x {
          var v :| v in s.busy && s.busy[v] == Returned(e, None);
          assert s'.busy[v] == Returned(e, None);
        }
      }
      assert InDelivery(s.busy, x);
      forall e | e in s'.db.events ensures SmoothAt(s'.db.events[e], e, Copies(s'.broker, e), s'.busy) {
        assert SmoothAt(s.db.events[e], e, Copies(s.broker, e), s.busy);
      }
    }
  }

  lemma {:induction false} SmoothRun(cfg: Config, db0: Db, actions: seq<Action>)
    requires Initial(db0) && forall i :: 0 <= i < |actions| ==> Smooth(actions[i])
    ensures SmoothOk(Exec(cfg, Boot(db0), actions))
    decreases |actions|
  {
    if actions == [] {
    } else {
      hide SystemOk, SmoothOk, Step;
      var before := actions[..|actions| - 1];
      SmoothRun(cfg, db0, before);
      ExecOk(cfg, db0, before);
      var s := Exec(cfg, Boot(db0), before);
      match actions[|actions| - 1]
      case Call(inv) => SmoothCall(cfg, db0.wallets, s, inv);
      case Claim(w) => SmoothClaim(cfg, db0.wallets, s, w);
      case Publish(w, d) => SmoothPublish(cfg, db0.wallets, s, w);
      case Record(w, now) => SmoothRecord(cfg, db0.wallets, s, w, now);
    }
  }

  /** With any number of workers, if nobody crashes and no publisher raises, a published event is in the log
      exactly once, after exactly one attempt, and an event that nobody is delivering is not in the log. */
  lemma {:induction false} ExactlyOnce(cfg: Config, db0: Db, actions: seq<Action>, e: Uuid)
    requires Initial(db0) && forall i :: 0 <= i < |actions| ==> Smooth(actions[i])
    requires e in Exec(cfg, Boot(db0), actions).db.events
    ensures var s := Exec(cfg, Boot(db0), actions);
            && (s.db.events[e].publishedAt.Some? ==> Copies(s.broker, e) == 1 && s.db.events[e].attempts == 1)
            && (s.db.events[e].publishedAt.None? ==> s.db.events[e].attempts == 0)
            && (s.db.events[e].publishedAt.None? && e !in Held(s.busy) ==> Copies(s.broker, e) == 0)
  {
    hide Exec, Copies;
    SmoothRun(cfg, db0, actions);
  }

  // ---------------------------------------------------------------- created before canceled

  /** The cancellation of an order is stamped after its creation. */
  ghost predicate Stamped(events: map<Uuid, Event>) {
    forall c, x | c in events && x in events
      && events[c].kind == OrderCreated && events[x].kind == OrderCanceled && events[c].order == events[x].order ::
      Before(events, c, x)
  }

  predicate CreatedIn(broker: seq<Message>, n: nat, order: Uuid)
    requires n <= |broker|
  {
    exists i :: 0 <= i < n && broker[i].kind == OrderCreated && broker[i].order == order
  }

  /** No copy of `order.canceled` precedes every copy of the order's `order.created`. */
  ghost predicate InOrder(broker: seq<Message>) {
    forall j :: 0 <= j < |broker| && broker[j].kind == OrderCanceled ==> CreatedIn(broker, j, broker[j].order)
  }

  /** At most one worker acts. */
  predicate Solo(a: Action, w: nat) {
    a.Call? || a.worker == w
  }

  ghost predicate SoloOk(s: System, w: nat) {
    && InOrder(s.broker)
    && (forall v :: v in s.busy ==> v == w)
    && (forall v :: v in s.busy && s.busy[v].event in s.db.events && s.db.events[s.busy[v].event].kind == OrderCanceled ==>
          CreatedIn(s.broker, |s.broker|, s.db.events[s.busy[v].event].order))
  }

  /** When one worker claims a cancellation, the creation has been delivered. */
  lemma ClaimAfterCreation(cfg: Config, opening: map<WalletId, Wallet>, s: System, e: Uuid)
    requires SystemOk(cfg, opening, s) && Stamped(s.db.events)
    requires IsFirst(s.db.events, Pending(s.db.events), e) && s.db.events[e].kind == OrderCanceled
    ensures CreatedIn(s.broker, |s.broker|, s.db.events[e].order)
  {
    hide Money, Books, ReleasesAgree;
    var events := s.db.events;
    assert HasReport(events, OrderCreated, events[e].order);
    var c :| c in events && Reports(events[c], OrderCreated, events[e].order);
    assert Before(events, c, e);
    assert c !in Pending(events);
    assert Delivered(s.broker, c);
    var i :| 0 <= i < |s.broker| && s.broker[i].event == c;
    assert s.broker[i] == MessageOf(c, events[c]);
  }

  lemma InOrderMore(broker: seq<Message>, m: Message)
    requires InOrder(broker) && (m.kind == OrderCanceled ==> CreatedIn(broker, |broker|, m.order))
    ensures InOrder(broker + [m])
    ensures forall order :: CreatedIn(broker, |broker|, order) ==> CreatedIn(broker + [m], |broker| + 1, order)
  {
    forall j, order | 0 <= j <= |broker| && CreatedIn(broker, j, order)
      ensures CreatedIn(broker + [m], j, order) && CreatedIn(broker + [m], |broker| + 1, order)
    {
      var i :| 0 <= i < j && broker[i].kind == OrderCreated && broker[i].order == order;
      assert (broker + [m])[i] == broker[i];
    }
    forall j | 0 <= j < |broker + [m]| && (broker + [m])[j].kind == OrderCanceled
      ensures CreatedIn(broker + [m], j, (broker + [m])[j].order)
    {
      if j < |broker| {
        assert (broker + [m])[j] == broker[j];
        assert CreatedIn(broker, j, broker[j].order);
      }
    }
  }

  lemma SoloStep(cfg: Config, opening: map<WalletId, Wallet>, s: System, a: Action, w: nat)
    requires SystemOk(cfg, opening, s) && Stamped(s.db.events) && SoloOk(s, w) && Solo(a, w)
    ensures SoloOk(Step(cfg, s, a), w)
  {
    hide Inv, Serve, InOrder, CreatedIn, Delivered;
    match a
    case Call(inv) =>
      ServeGrows(cfg, opening, s.db, inv);
    case Claim(v) =>
      if v !in s.busy {
        assert Pending(s.db.events) - Held(s.busy) == Pending(s.db.events);
        var f := First(s.db.events, Pending(s.db.events));
        if f.Some? && s.db.events[f.value].kind == OrderCanceled {
          ClaimAfterCreation(cfg, opening, s, f.value);
        }
      }
    case Publish(v, d) =>
      if v in s.busy && s.busy[v].Claimed? && !d.Raises? {
        InOrderMore(s.broker, MessageOf(s.busy[v].event, s.db.events[s.busy[v].event]));
      }
    case Record(v, now) =>
    case Crash(v) =>
  }

  lemma StampedBefore(events: map<Uuid, Event>, events': map<Uuid, Event>)
    requires EventsGrow(events, events') && Stamped(events')
    ensures Stamped(events)
  {
    forall c, x | c in events && x in events
      && events[c].kind == OrderCreated && events[x].kind == OrderCanceled && events[c].order == events[x].order
      ensures Before(events, c, x)
    {
      assert Before(events', c, x);
    }
  }

  /** One live worker, any failures, crashes and retries: if every cancellation is stamped after its creation,
      the first copy of an order's `order.canceled` always follows a copy of its `order.created`. */
  lemma {:induction false} CreatedFirst(cfg: Config, db0: Db, actions: seq<Action>, w: nat)
    requires Initial(db0) && forall i :: 0 <= i < |actions| ==> Solo(actions[i], w)
    requires Stamped(Exec(cfg, Boot(db0), actions).db.events)
    ensures SoloOk(Exec(cfg, Boot(db0), actions), w)
    ensures InOrder(Exec(cfg, Boot(db0), actions).broker)
    decreases |actions|
  {
    hide SystemOk, Step, Stamped;
    if actions != [] {
      var before, a := actions[..|actions| - 1], actions[|actions| - 1];
      var s := Exec(cfg, Boot(db0), before);
      ExecOk(cfg, db0, before);
      StepEventsGrow(cfg, db0.wallets, s, a);
      StampedBefore(s.db.events, Step(cfg, s, a).db.events);
      CreatedFirst(cfg, db0, before, w);
      SoloStep(cfg, db0.wallets, s, a, w);
    }
  }
}
