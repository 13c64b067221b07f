/** What the delivery columns of an outbox row say: every attempt is counted, and the last one is on record. */
module Attempts {
  import opened Tables
  import opened Rows
  import opened Services
  import opened Invariants
  import opened Idempotency
  import opened Relay
  import opened Drain
  import C = Composition

  /** The row shows the outcome of this attempt: the time of a success, or the first 2000 characters of the error. */
  predicate Shows(ev: Event, turn: Turn) {
    match turn.delivery
    case Delivers => ev.publishedAt == Some(turn.now) && ev.lastError == None
    case Raises(text) => ev.publishedAt == None && ev.lastError == Some(if |text| <= 2000 then text else text[..2000])
    case DeliversThenRaises(text) =>
      ev.publishedAt == None && ev.lastError == Some(if |text| <= 2000 then text else text[..2000])
  }

  /** `ev` is the row `before` after the attempts `h`: all are counted, all but the last failed, and the last one
      is shown. */
  predicate RowAfter(before: Event, h: seq<Turn>, ev: Event) {
    && ev.kind == before.kind && ev.order == before.order && ev.createdAt == before.createdAt
    && ev.attempts == before.attempts + |h|
    && (h == [] ==> ev == before)
    && (h != [] ==> Shows(ev, h[|h| - 1]))
    && (forall i :: 0 <= i < |h| - 1 ==> !h[i].delivery.Delivers?)
  }

  // ---------------------------------------------------------------- one round

  predicate Asked(ev: Event, e: Uuid, only: Option<Uuid>) {
    ev.publishedAt.None? && (only == None || only == Some(e))
  }

  /** Unpublished, the one that was asked for if one was, and before all others like it. */
  ghost predicate NextAsked(events: map<Uuid, Event>, only: Option<Uuid>, e: Uuid) {
    && e in events && Asked(events[e], e, only)
    && forall f :: f in events && f != e && Asked(events[f], f, only) ==> Before(events, e, f)
  }

  /** What a round does, completely: nothing if there is nothing to do; otherwise one attempt on the next event, and
      no other row and no other message. */
  lemma RoundEffect(o: Outbox, only: Option<Uuid>, turn: Turn)
    ensures (forall e :: e in o.events ==> !Asked(o.events[e], e, only)) ==> Round(o, only, turn) == RoundResult(o, false)
    ensures (exists e :: e in o.events && Asked(o.events[e], e, only)) ==> exists e :: NextAsked(o.events, only, e)
    ensures forall e :: NextAsked(o.events, only, e) ==>
              var after := Round(o, only, turn);
              && after.delivered == turn.delivery.Delivers?
              && after.outbox.broker == (if turn.delivery.Raises? then o.broker
                                         else o.broker + [Message(e, o.events[e].kind, o.events[e].order)])
              && (forall f :: f in after.outbox.events <==> f in o.events)
              && (forall f :: f in o.events && f != e ==> after.outbox.events[f] == o.events[f])
              && RowAfter(o.events[e], [turn], after.outbox.events[e])
  {
    var from := Eligible(o.events, only);
    FirstFound(o.events, from);
    forall e | NextAsked(o.events, only, e) ensures IsFirst(o.events, from, e) {
      assert forall f :: f in from && f != e ==> Before(o.events, e, f);
    }
    if e :| e in o.events && Asked(o.events[e], e, only) {
      assert e in from;
      assert NextAsked(o.events, only, First(o.events, from).value);
    }
  }

  /** A round that was asked for one event touches no other, sends no other, and answers True only if that event was
      unpublished and is delivered. */
  lemma RoundForOne(o: Outbox, id: Uuid, turn: Turn)
    ensures var after := Round(o, Some(id), turn);
            && (forall f :: f in after.outbox.events <==> f in o.events)
            && (forall f :: f in o.events && f != id ==> after.outbox.events[f] == o.events[f])
            && (after.outbox.broker == o.broker
                || (id in o.events && after.outbox.broker == o.broker + [Message(id, o.events[id].kind, o.events[id].order)]))
            && (after.delivered <==> id in o.events && o.events[id].publishedAt.None? && turn.delivery.Delivers?)
            && (id in o.events && o.events[id].publishedAt.None? ==> RowAfter(o.events[id], [turn], after.outbox.events[id]))
  {
    RoundEffect(o, Some(id), turn);
    if id in o.events && o.events[id].publishedAt.None? {
      assert NextAsked(o.events, Some(id), id);
    }
  }

  // ---------------------------------------------------------------- the loop

  /** The turns that the loop spends on an event. */
  function TurnsFor(queue: seq<Message>, turns: seq<Turn>, e: Uuid): seq<Turn> {
    if queue == [] || turns == [] then []
    else
      var rest := TurnsFor(if turns[0].delivery.Delivers? then queue[1..] else queue, turns[1..], e);
      if queue[0].event == e then [turns[0]] + rest else rest
  }

  lemma {:induction false} NotQueued(queue: seq<Message>, turns: seq<Turn>, e: Uuid)
    requires forall i :: 0 <= i < |queue| ==> queue[i].event != e
    ensures TurnsFor(queue, turns, e) == []
    decreases |turns|
  {
    if queue != [] && turns != [] {
      NotQueued(if turns[0].delivery.Delivers? then queue[1..] else queue, turns[1..], e);
    }
  }

  lemma {:induction false} PublishedNotQueued(events: map<Uuid, Event>, turns: seq<Turn>, e: Uuid)
    requires e !in Pending(events)
    ensures TurnsFor(Queue(events), turns, e) == []
  {
    hide TurnsFor;
    SortedLists(events, Pending(events));
    NotQueued(Queue(events), turns, e);
  }

  lemma OneMoreAttempt(before: Event, turn: Turn, mid: Event, h: seq<Turn>, ev: Event)
    requires RowAfter(before, [turn], mid) && RowAfter(mid, h, ev) && (turn.delivery.Delivers? ==> h == [])
    ensures RowAfter(before, [turn] + h, ev)
  {
  }

  /** The loop records every turn on the event it was spent on. */
  lemma {:induction false} LoopRecordsTurns(o: Outbox, turns: seq<Turn>, e: Uuid)
    requires e in o.events
    ensures e in Rounds(o, turns).events
    ensures RowAfter(o.events[e], TurnsFor(Queue(o.events), turns, e), Rounds(o, turns).events[e])
    decreases |turns|
  {
    hide Round, Queue, RowAfter, Before;
    if turns == [] {
      NoAttempt(o.events[e]);
    } else {
      var next := Round(o, None, turns[0]).outbox;
      RoundServes(o, turns[0]);
      RoundOnHead(o, turns[0], e);
      LoopRecordsTurns(next, turns[1..], e);
      var q := Queue(o.events);
      if q != [] && q[0].event == e {
        var h := TurnsFor(Queue(next.events), turns[1..], e);
        if turns[0].delivery.Delivers? {
          NowPublished(o.events[e], turns[0], next.events, e);
          PublishedNotQueued(next.events, turns[1..], e);
        }
        OneMoreAttempt(o.events[e], turns[0], next.events[e], h, Rounds(next, turns[1..]).events[e]);
      }
    }
  }

  lemma NoAttempt(ev: Event)
    ensures RowAfter(ev, [], ev)
  {
  }

  lemma NowPublished(before: Event, turn: Turn, events: map<Uuid, Event>, e: Uuid)
    requires e in events && turn.delivery.Delivers? && RowAfter(before, [turn], events[e])
    ensures e !in Pending(events)
  {
  }

  /** A round works on the head of the queue. */
  lemma RoundOnHead(o: Outbox, turn: Turn, e: Uuid)
    requires e in o.events
    ensures var q, next := Queue(o.events), Round(o, None, turn).outbox;
            && e in next.events
            && (if q != [] && q[0].event == e then RowAfter(o.events[e], [turn], next.events[e])
                else next.events[e] == o.events[e])
  {
    hide Before, Sorted, RowAfter;
    QueueHead(o.events);
    RoundEffect(o, None, turn);
    var pending := Pending(o.events);
    assert pending == Eligible(o.events, None);
    if pending == {} {
      assert forall f :: f in o.events ==> !Asked(o.events[f], f, None) by {
        forall f | f in o.events ensures !Asked(o.events[f], f, None) {
          assert f !in pending;
        }
      }
    } else {
      HeadIsNext(o.events);
    }
  }

  lemma HeadIsNext(events: map<Uuid, Event>)
    requires Pending(events) != {}
    ensures First(events, Pending(events)).Some? && NextAsked(events, None, First(events, Pending(events)).value)
  {
    FirstFound(events, Pending(events));
  }

  // ---------------------------------------------------------------- any number of workers

  /** What the publishers have done for the workers: the delivery of each worker's last publication. */
  ghost function Handed(cfg: Config, db0: Db, actions: seq<Action>): map<nat, Delivery>
    decreases |actions|
  {
    if actions == [] then map[] else
    var before, a := actions[..|actions| - 1], actions[|actions| - 1];
    var busy := Exec(cfg, Boot(db0), before).busy;
    if a.Publish? && a.worker in busy && busy[a.worker].Claimed?
    then Handed(cfg, db0, before)[a.worker := a.delivery] else Handed(cfg, db0, before)
  }

  /** The attempts on an event that reached their commit: what the publisher did, and the clock. */
  ghost function History(cfg: Config, db0: Db, actions: seq<Action>, e: Uuid): seq<Turn>
    decreases |actions|
  {
    if actions == [] then [] else
    var before, a := actions[..|actions| - 1], actions[|actions| - 1];
    var busy, handed := Exec(cfg, Boot(db0), before).busy, Handed(cfg, db0, before);
    if a.Record? && a.worker in busy && busy[a.worker].Returned? && busy[a.worker].event == e && a.worker in handed
    then History(cfg, db0, before, e) + [Turn(handed[a.worker], a.now)] else History(cfg, db0, before, e)
  }

  /** The error that the publisher raised, if it did. */
  function Raised(delivery: Delivery): Option<string> {
    match delivery
    case Delivers => None
    case Raises(text) => Some(text)
    case DeliversThenRaises(text) => Some(text)
  }

  /** A worker whose publisher has returned holds the error that the publisher raised, if it did. */
  ghost predicate HandedOk(busy: map<nat, Work>, handed: map<nat, Delivery>) {
    forall w :: w in busy && busy[w].Returned? ==>
      && w in handed
      && busy[w].error == Raised(handed[w])
  }

  lemma {:induction false} HandedStep(cfg: Config, db0: Db, actions: seq<Action>)
    requires actions != [] && HandedOk(Exec(cfg, Boot(db0), actions[..|actions| - 1]).busy, Handed(cfg, db0, actions[..|actions| - 1]))
    ensures HandedOk(Exec(cfg, Boot(db0), actions).busy, Handed(cfg, db0, actions))
  {
    hide First, Serve;
    var before, a := actions[..|actions| - 1], actions[|actions| - 1];
    assert Exec(cfg, Boot(db0), actions) == Step(cfg, Exec(cfg, Boot(db0), before), a);
  }

  lemma {:induction false} HandedAlways(cfg: Config, db0: Db, actions: seq<Action>)
    ensures HandedOk(Exec(cfg, Boot(db0), actions).busy, Handed(cfg, db0, actions))
    decreases |actions|
  {
    if actions != [] {
      hide HandedOk, Exec, Handed;
      HandedAlways(cfg, db0, actions[..|actions| - 1]);
      HandedStep(cfg, db0, actions);
    }
  }

  /** The row as its call committed it. */
  function Fresh(ev: Event): Event {
    Event(ev.kind, ev.order, ev.createdAt, None, 0, None)
  }

  lemma AppendAttempt(ev: Event, h: seq<Turn>, turn: Turn, error: Option<string>)
    requires RowAfter(Fresh(ev), h, ev) && ev.publishedAt.None?
    requires error == Raised(turn.delivery)
    ensures RowAfter(Fresh(Recorded(ev, error, turn.now)), h + [turn], Recorded(ev, error, turn.now))
  {
  }

  /** Every attempt counts.  In every run, with any number of workers, crashes and failures: the attempts of an
      event are exactly the recorded ones, all but the last failed, and the row shows the last one: the clock of its
      recording if the publisher returned, the first 2000 characters of its error if it raised. */
  lemma {:induction false} AttemptsCounted(cfg: Config, db0: Db, actions: seq<Action>, e: Uuid)
    requires Initial(db0)
    ensures var events := Exec(cfg, Boot(db0), actions).db.events;
            var h := History(cfg, db0, actions, e);
            if e in events then RowAfter(Fresh(events[e]), h, events[e]) else h == []
    decreases |actions|
  {
    if actions == [] {
    } else {
      hide Exec, Handed, History, RowAfter, SystemOk, HandedOk;
      var before := actions[..|actions| - 1];
      AttemptsCounted(cfg, db0, before, e);
      ExecOk(cfg, db0, before);
      HandedAlways(cfg, db0, before);
      CountStep(cfg, db0, actions, e);
    }
  }

  lemma {:induction false} CountStep(cfg: Config, db0: Db, actions: seq<Action>, e: Uuid)
    requires actions != []
    requires var before := actions[..|actions| - 1];
             var s, h := Exec(cfg, Boot(db0), before), History(cfg, db0, before, e);
             && SystemOk(cfg, db0.wallets, s) && HandedOk(s.busy, Handed(cfg, db0, before))
             && (if e in s.db.events then RowAfter(Fresh(s.db.events[e]), h, s.db.events[e]) else h == [])
    ensures var events := Exec(cfg, Boot(db0), actions).db.events;
            var h := History(cfg, db0, actions, e);
            if e in events then RowAfter(Fresh(events[e]), h, events[e]) else h == []
  {
    hide Inv, RowAfter, Recorded, Fresh, First, BrokerOk, Serve;
    var before, a := actions[..|actions| - 1], actions[|actions| - 1];
    var s := Exec(cfg, Boot(db0), before);
    assert Exec(cfg, Boot(db0), actions) == Step(cfg, s, a);
    match a
    case Call(inv) =>
      ServeGrows(cfg, db0.wallets, s.db, inv);
      NewEventsUnpublished(cfg, db0.wallets, s.db, inv);
      if e in Serve(cfg, s.db, inv).db.events && e !in s.db.events {
        NewRow(Serve(cfg, s.db, inv).db.events[e]);
      }
    case Record(w, now) =>
      if w in s.busy && s.busy[w].Returned? && s.busy[w].event == e {
        AppendAttempt(s.db.events[e], History(cfg, db0, before, e), Turn(Handed(cfg, db0, before)[w], now), s.busy[w].error);
      }
    case _ =>
  }

  lemma NewRow(ev: Event)
    requires ev.publishedAt.None? && ev.attempts == 0 && ev.lastError.None?
    ensures RowAfter(Fresh(ev), [], ev)
  {
  }

  /** The same beside interleaved transactions. */
  lemma {:induction false} AttemptsCountedAmongTransactions(cfg: Config, db0: Db, moves: seq<C.Move>, e: Uuid)
    requires Initial(db0) && e in C.Exec(cfg, db0, moves).db.events
    ensures var s := C.Exec(cfg, db0, moves);
            RowAfter(Fresh(s.db.events[e]), History(cfg, db0, s.trace, e), s.db.events[e])
  {
    hide C.Exec, Exec, History, RowAfter, C.CallsDone;
    C.RunsAreRelayRuns(cfg, db0, moves);
    var s := C.Exec(cfg, db0, moves);
    assert C.Outside(s).db == s.db;
    AttemptsCounted(cfg, db0, s.trace, e);
  }
}
