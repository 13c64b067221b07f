/** One relay worker on its own: the loop serves the outbox as a queue in (created_at, id) order. */
module Drain {
  import opened Tables
  import opened Rows
  import opened Services
  import opened Invariants
  import opened Runs
  import opened Idempotency
  import opened Relay
  import opened DeliveryOrder

  // ---------------------------------------------------------------- sorting

  ghost function Sorted(events: map<Uuid, Event>, from: set<Uuid>): seq<Uuid>
    decreases |from|
  {
    match First(events, from)
    case None => []
    case Some(e) => [e] + Sorted(events, from - {e})
  }

  ghost predicate Ordered(events: map<Uuid, Event>, s: seq<Uuid>) {
    && (forall i :: 0 <= i < |s| ==> s[i] in events)
    && (forall i, j :: 0 <= i < j < |s| ==> Before(events, s[i], s[j]))
  }

  ghost predicate Lists(s: seq<Uuid>, from: set<Uuid>) {
    |s| == |from| && forall e: Uuid :: e in s <==> e in from
  }

  /** Sorted lists exactly the set, each event once and in order. */
  lemma {:induction false} SortedLists(events: map<Uuid, Event>, from: set<Uuid>)
    requires forall e :: e in from ==> e in events
    ensures Ordered(events, Sorted(events, from)) && Lists(Sorted(events, from), from)
    decreases |from|
  {
    FirstFound(events, from);
    if from != {} {
      var e := First(events, from).value;
      var rest := Sorted(events, from - {e});
      SortedLists(events, from - {e});
      assert from == (from - {e}) + {e};
      forall i | 0 <= i < |rest| ensures Before(events, e, rest[i]) {
        assert rest[i] in from - {e};
      }
    }
  }

  /** No other list does. */
  lemma {:induction false} SortedUnique(events: map<Uuid, Event>, from: set<Uuid>, s: seq<Uuid>)
    requires Ordered(events, s) && Lists(s, from)
    ensures s == Sorted(events, from)
    decreases |s|
  {
    hide Ordered, Lists, IsFirst;
    HeadIsFirst(events, from, s);
    if s != [] {
      TailLists(events, from, s);
      SortedUnique(events, from - {s[0]}, s[1..]);
      assert s == [s[0]] + s[1..];
    }
  }

  lemma HeadIsFirst(events: map<Uuid, Event>, from: set<Uuid>, s: seq<Uuid>)
    requires Ordered(events, s) && Lists(s, from)
    ensures First(events, from) == if s == [] then None else Some(s[0])
    ensures s != [] ==> s[0] in from
  {
    if s != [] {
      forall f | f in from && f in events ensures !Before(events, f, s[0]) {
        var i :| 0 <= i < |s| && s[i] == f;
      }
      FirstFound(events, from);
      assert IsFirst(events, from, s[0]);
    }
  }

  lemma TailLists(events: map<Uuid, Event>, from: set<Uuid>, s: seq<Uuid>)
    requires Ordered(events, s) && Lists(s, from) && s != []
    ensures Ordered(events, s[1..]) && Lists(s[1..], from - {s[0]})
  {
    assert s[0] in from;
    forall e: Uuid ensures e in s[1..] <==> e in from - {s[0]} {
      if e in s[1..] {
        var i :| 0 <= i < |s[1..]| && s[1..][i] == e;
        assert s[i + 1] == e;
        assert Before(events, s[0], s[i + 1]);
      }
    }
  }

  /** The order depends only on the time stamps. */
  lemma {:induction false} SortedSame(events: map<Uuid, Event>, events': map<Uuid, Event>, from: set<Uuid>)
    requires forall e :: e in from ==> e in events && e in events' && events[e].createdAt == events'[e].createdAt
    ensures Sorted(events', from) == Sorted(events, from)
  {
    SortedLists(events, from);
    SortedUnique(events', from, Sorted(events, from));
  }

  // ---------------------------------------------------------------- one round and many

  /** What the publisher does in a round, and the clock when it returns. */
  datatype Turn = Turn(delivery: Delivery, now: int)

  datatype Outbox = Outbox(events: map<Uuid, Event>, broker: seq<Message>)

  datatype RoundResult = RoundResult(outbox: Outbox, delivered: bool)

  /** The unpublished events, or the one that was asked for if it is unpublished. */
  ghost function Eligible(events: map<Uuid, Event>, only: Option<Uuid>): set<Uuid> {
    set e | e in events && events[e].publishedAt.None? && (only.None? || only == Some(e))
  }

  /** Claim, publish and record, undisturbed. */
  ghost function Round(o: Outbox, only: Option<Uuid>, turn: Turn): RoundResult {
    match First(o.events, Eligible(o.events, only))
    case None => RoundResult(o, false)
    case Some(e) =>
      var ev := o.events[e];
      var error := if turn.delivery.Delivers? then None else Some(turn.delivery.error);
      RoundResult(
        Outbox(o.events[e := Recorded(ev, error, turn.now)],
               if turn.delivery.Raises? then o.broker else o.broker + [MessageOf(e, ev)]),
        turn.delivery.Delivers?)
  }

  /** A round is what the three steps of a worker do when the others are idle. */
  lemma RoundIsSteps(cfg: Config, s: System, w: nat, turn: Turn)
    requires s.busy == map[]
    ensures var s' := Step(cfg, Step(cfg, Step(cfg, s, Claim(w)), Publish(w, turn.delivery)), Record(w, turn.now));
            var o' := Round(Outbox(s.db.events, s.broker), None, turn).outbox;
            s' == System(s.db.(events := o'.events), o'.broker, map[])
  {
    assert Pending(s.db.events) - Held(s.busy) == Eligible(s.db.events, None);
    var first := First(s.db.events, Eligible(s.db.events, None));
    if first.Some? {
      assert s.busy[w := Claimed(first.value)] - {w} == map[];
    }
  }

  /** The worker's loop, for as many rounds as there are turns. */
  ghost function Rounds(o: Outbox, turns: seq<Turn>): Outbox
    decreases |turns|
  {
    if turns == [] then o else Rounds(Round(o, None, turns[0]).outbox, turns[1..])
  }

  ghost function Answers(o: Outbox, turns: seq<Turn>): seq<bool>
    decreases |turns|
  {
    if turns == [] then [] else
    [Round(o, None, turns[0]).delivered] + Answers(Round(o, None, turns[0]).outbox, turns[1..])
  }

  function RoundActions(w: nat, turn: Turn): seq<Action> {
    [Claim(w), Publish(w, turn.delivery), Record(w, turn.now)]
  }

  function LoopActions(w: nat, turns: seq<Turn>): seq<Action> {
    if turns == [] then [] else RoundActions(w, turns[0]) + LoopActions(w, turns[1..])
  }

  lemma {:induction false} ExecConcat(cfg: Config, s: System, a: seq<Action>, b: seq<Action>)
    ensures Exec(cfg, s, a + b) == Exec(cfg, Exec(cfg, s, a), b)
    decreases |b|
  {
    hide Step;
    if b == [] {
      assert a + b == a;
    } else {
      ExecConcat(cfg, s, a, b[..|b| - 1]);
      assert (a + b)[..|a + b| - 1] == a + b[..|b| - 1];
    }
  }

  lemma {:induction false} ExecRound(cfg: Config, s: System, w: nat, turn: Turn)
    ensures Exec(cfg, s, RoundActions(w, turn))
         == Step(cfg, Step(cfg, Step(cfg, s, Claim(w)), Publish(w, turn.delivery)), Record(w, turn.now))
  {
    hide Step;
    var all := RoundActions(w, turn);
    assert all[..2][..1] == all[..1] && all[..1][..0] == [];
    assert Exec(cfg, s, all[..1]) == Step(cfg, s, Claim(w));
    assert Exec(cfg, s, all[..2]) == Step(cfg, Exec(cfg, s, all[..1]), all[1]);
  }

  /** The loop is the run of the relay machine in which one worker acts alone. */
  lemma {:induction false} LoopIsRelay(cfg: Config, s: System, w: nat, turns: seq<Turn>)
    requires s.busy == map[]
    ensures var o := Rounds(Outbox(s.db.events, s.broker), turns);
            Exec(cfg, s, LoopActions(w, turns)) == System(s.db.(events := o.events), o.broker, map[])
    decreases |turns|
  {
    hide Step, Round;
    if turns != [] {
      ExecConcat(cfg, s, RoundActions(w, turns[0]), LoopActions(w, turns[1..]));
      ExecRound(cfg, s, w, turns[0]);
      RoundIsSteps(cfg, s, w, turns[0]);
      LoopIsRelay(cfg, Exec(cfg, s, RoundActions(w, turns[0])), w, turns[1..]);
    }
  }

  // ---------------------------------------------------------------- the queue

  function QueueLog(queue: seq<Message>, turns: seq<Turn>): seq<Message> {
    if queue == [] || turns == [] then []
    else match turns[0].delivery
      case Delivers => [queue[0]] + QueueLog(queue[1..], turns[1..])
      case Raises(_) => QueueLog(queue, turns[1..])
      case DeliversThenRaises(_) => [queue[0]] + QueueLog(queue, turns[1..])
  }

  function QueueAnswers(queue: seq<Message>, turns: seq<Turn>): seq<bool> {
    if turns == [] then []
    else if queue != [] && turns[0].delivery.Delivers? then [true] + QueueAnswers(queue[1..], turns[1..])
    else [false] + QueueAnswers(queue, turns[1..])
  }

  function QueueLeft(queue: seq<Message>, turns: seq<Turn>): seq<Message> {
    if turns == [] then queue
    else if queue != [] && turns[0].delivery.Delivers? then QueueLeft(queue[1..], turns[1..])
    else QueueLeft(queue, turns[1..])
  }

  /** The unpublished events in the order of the loop. */
  ghost function Queue(events: map<Uuid, Event>): seq<Message> {
    Messages(events, Sorted(events, Pending(events)))
  }

  function Messages(events: map<Uuid, Event>, ids: seq<Uuid>): (r: seq<Message>)
    ensures |r| == |ids|
    ensures forall i :: 0 <= i < |ids| && ids[i] in events ==> r[i] == MessageOf(ids[i], events[ids[i]])
  {
    seq(|ids|, i requires 0 <= i < |ids| =>
      if ids[i] in events then MessageOf(ids[i], events[ids[i]]) else Message(ids[i], OrderCreated, 0))
  }

  /** One round takes the head of the queue, or leaves it there to be tried again. */
  lemma RoundServes(o: Outbox, turn: Turn)
    ensures var q := Queue(o.events);
            var after := Round(o, None, turn);
            if q == [] then after == RoundResult(o, false)
            else && after.delivered == turn.delivery.Delivers?
                 && after.outbox.broker == (if turn.delivery.Raises? then o.broker else o.broker + [q[0]])
                 && Queue(after.outbox.events) == (if turn.delivery.Delivers? then q[1..] else q)
  {
    hide Messages, Sorted, Recorded;
    var pending := Pending(o.events);
    assert pending == Eligible(o.events, None);
    QueueHead(o.events);
    if pending != {} {
      RecordedQueue(o.events, First(o.events, pending).value,
                    if turn.delivery.Delivers? then None else Some(turn.delivery.error), turn.now);
    }
  }

  lemma {:induction false} QueueHead(events: map<Uuid, Event>)
    ensures var q, first := Queue(events), First(events, Pending(events));
            if Pending(events) == {} then first == None && q == []
            else && first.Some? && first.value in events && events[first.value].publishedAt.None?
                 && q == [MessageOf(first.value, events[first.value])]
                         + Messages(events, Sorted(events, Pending(events) - {first.value}))
  {
    hide Before;
    var pending := Pending(events);
    FirstFound(events, pending);
    if pending != {} {
      var e := First(events, pending).value;
      assert e in events;
      assert Sorted(events, pending) == [e] + Sorted(events, pending - {e});
    }
  }

  /** What recording an attempt does to the queue. */
  lemma {:induction false} RecordedQueue(events: map<Uuid, Event>, e: Uuid, error: Option<string>, now: int)
    requires e in events && events[e].publishedAt.None?
    ensures Queue(events[e := Recorded(events[e], error, now)])
         == if error.Some? then Queue(events) else Messages(events, Sorted(events, Pending(events) - {e}))
  {
    hide Sorted, Before;
    var events' := events[e := Recorded(events[e], error, now)];
    var left := if error.Some? then Pending(events) else Pending(events) - {e};
    assert Pending(events') == left;
    SortedSame(events, events', left);
    SortedLists(events, left);
    SameMessages(events, events', Sorted(events, left));
  }

  lemma SameMessages(events: map<Uuid, Event>, events': map<Uuid, Event>, ids: seq<Uuid>)
    requires forall i :: 0 <= i < |ids| ==>
               && ids[i] in events && ids[i] in events'
               && MessageOf(ids[i], events'[ids[i]]) == MessageOf(ids[i], events[ids[i]])
    ensures Messages(events', ids) == Messages(events, ids)
  {
  }

  /** Whatever the publisher does, the loop is a first-in first-out queue of the unpublished events sorted by
      (created_at, id): it retries the head until the publisher returns without an error. */
  lemma {:induction false} LoopIsQueue(o: Outbox, turns: seq<Turn>)
    ensures Rounds(o, turns).broker == o.broker + QueueLog(Queue(o.events), turns)
    ensures Answers(o, turns) == QueueAnswers(Queue(o.events), turns)
    ensures Queue(Rounds(o, turns).events) == QueueLeft(Queue(o.events), turns)
    decreases |turns|
  {
    hide Queue, Round;
    if turns != [] {
      RoundServes(o, turns[0]);
      LoopIsQueue(Round(o, None, turns[0]).outbox, turns[1..]);
    }
  }

  predicate AllDeliver(turns: seq<Turn>) {
    forall i :: 0 <= i < |turns| ==> turns[i].delivery.Delivers?
  }

  function Min(a: nat, b: nat): nat { if a < b then a else b }

  lemma {:induction false} QueueDrains(queue: seq<Message>, turns: seq<Turn>)
    requires AllDeliver(turns)
    ensures QueueLog(queue, turns) == queue[..Min(|turns|, |queue|)]
    ensures |QueueAnswers(queue, turns)| == |turns|
    ensures forall i :: 0 <= i < |turns| ==> (QueueAnswers(queue, turns)[i] <==> i < |queue|)
    ensures QueueLeft(queue, turns) == queue[Min(|turns|, |queue|)..]
    decreases |turns|
  {
    if turns != [] {
      assert AllDeliver(turns[1..]);
      if queue == [] {
        QueueDrains([], turns[1..]);
      } else {
        QueueDrains(queue[1..], turns[1..]);
        assert queue[..Min(|turns|, |queue|)] == [queue[0]] + queue[1..][..Min(|turns| - 1, |queue| - 1)];
      }
    }
  }

  /** Draining: with a publisher that always succeeds the loop answers True exactly as many times as there are
      unpublished events, and delivers exactly those events sorted by (created_at, id). */
  lemma {:induction false} DrainIsSort(o: Outbox, turns: seq<Turn>)
    requires AllDeliver(turns)
    ensures var q := Messages(o.events, Sorted(o.events, Pending(o.events)));
            && |q| == |Pending(o.events)|
            && Rounds(o, turns).broker == o.broker + q[..Min(|turns|, |q|)]
            && |Answers(o, turns)| == |turns|
            && (forall i :: 0 <= i < |turns| ==> (Answers(o, turns)[i] <==> i < |Pending(o.events)|))
            && (|turns| >= |q| ==> Pending(Rounds(o, turns).events) == {})
  {
    LoopIsQueue(o, turns);
    SortedLists(o.events, Pending(o.events));
    QueueDrains(Queue(o.events), turns);
    SortedLists(Rounds(o, turns).events, Pending(Rounds(o, turns).events));
  }

  // ---------------------------------------------------------------- when the order of delivery is right

  /** The event that a successful call adds. */
  function Report(inv: Invocation): Option<Event> {
    match inv.call
    case FundCall(_) => None
    case CreateCall(_) => Some(Event(OrderCreated, inv.draw.order, inv.draw.now, None, 0, None))
    case CancelCall(r) => Some(Event(OrderCanceled, r.order, inv.draw.now, None, 0, None))
  }

  lemma ServeReports(cfg: Config, opening: map<WalletId, Wallet>, db: Db, inv: Invocation)
    requires Inv(cfg, opening, db)
    ensures var after := Serve(cfg, db, inv);
            if after.outcome.Done? && Report(inv).Some?
            then inv.draw.event !in db.events && after.db.events == db.events[inv.draw.event := Report(inv).value]
            else after.db.events == db.events
  {
    hide Inv, Exact, LedgerKey, EventKey, Upper, HasEvent, FundingReplay, OrderReplay, Post, Storable, Reserve, TxFor;
    OnlyDoneChanges(cfg, db, inv);
  }

  /** The k-th call of the run added this event. */
  ghost predicate Adds(cfg: Config, db0: Db, run: seq<Invocation>, k: nat, e: Uuid, ev: Event)
    requires k < |run|
  {
    Answer(cfg, db0, run, k).Done? && run[k].draw.event == e && Report(run[k]) == Some(ev)
  }

  ghost predicate AddedByRun(cfg: Config, db0: Db, run: seq<Invocation>, e: Uuid, ev: Event) {
    exists k :: 0 <= k < |run| && Adds(cfg, db0, run, k, e, ev)
  }

  /** The call's event is there. */
  ghost predicate Reported(events: map<Uuid, Event>, inv: Invocation) {
    Report(inv).Some? && inv.draw.event in events && events[inv.draw.event] == Report(inv).value
  }

  /** Every event was added by a successful call of the run, with the call's order and time stamp. */
  lemma {:induction false} EventAdded(cfg: Config, db0: Db, run: seq<Invocation>, e: Uuid)
    requires Initial(db0) && e in Run(cfg, db0, run).events
    ensures AddedByRun(cfg, db0, run, e, Run(cfg, db0, run).events[e])
    decreases |run|
  {
    hide Inv, Serve, Report, AddedByRun, Answer;
    if run != [] {
      var before, last := run[..|run| - 1], run[|run| - 1];
      var db := Run(cfg, db0, before);
      InitialInv(cfg, db0);
      RunKeeps(cfg, db0.wallets, db0, before);
      ServeReports(cfg, db0.wallets, db, last);
      LastCall(cfg, db0, run);
      if Answer(cfg, db0, run, |run| - 1).Done? && Report(last).Some? && e == last.draw.event {
        AddedLast(cfg, db0, run, e, Run(cfg, db0, run).events[e]);
      } else {
        EventAdded(cfg, db0, before, e);
        AddedBefore(cfg, db0, run, e, db.events[e]);
      }
    }
  }

  /** Every successful creation or cancellation added its event. */
  lemma {:induction false} CallReported(cfg: Config, db0: Db, run: seq<Invocation>, k: nat)
    requires Initial(db0) && k < |run| && Answer(cfg, db0, run, k).Done? && Report(run[k]).Some?
    ensures Reported(Run(cfg, db0, run).events, run[k])
  {
    hide Inv, Serve, Report, Run;
    var db := Run(cfg, db0, run[..k]);
    InitialInv(cfg, db0);
    RunKeeps(cfg, db0.wallets, db0, run[..k]);
    ServeReports(cfg, db0.wallets, db, run[k]);
    var next := run[..k + 1];
    assert next[..|next| - 1] == run[..k];
    LastCall(cfg, db0, next);
    RunKeeps(cfg, db0.wallets, db0, next);
    assert run == next + run[k + 1..];
    RunConcat(cfg, db0, next, run[k + 1..]);
    RunGrows(cfg, db0.wallets, Run(cfg, db0, next), run[k + 1..]);
  }

  lemma {:induction false} LastCall(cfg: Config, db0: Db, run: seq<Invocation>)
    requires run != []
    ensures Serve(cfg, Run(cfg, db0, run[..|run| - 1]), run[|run| - 1])
         == Result(Run(cfg, db0, run), Answer(cfg, db0, run, |run| - 1))
    ensures forall k :: 0 <= k < |run| - 1 ==> Answer(cfg, db0, run, k) == Answer(cfg, db0, run[..|run| - 1], k)
  {
    hide Serve;
    forall k | 0 <= k < |run| - 1 ensures Answer(cfg, db0, run, k) == Answer(cfg, db0, run[..|run| - 1], k) {
      assert run[..|run| - 1][..k] == run[..k];
    }
  }

  lemma AddedLast(cfg: Config, db0: Db, run: seq<Invocation>, e: Uuid, ev: Event)
    requires run != [] && Adds(cfg, db0, run, |run| - 1, e, ev)
    ensures AddedByRun(cfg, db0, run, e, ev)
  {
    hide Run, Serve;
  }

  lemma AddedBefore(cfg: Config, db0: Db, run: seq<Invocation>, e: Uuid, ev: Event)
    requires run != [] && AddedByRun(cfg, db0, run[..|run| - 1], e, ev)
    ensures AddedByRun(cfg, db0, run, e, ev)
  {
    hide Run, Serve, Report, Answer;
    LastCall(cfg, db0, run);
    var k :| 0 <= k < |run| - 1 && Adds(cfg, db0, run[..|run| - 1], k, e, ev);
    assert Adds(cfg, db0, run, k, e, ev);
  }

  lemma OriginOf(cfg: Config, db0: Db, run: seq<Invocation>, e: Uuid) returns (k: nat)
    requires Initial(db0) && e in Run(cfg, db0, run).events
    ensures k < |run| && Adds(cfg, db0, run, k, e, Run(cfg, db0, run).events[e])
  {
    hide Serve, Run, Adds;
    EventAdded(cfg, db0, run, e);
    k :| 0 <= k < |run| && Adds(cfg, db0, run, k, e, Run(cfg, db0, run).events[e]);
  }

  predicate StampedAfter(create: Draw, cancel: Draw) {
    create.now < cancel.now || (create.now == cancel.now && create.event < cancel.event)
  }

  /** Every successful cancellation has a later time stamp than the creation of its order. */
  ghost predicate StampedCalls(cfg: Config, db0: Db, run: seq<Invocation>) {
    forall i, j | 0 <= i < |run| && 0 <= j < |run|
                  && run[i].call.CreateCall? && Answer(cfg, db0, run, i).Done?
                  && run[j].call.CancelCall? && Answer(cfg, db0, run, j).Done?
                  && run[j].call.cancel.order == run[i].draw.order ::
      StampedAfter(run[i].draw, run[j].draw)
  }

  /** No two successful calls draw the same event. */
  lemma {:induction false} AddedOnce(cfg: Config, db0: Db, run: seq<Invocation>, i: nat, j: nat)
    requires Initial(db0) && i < j < |run| && Answer(cfg, db0, run, i).Done? && Answer(cfg, db0, run, j).Done?
    requires Report(run[i]).Some? && Report(run[j]).Some?
    ensures run[i].draw.event != run[j].draw.event
  {
    hide Inv, Serve, Report, Run;
    assert run[..j][..i] == run[..i];
    CallReported(cfg, db0, run[..j], i);
    InitialInv(cfg, db0);
    RunKeeps(cfg, db0.wallets, db0, run[..j]);
    ServeReports(cfg, db0.wallets, Run(cfg, db0, run[..j]), run[j]);
  }

  /** The outbox of a run: every event is that of exactly one successful call, with the call's transition and time
      stamp, every successful creation and cancellation has one, and so the stamps of the outbox are in order
      exactly when those of the calls are. */
  lemma {:induction false} StampedByCalls(cfg: Config, db0: Db, run: seq<Invocation>)
    requires Initial(db0)
    ensures Stamped(Run(cfg, db0, run).events) <==> StampedCalls(cfg, db0, run)
    ensures forall e :: e in Run(cfg, db0, run).events ==> AddedByRun(cfg, db0, run, e, Run(cfg, db0, run).events[e])
    ensures forall k :: 0 <= k < |run| && Answer(cfg, db0, run, k).Done? && Report(run[k]).Some? ==>
              Reported(Run(cfg, db0, run).events, run[k])
    ensures forall i, j | 0 <= i < j < |run| && Answer(cfg, db0, run, i).Done? && Answer(cfg, db0, run, j).Done?
                          && Report(run[i]).Some? && Report(run[j]).Some? :: run[i].draw.event != run[j].draw.event
  {
    hide Serve, Run, Answer, Adds, Report, Stamped, StampedCalls, AddedByRun, Reported;
    StampsAgree(cfg, db0, run);
    forall e | e in Run(cfg, db0, run).events ensures AddedByRun(cfg, db0, run, e, Run(cfg, db0, run).events[e]) {
      EventAdded(cfg, db0, run, e);
    }
    forall k | 0 <= k < |run| && Answer(cfg, db0, run, k).Done? && Report(run[k]).Some?
      ensures Reported(Run(cfg, db0, run).events, run[k])
    {
      CallReported(cfg, db0, run, k);
    }
    forall i, j | 0 <= i < j < |run| && Answer(cfg, db0, run, i).Done? && Answer(cfg, db0, run, j).Done?
      && Report(run[i]).Some? && Report(run[j]).Some?
      ensures run[i].draw.event != run[j].draw.event
    {
      AddedOnce(cfg, db0, run, i, j);
    }
  }

  lemma {:induction false} StampsAgree(cfg: Config, db0: Db, run: seq<Invocation>)
    requires Initial(db0)
    ensures Stamped(Run(cfg, db0, run).events) <==> StampedCalls(cfg, db0, run)
  {
    hide Serve, Run, Answer;
    var events := Run(cfg, db0, run).events;
    if StampedCalls(cfg, db0, run) {
      forall c, x | c in events && x in events
        && events[c].kind == OrderCreated && events[x].kind == OrderCanceled && events[c].order == events[x].order
        ensures Before(events, c, x)
      {
        var i := OriginOf(cfg, db0, run, c);
        var j := OriginOf(cfg, db0, run, x);
        assert StampedAfter(run[i].draw, run[j].draw);
      }
    }
    if Stamped(events) {
      forall i, j | 0 <= i < |run| && 0 <= j < |run|
        && run[i].call.CreateCall? && Answer(cfg, db0, run, i).Done?
        && run[j].call.CancelCall? && Answer(cfg, db0, run, j).Done?
        && run[j].call.cancel.order == run[i].draw.order
        ensures StampedAfter(run[i].draw, run[j].draw)
      {
        CallReported(cfg, db0, run, i);
        CallReported(cfg, db0, run, j);
        assert Before(events, run[i].draw.event, run[j].draw.event);
      }
    }
  }

  /** Another copy of the message just delivered changes nothing. */
  lemma InOrderCopy(before: seq<Message>, m: Message, after: seq<Message>)
    ensures InOrder(before + [m, m] + after) <==> InOrder(before + [m] + after)
  {
    var once, twice, n := before + [m] + after, before + [m, m] + after, |before|;
    forall j, order | n < j <= |once| ensures CreatedIn(once, j, order) <==> CreatedIn(twice, j + 1, order) {
      CopyCreated(before, m, after, j, order);
    }
    forall j, order | 0 <= j <= n ensures CreatedIn(once, j, order) <==> CreatedIn(twice, j, order) {
      assert once[..j] == before[..j] == twice[..j];
      SamePrefix(once, twice, j, order);
    }
    if InOrder(once) {
      forall j | 0 <= j < |twice| && twice[j].kind == OrderCanceled ensures CreatedIn(twice, j, twice[j].order) {
        if j <= n {
          assert once[j] == twice[j];
        } else if j > n + 1 {
          assert once[j - 1] == twice[j];
        } else {
          assert once[n] == twice[j];
        }
      }
    }
    if InOrder(twice) {
      forall j | 0 <= j < |once| && once[j].kind == OrderCanceled ensures CreatedIn(once, j, once[j].order) {
        if j <= n {
          assert twice[j] == once[j];
        } else {
          assert twice[j + 1] == once[j];
        }
      }
    }
  }

  lemma SamePrefix(a: seq<Message>, b: seq<Message>, j: nat, order: Uuid)
    requires j <= |a| && j <= |b| && a[..j] == b[..j]
    ensures CreatedIn(a, j, order) <==> CreatedIn(b, j, order)
  {
    forall i | 0 <= i < j ensures a[i] == b[i] {
      assert a[..j][i] == b[..j][i];
    }
  }

  lemma CopyCreated(before: seq<Message>, m: Message, after: seq<Message>, j: nat, order: Uuid)
    requires |before| < j <= |before| + 1 + |after|
    ensures CreatedIn(before + [m] + after, j, order) <==> CreatedIn(before + [m, m] + after, j + 1, order)
  {
    var once, twice, n := before + [m] + after, before + [m, m] + after, |before|;
    if CreatedIn(once, j, order) {
      var i :| 0 <= i < j && once[i].kind == OrderCreated && once[i].order == order;
      assert if i <= n then twice[i] == once[i] else twice[i + 1] == once[i];
    }
    if CreatedIn(twice, j + 1, order) {
      var i :| 0 <= i < j + 1 && twice[i].kind == OrderCreated && twice[i].order == order;
      assert if i <= n then once[i] == twice[i] else once[i - 1] == twice[i];
    }
  }

  /** Retries do not change whether a drained queue was delivered in order. */
  lemma {:induction false} RetriesKeepOrder(sent: seq<Message>, queue: seq<Message>, turns: seq<Turn>)
    requires QueueLeft(queue, turns) == []
    ensures InOrder(sent + QueueLog(queue, turns)) <==> InOrder(sent + queue)
    decreases |turns|
  {
    hide InOrder;
    if queue == [] || turns == [] {
      assert QueueLog(queue, turns) == queue == [];
    } else {
      var m, rest := queue[0], turns[1..];
      match turns[0].delivery
      case Raises(_) =>
        RetriesKeepOrder(sent, queue, rest);
      case Delivers =>
        RetriesKeepOrder(sent + [m], queue[1..], rest);
        assert sent + QueueLog(queue, turns) == sent + [m] + QueueLog(queue[1..], rest);
        assert sent + queue == sent + [m] + queue[1..];
      case DeliversThenRaises(_) =>
        RetriesKeepOrder(sent + [m], queue, rest);
        InOrderCopy(sent, m, queue[1..]);
        assert sent + QueueLog(queue, turns) == sent + [m] + QueueLog(queue, rest);
        assert sent + [m] + queue == sent + [m, m] + queue[1..];
        assert sent + queue == sent + [m] + queue[1..];
    }
  }

  /** Whatever the publisher does, retries and duplicates included: once the loop has emptied the outbox of a run
      of calls, its log reports the transitions of every order in their order exactly when every successful
      cancellation has a later time stamp than the creation of its order. */
  lemma {:induction false} InOrderIffStamped(cfg: Config, db0: Db, run: seq<Invocation>, turns: seq<Turn>)
    requires Initial(db0) && QueueLeft(Queue(Run(cfg, db0, run).events), turns) == []
    ensures InOrder(Rounds(Outbox(Run(cfg, db0, run).events, []), turns).broker) <==> StampedCalls(cfg, db0, run)
  {
    hide Inv, Rounds, StampedCalls, InOrder, QueueLeft, QueueLog, Stamped;
    var db := Run(cfg, db0, run);
    var ids := Sorted(db.events, Pending(db.events));
    InitialInv(cfg, db0);
    RunKeeps(cfg, db0.wallets, db0, run);
    InvOutbox(cfg, db0.wallets, db);
    CallsPublishNothing(cfg, db0, run);
    StampsAgree(cfg, db0, run);
    SortedLists(db.events, Pending(db.events));
    ListedInOrder(db, ids);
    LoopIsQueue(Outbox(db.events, []), turns);
    RetriesKeepOrder([], Queue(db.events), turns);
    assert [] + QueueLog(Queue(db.events), turns) == QueueLog(Queue(db.events), turns);
    assert [] + Queue(db.events) == Queue(db.events);
  }

  /** Only the relay publishes. */
  lemma {:induction false} CallsPublishNothing(cfg: Config, db0: Db, run: seq<Invocation>)
    requires Initial(db0)
    ensures forall e :: e in Run(cfg, db0, run).events ==> Run(cfg, db0, run).events[e].publishedAt.None?
    decreases |run|
  {
    hide Inv, Serve;
    if run != [] {
      var db := Run(cfg, db0, run[..|run| - 1]);
      CallsPublishNothing(cfg, db0, run[..|run| - 1]);
      InitialInv(cfg, db0);
      RunKeeps(cfg, db0.wallets, db0, run[..|run| - 1]);
      NewEventsUnpublished(cfg, db0.wallets, db, run[|run| - 1]);
      ServeGrows(cfg, db0.wallets, db, run[|run| - 1]);
    }
  }

  lemma InvOutbox(cfg: Config, opening: map<WalletId, Wallet>, db: Db)
    requires Inv(cfg, opening, db)
    ensures OutboxAgrees(db.orders, db.events)
  {
  }

  lemma ListedInOrder(db: Db, ids: seq<Uuid>)
    requires OutboxAgrees(db.orders, db.events)
    requires Ordered(db.events, ids) && forall e: Uuid :: e in db.events <==> e in ids
    ensures InOrder(Messages(db.events, ids)) <==> Stamped(db.events)
  {
    if InOrder(Messages(db.events, ids)) {
      InOrderStamps(db, ids);
    }
    if Stamped(db.events) {
      StampedInOrder(db, ids);
    }
  }

  lemma InOrderStamps(db: Db, ids: seq<Uuid>)
    requires OutboxAgrees(db.orders, db.events)
    requires Ordered(db.events, ids) && forall e: Uuid :: e in db.events <==> e in ids
    requires InOrder(Messages(db.events, ids))
    ensures Stamped(db.events)
  {
    var log := Messages(db.events, ids);
    forall c, x | c in db.events && x in db.events && db.events[c].kind == OrderCreated
      && db.events[x].kind == OrderCanceled && db.events[c].order == db.events[x].order
      ensures Before(db.events, c, x)
    {
      var j :| 0 <= j < |ids| && ids[j] == x;
      assert log[j] == MessageOf(x, db.events[x]);
      assert CreatedIn(log, j, log[j].order);
      var i :| 0 <= i < j && log[i].kind == OrderCreated && log[i].order == log[j].order;
      assert Reports(db.events[ids[i]], db.events[c].kind, db.events[c].order);
      assert ids[i] == c;
    }
  }

  lemma StampedInOrder(db: Db, ids: seq<Uuid>)
    requires OutboxAgrees(db.orders, db.events)
    requires Ordered(db.events, ids) && forall e: Uuid :: e in db.events <==> e in ids
    requires Stamped(db.events)
    ensures InOrder(Messages(db.events, ids))
  {
    hide Ordered, Messages;
    SortedMessages(db.events, ids);
    var log := Messages(db.events, ids);
    forall j | 0 <= j < |log| && log[j].kind == OrderCanceled ensures CreatedIn(log, j, log[j].order) {
      assert HasReport(db.events, OrderCreated, log[j].order);
      var c :| c in db.events && Reports(db.events[c], OrderCreated, log[j].order);
      var i :| 0 <= i < |ids| && ids[i] == c;
      assert Before(db.events, c, ids[j]);
      OrderedIndex(db.events, ids, i, j);
      assert log[i] == MessageOf(c, db.events[c]);
    }
  }

  lemma SortedMessages(events: map<Uuid, Event>, ids: seq<Uuid>)
    requires Ordered(events, ids)
    ensures forall i :: 0 <= i < |ids| ==> ids[i] in events
    ensures |Messages(events, ids)| == |ids|
    ensures forall i :: 0 <= i < |ids| ==> Messages(events, ids)[i] == MessageOf(ids[i], events[ids[i]])
  {
  }

  lemma OrderedIndex(events: map<Uuid, Event>, ids: seq<Uuid>, i: nat, j: nat)
    requires i < |ids| && j < |ids| && Ordered(events, ids)
    ensures Before(events, ids[i], ids[j]) <==> i < j
  {
    if j < i {
      assert Before(events, ids[j], ids[i]);
    }
  }
}
