/** One run that shows both things the code does not do exactly: a BUY of half a unit that is created and canceled,
    the cancellation with an earlier time stamp than the creation. */
module Witnesses {
  import opened Tables
  import opened Rows
  import opened Services
  import opened Invariants
  import opened Preservation
  import opened Serial
  import opened Relay
  import opened DeliveryOrder
  import opened Drain
  import opened Erasure
  import D = Decimals

  const Cfg: Config := Config(map["BTC" := Asset(1, true), "USD" := Asset(2, true)], text => text)

  const Payer: WalletId := WalletId(User(7), 2)

  /** One user with one unit of the quote asset. */
  const Start: Db := Db(map[Payer := Wallet(1, 0)], map[], map[], map[], map[])

  /** Half a unit: price 10^-18, quantity 0.5. */
  const Buying: CreateRequest := CreateRequest(7, "BTC", "USD", Buy, 1, 500_000_000_000_000_000, "k")

  const Creation: Invocation := Invocation(CreateCall(Buying), Draw(10, 11, 12, 10))
  const Cancellation: Invocation := Invocation(CancelCall(CancelRequest(7, 11)), Draw(20, 0, 21, 3))

  lemma Assets()
    ensures ActiveAsset(Cfg, "BTC") == Some(1) && ActiveAsset(Cfg, "USD") == Some(2)
  {
    assert Upper("BTC") == "BTC" && Upper("USD") == "USD";
  }

  lemma HalfAUnit()
    ensures Exact(Buy, 1, 500_000_000_000_000_000) == 500_000_000_000_000_000
    ensures D.Store(500_000_000_000_000_000) == 1 && D.Tie(500_000_000_000_000_000)
    ensures Covers(Wallet(1, 0), 500_000_000_000_000_000)
  {
  }

  lemma CreationGuarded()
    ensures CreateGuard(Cfg, Start, NewOrder(Buying, 1, 2, 10), 500_000_000_000_000_000, Creation.draw)
  {
    hide Upper, LedgerKey, Exact, D.Store, D.Tie, Covers;
    HalfAUnit();
    Assets();
    ActiveIsKnown(Cfg, "BTC");
    ActiveIsKnown(Cfg, "USD");
  }

  lemma CreationDone()
    ensures Serve(Cfg, Start, Creation).outcome == Done(11)
    ensures var db := Serve(Cfg, Start, Creation).db;
            && db.wallets == map[Payer := Wallet(1, 1)]
            && db.orders == map[11 := NewOrder(Buying, 1, 2, 10)]
            && 20 !in db.txs && 21 !in db.events
  {
    hide ActiveAsset, LedgerKey, Exact, D.Store, D.Tie, Covers, Reserve, CreateGuard, Create, Money, Books;
    Assets();
    HalfAUnit();
    InitialInv(Cfg, Start);
    CreationGuarded();
    CreateDone(Cfg, Start, Buying, Creation.draw, 1, 2);
    ReserveMoves(Wallet(1, 0), 500_000_000_000_000_000);
  }

  lemma CancellationDone()
    ensures var db := Serve(Cfg, Start, Creation).db;
            && Serve(Cfg, db, Cancellation).outcome == Done(11)
            && Serve(Cfg, db, Cancellation).db.wallets == map[Payer := Wallet(2, 0)]
  {
    hide Inv, Create, Exact, D.Store;
    CreationDone();
    HalfAUnit();
    InitialInv(Cfg, Start);
    ServeKeeps(Cfg, Start.wallets, Start, Creation);
    CancelDone(Cfg, Start.wallets, Serve(Cfg, Start, Creation).db, CancelRequest(7, 11), Cancellation.draw);
  }

  lemma {:induction false} RunOfTwo()
    ensures var run := [Creation, Cancellation];
            && Run(Cfg, Start, run[..1]) == Serve(Cfg, Start, Creation).db
            && Run(Cfg, Start, run) == Serve(Cfg, Serve(Cfg, Start, Creation).db, Cancellation).db
            && Answer(Cfg, Start, run, 0) == Serve(Cfg, Start, Creation).outcome
            && Answer(Cfg, Start, run, 1) == Serve(Cfg, Serve(Cfg, Start, Creation).db, Cancellation).outcome
  {
    hide Serve;
    var run := [Creation, Cancellation];
    assert run[..0] == [] && run[..1] == [Creation] && run[..1][..0] == [];
    assert Run(Cfg, Start, []) == Start;
    assert Run(Cfg, Start, run[..1]) == Serve(Cfg, Run(Cfg, Start, run[..1][..0]), run[..1][0]).db;
  }

  /** A unit from nothing: the wallet holds one unit before the order, and two after it was created and canceled.
      The order cannot be erased without a difference. */
  lemma {:induction false} UnitFromNothing()
    ensures var run := [Creation, Cancellation];
            && Initial(Start) && Tied(Buying)
            && Answer(Cfg, Start, run, 0) == Done(11) && Answer(Cfg, Start, run, 1) == Done(11)
            && Start.wallets == map[Payer := Wallet(1, 0)]
            && Run(Cfg, Start, run[..1]).wallets == map[Payer := Wallet(1, 1)]
            && Run(Cfg, Start, run).wallets == map[Payer := Wallet(2, 0)]
            && !(SameAnswers(Cfg, Start, run, 11, 7, "k")
                 && Run(Cfg, Start, Erase(Cfg, Start, run, 11, 7, "k")).wallets == Run(Cfg, Start, run).wallets)
  {
    hide Serve, Run, Erase, SameAnswers, Exact, D.Tie;
    RunOfTwo();
    CreationDone();
    CancellationDone();
    HalfAUnit();
    ErasureExact(Cfg, Start, [Creation, Cancellation], 0, Buying, 1);
  }

  /** Canceled before created: both calls succeed, and a relay that drains the outbox without a single failure
      announces the cancellation first. */
  lemma {:induction false} CanceledAnnouncedFirst(turns: seq<Turn>)
    requires AllDeliver(turns) && |turns| >= 2
    ensures var run := [Creation, Cancellation];
            && Initial(Start)
            && Answer(Cfg, Start, run, 0) == Done(11) && Answer(Cfg, Start, run, 1) == Done(11)
            && !StampedCalls(Cfg, Start, run)
            && |Pending(Run(Cfg, Start, run).events)| == 2
            && !InOrder(Rounds(Outbox(Run(Cfg, Start, run).events, []), turns).broker)
  {
    hide Serve, Run, Rounds, InOrder, Queue, QueueLeft;
    var run := [Creation, Cancellation];
    RunOfTwo();
    CreationDone();
    CancellationDone();
    TwoEvents();
    assert !StampedAfter(run[0].draw, run[1].draw);
    var events := Run(Cfg, Start, run).events;
    assert Pending(events) == {12, 21};
    SortedLists(events, Pending(events));
    QueueDrains(Queue(events), turns);
    QueueLength(events);
    InOrderIffStamped(Cfg, Start, run, turns);
  }

  lemma QueueLength(events: map<Uuid, Event>)
    ensures |Queue(events)| == |Pending(events)|
  {
    SortedLists(events, Pending(events));
  }

  lemma {:induction false} TwoEvents()
    ensures Run(Cfg, Start, [Creation, Cancellation]).events
         == map[12 := Event(OrderCreated, 11, 10, None, 0, None), 21 := Event(OrderCanceled, 11, 3, None, 0, None)]
  {
    hide Serve, Run, Inv;
    RunOfTwo();
    CreationDone();
    CancellationDone();
    InitialInv(Cfg, Start);
    ServeKeeps(Cfg, Start.wallets, Start, Creation);
    ServeReports(Cfg, Start.wallets, Start, Creation);
    ServeReports(Cfg, Start.wallets, Serve(Cfg, Start, Creation).db, Cancellation);
  }
}
