/** A run in which a book is validated and then published empty: the shard is held
    up between its two locks for longer than the stale threshold, and the sweeper
    comes by. */
module LatePublish {
  import opened Levels
  import opened BookModel
  import opened StaleSweep
  import opened SyncTasks

  const SYMBOL: string := "BTCUSDT"

  const BID := Level(Price(100.0), 1.0)
  const ASK := Level(Price(101.0), 1.0)

  const FIRST := Event(1, 10, 0, [], [])
  const SECOND := Event(11, 20, 10, [], [])
  const SNAPSHOT := Snapshot(5, [BID], [ASK])

  /** One shard, one symbol, nothing received yet. */
  const START: World :=
    World(map[SYMBOL := Slot(FRESH, 0.0)], map[], 0, [Shard({SYMBOL}, Receiving, map[])], {}, 0.0)

  /** The first event, its snapshot, the second event; then the shard loses the
      processor until after the next sweep. */
  const FIRST_ARRIVES: seq<SyncTasks.Move> := [DepthArrives(0, SYMBOL, FIRST)]
  const REQUESTED := FIRST_ARRIVES + [RequestSync(0)]
  const FETCHING := REQUESTED + [TaskChecks(0)]
  const SYNCHRONISED := FETCHING + [TaskGetsSnapshot(0, SNAPSHOT)]
  const VALIDATED := SYNCHRONISED + [DepthArrives(0, SYMBOL, SECOND)]
  const DELAYED := VALIDATED + [Elapse(31.0)]
  const MOVES := DELAYED + [Sweep]

  const BUFFERED: BookValue := FRESH.(mode := Buffering, buffer := [FIRST])

  lemma FirstEventBuffers()
    ensures OnDepth(FRESH, FIRST) == Reacted(BUFFERED, NeedSnapshot)
  {
  }

  lemma SnapshotGoesLive()
    ensures var s := OnSnapshot(BUFFERED, SNAPSHOT);
            && s.live && s.book.mode == Live && s.book.lastUpdateId == 10 && !s.book.needFirst
            && s.book.bids == map[BID.price := BID.qty] && s.book.asks == map[ASK.price := ASK.qty]
            && s.book.tickerBid == ZERO
  {
    assert [FIRST][..0] == [];
    ListedOne(BID);
    ListedOne(ASK);
    var loaded := Loaded(BUFFERED, SNAPSHOT);
    assert Replay(loaded, [FIRST], 5) == Replayed(Apply(loaded, FIRST), true, true);
  }

  lemma SecondEventIsPublished(b: BookValue)
    requires b.mode == Live && b.lastUpdateId == 10 && !b.needFirst && b.tickerBid == ZERO
    requires b.bids == map[BID.price := BID.qty] && b.asks == map[ASK.price := ASK.qty]
    ensures var r := OnDepth(b, SECOND);
            && r.action == Publish && r.book.mode == Live && r.book.lastUpdateId == 20
            && r.book.bids == b.bids && r.book.asks == b.asks
  {
    assert Apply(b.(needFirst := false), SECOND).bids == b.bids;
  }

  // ---- The run, move by move ----

  predicate OneShard(w: World, d: Duty, b: BookValue, clock: real) {
    && w.books.Keys == {SYMBOL} && w.books[SYMBOL] == Slot(b, 0.0)
    && |w.shards| == 1 && w.shards[0].duty == d && w.shards[0].symbols == {SYMBOL}
    && w.toSpawn == {} && w.clock == clock
  }

  predicate OneTask(w: World, p: Phase) {
    w.tasks == map[0 := Task(SYMBOL, p, false)]
  }

  lemma Arrives()
    ensures Possible(START, FIRST_ARRIVES)
    ensures Reached(START, FIRST_ARRIVES) == START.(books := map[SYMBOL := Slot(BUFFERED, 0.0)],
              shards := [Shard({SYMBOL}, Requesting(SYMBOL), map[])])
  {
    FirstEventBuffers();
    ReachedAppend(START, [], FIRST_ARRIVES[0]);
    assert [] + [FIRST_ARRIVES[0]] == FIRST_ARRIVES;
    assert START.books[SYMBOL := Slot(BUFFERED, 0.0)] == map[SYMBOL := Slot(BUFFERED, 0.0)];
  }

  lemma Requests(w: World)
    requires OneShard(w, Requesting(SYMBOL), BUFFERED, 0.0) && w.shards[0].handles == map[]
    requires w.tasks == map[] && w.nextTask == 0
    ensures Enabled(w, RequestSync(0))
    ensures OneShard(After(w, RequestSync(0)), Receiving, BUFFERED, 0.0) && OneTask(After(w, RequestSync(0)), Checking)
  {
  }

  lemma Checks(w: World)
    requires OneShard(w, Receiving, BUFFERED, 0.0) && OneTask(w, Checking)
    ensures Enabled(w, TaskChecks(0))
    ensures OneShard(After(w, TaskChecks(0)), Receiving, BUFFERED, 0.0) && OneTask(After(w, TaskChecks(0)), Fetching)
  {
  }

  lemma Syncs(w: World, b: BookValue)
    requires OneShard(w, Receiving, b, 0.0) && OneTask(w, Fetching)
    ensures Enabled(w, TaskGetsSnapshot(0, SNAPSHOT))
    ensures OneShard(After(w, TaskGetsSnapshot(0, SNAPSHOT)), Receiving, OnSnapshot(b, SNAPSHOT).book, 0.0)
  {
    assert SYMBOL in w.books;
  }

  lemma Validates(w: World, b: BookValue)
    requires OneShard(w, Receiving, b, 0.0) && OnDepth(b, SECOND).action == Publish
    ensures var next := OnDepth(b, SECOND).book;
            Enabled(w, DepthArrives(0, SYMBOL, SECOND)) &&
            OneShard(After(w, DepthArrives(0, SYMBOL, SECOND)), Publishing(SYMBOL, next, 0.0, false), next, 0.0)
  {
  }

  lemma Sweeps(w: World, b: BookValue)
    requires OneShard(w, Publishing(SYMBOL, b, 0.0, false), b, 31.0) && b.mode == Live
    ensures Enabled(w, Sweep) && Enabled(After(w, Sweep), PublishBook(0))
    ensures var v := After(w, Sweep);
            && v.shards[0].duty == Publishing(SYMBOL, b, 0.0, true)
            && SYMBOL in v.books && v.books[SYMBOL].book == MarkForResync(b)
  {
    assert SYMBOL in w.books && Stale(w.books[SYMBOL], w.clock, STALE_THRESHOLD);
  }

  lemma ReachesFetching()
    ensures Possible(START, FETCHING)
    ensures OneShard(Reached(START, FETCHING), Receiving, BUFFERED, 0.0) && OneTask(Reached(START, FETCHING), Fetching)
  {
    Arrives();
    Requests(Reached(START, FIRST_ARRIVES));
    ReachedAppend(START, FIRST_ARRIVES, RequestSync(0));
    Checks(Reached(START, REQUESTED));
    ReachedAppend(START, REQUESTED, TaskChecks(0));
  }

  lemma ReachesValidated() returns (b: BookValue)
    ensures b.mode == Live && b.lastUpdateId == 20 && b.bids != map[] && b.asks != map[]
    ensures Possible(START, VALIDATED)
    ensures OneShard(Reached(START, VALIDATED), Publishing(SYMBOL, b, 0.0, false), b, 0.0)
  {
    ReachesFetching();
    Syncs(Reached(START, FETCHING), BUFFERED);
    ReachedAppend(START, FETCHING, TaskGetsSnapshot(0, SNAPSHOT));
    var live := OnSnapshot(BUFFERED, SNAPSHOT).book;
    SnapshotGoesLive();
    SecondEventIsPublished(live);
    b := OnDepth(live, SECOND).book;
    assert BID.price in b.bids && ASK.price in b.asks;
    Validates(Reached(START, SYNCHRONISED), live);
    ReachedAppend(START, SYNCHRONISED, DepthArrives(0, SYMBOL, SECOND));
  }

  /** A reachable state in which the shard is about to publish a book it validated
      with levels on both sides and id 20, and will publish no level and id zero. */
  lemma ValidatedThenPublishedEmpty()
    ensures Initial(START) && Possible(START, MOVES) && Enabled(Reached(START, MOVES), PublishBook(0))
    ensures var w := Reached(START, MOVES);
            var was := w.shards[0].duty.validated;
            && was.mode == Live && was.lastUpdateId == 20 && was.bids != map[] && was.asks != map[]
            && w.shards[0].duty.symbol == SYMBOL && SYMBOL in w.books
            && var b := w.books[SYMBOL].book;
               b.bids == map[] && b.asks == map[] && b.lastUpdateId == 0
    ensures SweptLate(START, MOVES, 0)
  {
    var b := ReachesValidated();
    ReachedAppend(START, VALIDATED, Elapse(31.0));
    Sweeps(Reached(START, DELAYED), b);
    ReachedAppend(START, DELAYED, Sweep);
    PublishedIsValidated(START, MOVES, 0);
  }
}
