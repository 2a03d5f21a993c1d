/** Two runs of genuine input, delivered in order and without loss, that show the
    exception happening: a snapshot that cannot bridge is refused and empties the
    buffer, so the next snapshot goes live although it predates a delivered event.
    In one the live book misses a level, in the other it crosses and asks again. */
module Holes {
  import opened Levels
  import opened BookModel
  import opened Venue
  import opened TruthAgreement
  import opened Delivery
  import opened FalseAlarms

  const BID: Level := Level(Price(100.0), 1.0)
  const ASK: Level := Level(Price(101.0), 1.0)

  const TOO_OLD: Op := Sync(Snapshot(5, [BID], [ASK]))
  const STILL_OLD: Op := Sync(Snapshot(10, [BID], [ASK]))

  /** An event from 11 to 20, a snapshot too old to bridge to it, a newer one that
      still predates it, and the event from 21 to 30. */
  function Script(bids: seq<Level>, asks: seq<Level>): seq<Op> {
    [Depth(First(bids)), TOO_OLD, STILL_OLD, Depth(Second(asks))]
  }

  function First(bids: seq<Level>): Event {
    Event(11, 20, 10, bids, [])
  }

  function Second(asks: seq<Level>): Event {
    Event(21, 30, 20, [], asks)
  }

  // ---- What every such script does ----

  lemma ScriptIsLossless(bids: seq<Level>, asks: seq<Level>)
    ensures Along(Lossless, Script(bids, asks))
  {
    var e, f := Depth(First(bids)), Depth(Second(asks));
    FeedAppend(Lossless, [], e);
    FeedAppend(Lossless, [e], TOO_OLD);
    FeedAppend(Lossless, [e, TOO_OLD], STILL_OLD);
    FeedAppend(Lossless, [e, TOO_OLD, STILL_OLD], f);
    assert [] + [e] == [e];
    assert [e] + [TOO_OLD] == [e, TOO_OLD];
    assert [e, TOO_OLD] + [STILL_OLD] == [e, TOO_OLD, STILL_OLD];
    assert [e, TOO_OLD, STILL_OLD] + [f] == Script(bids, asks);
  }

  /** A snapshot that cannot bridge to the only buffered event is refused, and the
      event is gone from the buffer. */
  lemma LoneEventRefused(b: BookValue, e: Event, s: Snapshot)
    requires b.mode == Buffering && b.buffer == [e] && s.id < e.first <= e.last
    ensures OnSnapshot(b, s) == Synced(Loaded(b, s), false)
  {
    assert [e][..0] == [];
    assert !Replay(Loaded(b, s), [e], s.id).ok;
  }

  lemma AfterRefusal(bids: seq<Level>)
    ensures var b := Run([Depth(First(bids)), TOO_OLD]);
            b.mode == Buffering && b.buffer == [] && b.tickerBid == ZERO && b.unverified == 0
  {
    var e := Depth(First(bids));
    RunAppend([], e);
    RunAppend([e], TOO_OLD);
    assert [] + [e] == [e] && [e] + [TOO_OLD] == [e, TOO_OLD];
    LoneEventRefused(Run([e]), e.event, TOO_OLD.snapshot);
  }

  /** Live from the stale snapshot, the delivered event forgotten. */
  predicate LiveFromStale(b: BookValue) {
    && b.mode == Live && b.needFirst && b.lastUpdateId == 10 && b.tickerBid == ZERO && b.unverified == 1
    && b.bids == map[BID.price := BID.qty] && b.asks == map[ASK.price := ASK.qty]
  }

  lemma StaleGoesLive(b: BookValue)
    requires b.mode == Buffering && b.buffer == [] && b.tickerBid == ZERO && b.unverified == 0
    ensures LiveFromStale(OnSnapshot(b, STILL_OLD.snapshot).book)
  {
    ListedOne(BID);
    ListedOne(ASK);
  }

  lemma AfterStale(bids: seq<Level>)
    ensures LiveFromStale(Run([Depth(First(bids)), TOO_OLD, STILL_OLD]))
  {
    var start := [Depth(First(bids)), TOO_OLD];
    AfterRefusal(bids);
    StaleGoesLive(Run(start));
    RunAppend(start, STILL_OLD);
    assert start + [STILL_OLD] == [Depth(First(bids)), TOO_OLD, STILL_OLD];
  }

  lemma ScriptEnds(bids: seq<Level>, asks: seq<Level>)
    ensures Run(Script(bids, asks))
         == OnDepth(Run([Depth(First(bids)), TOO_OLD, STILL_OLD]), Second(asks)).book
  {
    var start := [Depth(First(bids)), TOO_OLD, STILL_OLD];
    RunAppend(start, Depth(Second(asks)));
    assert start + [Depth(Second(asks))] == Script(bids, asks);
  }

  // ---- A venue for each script ----

  /** A venue that changes at 20 and at 30 only. */
  function Stages(first: Sides, second: Sides, third: Sides): Truth {
    (t: nat) => if t < 20 then first else if t < 30 then second else third
  }

  const AT_FIRST := Sides(map[BID.price := BID.qty], map[ASK.price := ASK.qty])

  lemma ScriptIsGenuine(bids: seq<Level>, asks: seq<Level>, second: Sides, third: Sides)
    requires Positive(second.bids) && Positive(second.asks) && Positive(third.bids) && Positive(third.asks)
    requires Explains(AT_FIRST.bids, second.bids, bids) && Explains(second.bids, second.bids, bids)
    requires second.asks == AT_FIRST.asks && third.bids == second.bids
    requires Explains(second.asks, third.asks, asks) && Explains(third.asks, third.asks, asks)
    ensures var T := Stages(AT_FIRST, second, third);
            Sound(T) && forall op | op in Script(bids, asks) :: Genuine(T, op)
  {
    var T := Stages(AT_FIRST, second, third);
    assert BID in [BID] && ASK in [ASK];
    assert GenuineListing(Bid, AT_FIRST.bids, [BID]) && GenuineListing(Ask, AT_FIRST.asks, [ASK]);
    assert GenuineEvent(T, First(bids)) && GenuineEvent(T, Second(asks));
  }

  // ---- The hole ----

  const LATE_BID: Level := Level(Price(99.0), 5.0)

  const HOLE_SCRIPT: seq<Op> := Script([LATE_BID], [])

  const WITH_LATE_BID := AT_FIRST.(bids := AT_FIRST.bids[LATE_BID.price := LATE_BID.qty])

  /** The venue gains a second bid at 20. */
  const HOLE_VENUE: Truth := Stages(AT_FIRST, WITH_LATE_BID, WITH_LATE_BID)

  lemma ReportedLast(ls: seq<Level>, l: Level, p: Price)
    ensures Reported(ls + [l], p) == if p == l.price then Some(l.qty) else Reported(ls, p)
  {
    assert (ls + [l])[..|ls|] == ls;
  }

  lemma HoleIsGenuine()
    ensures Sound(HOLE_VENUE) && forall op | op in HOLE_SCRIPT :: Genuine(HOLE_VENUE, op)
  {
    forall p ensures Reported([LATE_BID], p) == if p == LATE_BID.price then Some(LATE_BID.qty) else None {
      ReportedLast([], LATE_BID, p);
      assert [] + [LATE_BID] == [LATE_BID];
    }
    ScriptIsGenuine([LATE_BID], [], WITH_LATE_BID, WITH_LATE_BID);
  }

  lemma NextEventLeavesTheHole(b: BookValue)
    requires LiveFromStale(b)
    ensures var n := OnDepth(b, Second([])).book;
            n.mode == Live && n.lastUpdateId == 30 && LATE_BID.price !in n.bids && n.unverified == 1
  {
    assert Apply(b.(needFirst := false), Second([])).bids == b.bids;
  }

  /** The rejected snapshot has emptied the buffer, so the next one goes live
      unbridged although it predates a delivered event: the live book misses a
      level of the venue's book, for genuine input delivered in order without loss. */
  lemma RejectedThenStaleSnapshotLeavesAHole()
    ensures Sound(HOLE_VENUE) && forall op | op in HOLE_SCRIPT :: Genuine(HOLE_VENUE, op)
    ensures Along(Lossless, HOLE_SCRIPT)
    ensures Run(HOLE_SCRIPT).mode == Live && Run(HOLE_SCRIPT).unverified == 1
    ensures LATE_BID.price in HOLE_VENUE(Run(HOLE_SCRIPT).lastUpdateId).bids && LATE_BID.price !in Run(HOLE_SCRIPT).bids
    ensures forall cs: Covers | cs.bids.window.Whole? :: !Truthful(Run(HOLE_SCRIPT), HOLE_VENUE, cs)
  {
    HoleIsGenuine();
    ScriptIsLossless([LATE_BID], []);
    AfterStale([LATE_BID]);
    NextEventLeavesTheHole(Run([Depth(First([LATE_BID])), TOO_OLD, STILL_OLD]));
    ScriptEnds([LATE_BID], []);
  }

  // ---- The false alarm ----

  const GONE: Level := Level(Price(100.0), 0.0)
  const LOWER_BID: Level := Level(Price(98.0), 1.0)
  const LOWER_ASK: Level := Level(Price(99.0), 1.0)

  const ALARM_SCRIPT: seq<Op> := Script([GONE, LOWER_BID], [LOWER_ASK])

  const BIDS_MOVED := Sides(map[LOWER_BID.price := LOWER_BID.qty], AT_FIRST.asks)
  const ASKS_MOVED := BIDS_MOVED.(asks := AT_FIRST.asks[LOWER_ASK.price := LOWER_ASK.qty])

  /** The venue's bid falls from 100 to 98 at 20 and its ask from 101 to 99 at 30. */
  const ALARM_VENUE: Truth := Stages(AT_FIRST, BIDS_MOVED, ASKS_MOVED)

  lemma AlarmEventsReport(p: Price)
    ensures Reported([GONE, LOWER_BID], p)
         == if p == LOWER_BID.price then Some(1.0) else if p == GONE.price then Some(0.0) else None
    ensures Reported([LOWER_ASK], p) == if p == LOWER_ASK.price then Some(1.0) else None
  {
    ReportedLast([], GONE, p);
    ReportedLast([GONE], LOWER_BID, p);
    ReportedLast([], LOWER_ASK, p);
    assert [] + [GONE] == [GONE] && [GONE] + [LOWER_BID] == [GONE, LOWER_BID] && [] + [LOWER_ASK] == [LOWER_ASK];
  }

  lemma AlarmEventsExplain()
    ensures var bids, asks := [GONE, LOWER_BID], [LOWER_ASK];
            && Explains(AT_FIRST.bids, BIDS_MOVED.bids, bids) && Explains(BIDS_MOVED.bids, BIDS_MOVED.bids, bids)
            && Explains(BIDS_MOVED.asks, ASKS_MOVED.asks, asks) && Explains(ASKS_MOVED.asks, ASKS_MOVED.asks, asks)
  {
    forall p
      ensures Reported([GONE, LOWER_BID], p)
           == if p == LOWER_BID.price then Some(1.0) else if p == GONE.price then Some(0.0) else None
      ensures Reported([LOWER_ASK], p) == if p == LOWER_ASK.price then Some(1.0) else None
    {
      AlarmEventsReport(p);
    }
  }

  lemma AlarmIsGenuine()
    ensures Sound(ALARM_VENUE) && NeverCrossed(ALARM_VENUE)
    ensures forall op | op in ALARM_SCRIPT :: Genuine(ALARM_VENUE, op)
  {
    AlarmEventsExplain();
    ScriptIsGenuine([GONE, LOWER_BID], [LOWER_ASK], BIDS_MOVED, ASKS_MOVED);
  }

  lemma NextEventCrosses(b: BookValue)
    requires LiveFromStale(b)
    ensures OnDepth(b, Second([LOWER_ASK])).action == NeedSnapshot
  {
    var next := Apply(b.(needFirst := false), Second([LOWER_ASK]));
    assert [LOWER_ASK][..0] == [];
    assert BID.price in next.bids && LOWER_ASK.price in next.asks;
    assert Crossed(next);
  }

  /** The same sequence of ids with other contents: a venue that never crosses, no
      ticker, nothing lost, and yet the live book crosses and asks for a snapshot. */
  lemma StaleSnapshotRaisesAFalseAlarm()
    ensures Sound(ALARM_VENUE) && NeverCrossed(ALARM_VENUE) && NoTicker(ALARM_SCRIPT)
    ensures forall op | op in ALARM_SCRIPT :: Genuine(ALARM_VENUE, op)
    ensures Along(Lossless, ALARM_SCRIPT)
    ensures var before, last := Run(ALARM_SCRIPT[..3]), ALARM_SCRIPT[3].event;
            before.mode == Live && OnDepth(before, last).action == NeedSnapshot
  {
    AlarmIsGenuine();
    ScriptIsLossless([GONE, LOWER_BID], [LOWER_ASK]);
    AfterStale([GONE, LOWER_BID]);
    assert ALARM_SCRIPT[..3] == [Depth(First([GONE, LOWER_BID])), TOO_OLD, STILL_OLD];
    NextEventCrosses(Run(ALARM_SCRIPT[..3]));
  }
}
