/** The exception of `LiveBookIsTrue` is exact. Everything the machine decides, as
    long as no integrity check fails, it decides from update ids alone; so for each
    script of ids it is asked whether every venue, and every content it could have
    sent under those ids, leaves the live book right. */
module Exactness {
  import opened Levels
  import opened BookModel
  import opened Venue
  import opened TruthAgreement
  import opened Delivery
  import opened FalseAlarms

  // ---- Scripts with the same ids ----

  predicate SameEventIds(e: Event, f: Event) {
    e.first == f.first && e.last == f.last && e.prev == f.prev
  }

  predicate SameIds(op: Op, other: Op) {
    match op
    case Depth(e) => other.Depth? && SameEventIds(e, other.event)
    case Sync(s) => other.Sync? && other.snapshot.id == s.id
    case _ => other == op
  }

  predicate SameScript(ops: seq<Op>, others: seq<Op>) {
    |ops| == |others| && forall i | 0 <= i < |ops| :: SameIds(ops[i], others[i])
  }

  /** The ids are shaped as the stream shapes them. */
  predicate WellFormed(op: Op) {
    op.Depth? ==> op.event.prev < op.event.first <= op.event.last
  }

  /** No integrity check fails in this step. */
  predicate Quiet(b: BookValue, op: Op) {
    match op
    case Depth(e) => Examined(b, e) ==> CheckIntegrity(Apply(b.(needFirst := false), e)).ok
    case Sync(s) =>
      var r := Replay(Loaded(b, s), b.buffer, s.id);
      b.mode == Buffering && r.ok ==> CheckIntegrity(GoLive(r)).ok
    case _ => true
  }

  /** The connection is lost or the book is marked for resync: all is forgotten. */
  predicate Forgets(op: Op) {
    op.Disconnect? || op.Resync?
  }

  /** No integrity check has failed since the book was last reset; any may have
      before. */
  predicate QuietRun(ops: seq<Op>) {
    ops == [] || Forgets(ops[|ops| - 1]) ||
    (QuietRun(ops[..|ops| - 1]) && Quiet(Run(ops[..|ops| - 1]), ops[|ops| - 1]))
  }

  /** What a venue could have sent under the ids of a script, with no check failing
      since the last reset. */
  ghost predicate CouldBe(U: Truth, ops: seq<Op>, others: seq<Op>) {
    Sound(U) && SameScript(ops, others) && QuietRun(others) && forall op | op in others :: Genuine(U, op)
  }

  // ---- Decisions depend on ids alone ----

  predicate SameEvents(es: seq<Event>, fs: seq<Event>) {
    |es| == |fs| && forall i | 0 <= i < |es| :: SameEventIds(es[i], fs[i])
  }

  predicate SameControl(b: BookValue, c: BookValue) {
    && b.mode == c.mode && b.lastUpdateId == c.lastUpdateId && b.needFirst == c.needFirst
    && SameEvents(b.buffer, c.buffer)
  }

  lemma {:induction false} ReplaySameControl(b: BookValue, c: BookValue, es: seq<Event>, fs: seq<Event>, id: nat)
    requires b.lastUpdateId == c.lastUpdateId && SameEvents(es, fs)
    ensures var r, q := Replay(b, es, id), Replay(c, fs, id);
            r.ok == q.ok && r.applied == q.applied && r.book.lastUpdateId == q.book.lastUpdateId
  {
    if es != [] {
      ReplaySameControl(b, c, es[..|es| - 1], fs[..|fs| - 1], id);
    }
  }

  lemma SameEventsAppend(es: seq<Event>, fs: seq<Event>, e: Event, f: Event)
    requires SameEvents(es, fs) && SameEventIds(e, f)
    ensures SameEvents(es + [e], fs + [f])
    ensures es != [] ==> SameEvents(es[1..], fs[1..])
  {
  }

  lemma PushSameControl(b: BookValue, c: BookValue, e: Event, f: Event)
    requires SameEvents(b.buffer, c.buffer) && SameEventIds(e, f)
    ensures SameEvents(Push(b, e).buffer, Push(c, f).buffer)
  {
    SameEventsAppend(b.buffer, c.buffer, e, f);
    if |b.buffer| >= BUFFER_MAX {
      SameEventsAppend(b.buffer[1..], c.buffer[1..], e, f);
    }
  }

  lemma LiveSameControl(b: BookValue, c: BookValue, e: Event, f: Event)
    requires SameControl(b, c) && SameEventIds(e, f) && Quiet(b, Depth(e)) && Quiet(c, Depth(f)) && b.mode == Live
    ensures SameControl(OnDepth(b, e).book, OnDepth(c, f).book)
  {
    if e.last > b.lastUpdateId && !Examined(b, e) {
      PushSameControl(b.(buffer := []), c.(buffer := []), e, f);
    }
  }

  lemma DepthSameControl(b: BookValue, c: BookValue, e: Event, f: Event)
    requires SameControl(b, c) && SameEventIds(e, f) && Quiet(b, Depth(e)) && Quiet(c, Depth(f))
    ensures SameControl(OnDepth(b, e).book, OnDepth(c, f).book)
  {
    if b.mode == Live {
      LiveSameControl(b, c, e, f);
    } else {
      PushSameControl(b, c, e, f);
    }
  }

  lemma SyncSameControl(b: BookValue, c: BookValue, s: Snapshot, t: Snapshot)
    requires SameControl(b, c) && s.id == t.id && Quiet(b, Sync(s)) && Quiet(c, Sync(t))
    ensures SameControl(OnSnapshot(b, s).book, OnSnapshot(c, t).book)
  {
    if b.mode == Buffering {
      ReplaySameControl(Loaded(b, s), Loaded(c, t), b.buffer, c.buffer, s.id);
    }
  }

  lemma StepSameControl(b: BookValue, c: BookValue, op: Op, other: Op)
    requires SameControl(b, c) && SameIds(op, other) && Quiet(b, op) && Quiet(c, other)
    ensures SameControl(Step(b, op).book, Step(c, other).book)
  {
    match op
    case Depth(e) => DepthSameControl(b, c, e, other.event);
    case Sync(s) => SyncSameControl(b, c, s, other.snapshot);
    case _ =>
  }

  lemma {:induction false} WatchIsRun(ops: seq<Op>)
    ensures Watch(ops).book == Run(ops)
  {
    if ops != [] {
      WatchIsRun(ops[..|ops| - 1]);
    }
  }

  /** The id of the snapshot the book was last loaded from. */
  function LoadId(ops: seq<Op>): nat {
    if ops == [] then 0
    else
      var init, op := ops[..|ops| - 1], ops[|ops| - 1];
      if op.Sync? && Run(init).mode == Buffering then op.snapshot.id else LoadId(init)
  }

  /** Two runs over the same ids, both quiet since their last reset, take the same
      decisions since. */
  lemma {:induction false} RunSameControl(ops: seq<Op>, others: seq<Op>)
    requires SameScript(ops, others) && QuietRun(ops) && QuietRun(others)
    ensures SameControl(Run(ops), Run(others))
    ensures Run(ops).mode == Live ==>
              Watch(ops).suspect == Watch(others).suspect && LoadId(ops) == LoadId(others)
  {
    if ops != [] && !Forgets(ops[|ops| - 1]) {
      var init, rest := ops[..|ops| - 1], others[..|others| - 1];
      RunSameControl(init, rest);
      WatchIsRun(init);
      WatchIsRun(rest);
      StepSameControl(Run(init), Run(rest), ops[|ops| - 1], others[|others| - 1]);
    }
  }

  // ---- Filling a script of ids with a venue that turns at one id ----

  const HIGH := Price(100.0)
  const LOW := Price(99.0)
  const ONE_BID := Sides(map[HIGH := 1.0], map[])
  const ONE_ASK := Sides(map[], map[LOW := 1.0])

  /** A lone bid up to id `x`, a lone ask below it from then on. */
  function Turning(x: nat): Truth {
    (t: nat) => if t <= x then ONE_BID else ONE_ASK
  }

  function FilledEvent(e: Event, x: nat): Event {
    if e.prev <= x < e.last then e.(bids := [Level(HIGH, 0.0)], asks := [Level(LOW, 1.0)])
    else e.(bids := [], asks := [])
  }

  function FilledOp(op: Op, x: nat): Op {
    match op
    case Depth(e) => Depth(FilledEvent(e, x))
    case Sync(s) =>
      Sync(if s.id <= x then Snapshot(s.id, [Level(HIGH, 1.0)], []) else Snapshot(s.id, [], [Level(LOW, 1.0)]))
    case _ => op
  }

  function Filled(ops: seq<Op>, x: nat): seq<Op> {
    if ops == [] then [] else Filled(ops[..|ops| - 1], x) + [FilledOp(ops[|ops| - 1], x)]
  }

  lemma ReportedOne(l: Level, p: Price)
    ensures Reported([l], p) == if p == l.price then Some(l.qty) else None
  {
    assert [l][..0] == [];
  }

  lemma OverlayDelete(s: Side, p: Price)
    ensures Overlay(s, [Level(p, 0.0)]) == s - {p}
  {
    assert [Level(p, 0.0)][..0] == [];
  }

  lemma FilledEventGenuine(e: Event, x: nat)
    requires e.prev < e.first <= e.last
    ensures GenuineEvent(Turning(x), FilledEvent(e, x))
  {
    var U, f := Turning(x), FilledEvent(e, x);
    forall t: nat | e.prev <= t <= e.last
      ensures Explains(U(t).bids, U(e.last).bids, f.bids) && Explains(U(t).asks, U(e.last).asks, f.asks)
    {
      if e.prev <= x < e.last {
        forall p
          ensures Reported(f.bids, p) == if p == HIGH then Some(0.0) else None
          ensures Reported(f.asks, p) == if p == LOW then Some(1.0) else None
        {
          ReportedOne(Level(HIGH, 0.0), p);
          ReportedOne(Level(LOW, 1.0), p);
        }
      }
    }
  }

  lemma FilledOpGenuine(op: Op, x: nat)
    requires WellFormed(op)
    ensures Genuine(Turning(x), FilledOp(op, x)) && SameIds(op, FilledOp(op, x))
  {
    match op
    case Depth(e) => FilledEventGenuine(e, x);
    case Sync(s) =>
      assert Level(HIGH, 1.0) in [Level(HIGH, 1.0)] && Level(LOW, 1.0) in [Level(LOW, 1.0)];
    case _ =>
  }

  lemma {:induction false} FilledIsGenuine(ops: seq<Op>, x: nat)
    requires forall op | op in ops :: WellFormed(op)
    ensures SameScript(ops, Filled(ops, x))
    ensures forall op | op in Filled(ops, x) :: Genuine(Turning(x), op)
  {
    if ops != [] {
      var init, op := ops[..|ops| - 1], ops[|ops| - 1];
      assert op in ops && forall o | o in init :: o in ops;
      FilledIsGenuine(init, x);
      FilledOpGenuine(op, x);
    }
  }

  lemma TurningIsSound(x: nat)
    ensures Sound(Turning(x)) && NeverCrossed(Turning(x))
  {
  }

  // ---- The filled run ----

  predicate Shows(b: BookValue, s: Sides) {
    b.bids == s.bids && b.asks == s.asks
  }

  /** A filled book never has two sides, so no integrity check can fail on it. */
  predicate Tame(b: BookValue, x: nat) {
    && (Shows(b, Sides(map[], map[])) || Shows(b, ONE_BID) || Shows(b, ONE_ASK))
    && forall e | e in b.buffer :: e == FilledEvent(e, x)
  }

  lemma ApplyFilled(b: BookValue, e: Event, x: nat)
    requires Tame(b, x) && e == FilledEvent(e, x)
    ensures Tame(Apply(b, e), x)
    ensures e.prev > x ==> Apply(b, e) == b.(lastUpdateId := e.last)
  {
    if e.prev <= x < e.last {
      OverlayDelete(b.bids, HIGH);
      ListedOne(Level(LOW, 1.0));
    }
  }

  lemma {:induction false} ReplayFilled(b: BookValue, es: seq<Event>, x: nat, id: nat)
    requires Tame(b, x) && forall e | e in es :: e == FilledEvent(e, x)
    ensures var r := Replay(b, es, id);
            Tame(r.book, x) && (r.ok && !r.applied ==> r.book == b)
  {
    if es != [] {
      var init, e := es[..|es| - 1], es[|es| - 1];
      assert e in es && forall f | f in init :: f in es;
      ReplayFilled(b, init, x, id);
      ApplyFilled(Replay(b, init, id).book, e, x);
    }
  }

  lemma LoadFilled(b: BookValue, s: Snapshot, x: nat)
    requires Sync(s) == FilledOp(Sync(s), x)
    ensures Tame(Loaded(b, s), x) && Shows(Loaded(b, s), Turning(x)(s.id))
  {
    ListedOne(Level(HIGH, 1.0));
    ListedOne(Level(LOW, 1.0));
  }

  /** On the epoch loaded at the turn: the book shows the venue as it was then, and
      still does when its unchecked event has come from beyond. */
  predicate StuckBefore(w: Watched, load: nat, x: nat) {
    w.book.mode == Live && load == x ==>
      && (w.book.needFirst ==> !w.suspect && w.book.lastUpdateId == x && Shows(w.book, ONE_BID))
      && (w.suspect ==> w.book.lastUpdateId > x && Shows(w.book, ONE_BID))
  }

  lemma DepthFilled(w: Watched, e: Event, load: nat, x: nat)
    requires Tame(w.book, x) && StuckBefore(w, load, x) && e == FilledEvent(e, x)
    ensures Quiet(w.book, Depth(e))
    ensures Tame(Step(w.book, Depth(e)).book, x) && StuckBefore(WatchStep(w, Depth(e)), load, x)
  {
    var b := w.book;
    if Examined(b, e) {
      ApplyFilled(b.(needFirst := false), e, x);
    }
  }

  lemma SyncFilled(w: Watched, s: Snapshot, load: nat, x: nat)
    requires Tame(w.book, x) && StuckBefore(w, load, x) && Sync(s) == FilledOp(Sync(s), x)
    ensures Quiet(w.book, Sync(s))
    ensures Tame(Step(w.book, Sync(s)).book, x)
    ensures StuckBefore(WatchStep(w, Sync(s)), if w.book.mode == Buffering then s.id else load, x)
  {
    if w.book.mode == Buffering {
      LoadFilled(w.book, s, x);
      ReplayFilled(Loaded(w.book, s), w.book.buffer, x, s.id);
    }
  }

  lemma StepAppend(ops: seq<Op>, op: Op)
    ensures Run(ops + [op]) == Step(Run(ops), op).book && Watch(ops + [op]) == WatchStep(Watch(ops), op)
    ensures QuietRun(ops + [op]) <==> Forgets(op) || (QuietRun(ops) && Quiet(Run(ops), op))
    ensures LoadId(ops + [op]) == if op.Sync? && Run(ops).mode == Buffering then op.snapshot.id else LoadId(ops)
  {
    assert (ops + [op])[..|ops|] == ops;
  }

  lemma FilledStep(w: Watched, op: Op, load: nat, x: nat)
    requires Tame(w.book, x) && StuckBefore(w, load, x) && op == FilledOp(op, x)
    ensures Quiet(w.book, op) && Tame(Step(w.book, op).book, x)
    ensures StuckBefore(WatchStep(w, op), if op.Sync? && w.book.mode == Buffering then op.snapshot.id else load, x)
  {
    match op
    case Depth(e) => DepthFilled(w, e, load, x);
    case Sync(s) => SyncFilled(w, s, load, x);
    case _ =>
  }

  lemma {:induction false} FilledRun(ops: seq<Op>, x: nat)
    ensures QuietRun(Filled(ops, x)) && Tame(Run(Filled(ops, x)), x)
    ensures StuckBefore(Watch(Filled(ops, x)), LoadId(Filled(ops, x)), x)
  {
    if ops != [] {
      var init, op := ops[..|ops| - 1], FilledOp(ops[|ops| - 1], x);
      var done := Filled(init, x);
      FilledRun(init, x);
      WatchIsRun(done);
      FilledStep(Watch(done), op, LoadId(done), x);
      StepAppend(done, op);
      assert Filled(ops, x) == done + [op];
    }
  }

  /** The filled run takes the script's decisions, so it stands where the script's
      suspicion puts it. */
  lemma FilledFollows(ops: seq<Op>)
    requires QuietRun(ops) && forall op | op in ops :: WellFormed(op)
    ensures var x := LoadId(ops);
            var full := Filled(ops, x);
            && CouldBe(Turning(x), ops, full) && SameControl(Run(ops), Run(full))
            && Watch(full).book == Run(full)
            && (Run(ops).mode == Live ==> Watch(full).suspect == Watch(ops).suspect && StuckBefore(Watch(full), x, x))
  {
    var x := LoadId(ops);
    FilledIsGenuine(ops, x);
    TurningIsSound(x);
    FilledRun(ops, x);
    RunSameControl(ops, Filled(ops, x));
    WatchIsRun(Filled(ops, x));
  }

  // ---- The theorems ----

  /** For every script of ids, with any loss, duplication, reordering or staleness:
      the live book is right for every venue and every content it could have sent
      under those ids if and only if the event accepted unchecked did not begin
      after the snapshot. */
  lemma ExceptionIsExact(ops: seq<Op>)
    requires QuietRun(ops) && (forall op | op in ops :: WellFormed(op)) && Run(ops).mode == Live
    ensures (forall U: Truth, others | CouldBe(U, ops, others) :: Truthful(Run(others), U, Watch(others).covers))
            <==> !Watch(ops).suspect
  {
    if Watch(ops).suspect {
      var x := LoadId(ops);
      var full := Filled(ops, x);
      FilledFollows(ops);
      assert CouldBe(Turning(x), ops, full);
      assert HIGH in Run(full).bids && HIGH !in Turning(x)(Run(full).lastUpdateId).bids;
    } else {
      forall U: Truth, others | CouldBe(U, ops, others)
        ensures Truthful(Run(others), U, Watch(others).covers)
      {
        RunSameControl(ops, others);
        LiveBookIsTrue(U, others);
      }
    }
  }

  /** The event that restates the lone ask from beyond the turn crosses the book
      that still shows the lone bid. */
  lemma RestatedAskCrosses(b: BookValue, e: Event, x: nat)
    requires e.prev < e.first <= e.last && e.prev > x
    requires Examined(b, e) && Shows(b, ONE_BID)
    ensures var f := e.(bids := [], asks := [Level(LOW, 1.0)]);
            GenuineEvent(Turning(x), f) && OnDepth(b, f).action == NeedSnapshot
  {
    var f := e.(bids := [], asks := [Level(LOW, 1.0)]);
    forall p ensures Reported(f.asks, p) == if p == LOW then Some(1.0) else None {
      ReportedOne(Level(LOW, 1.0), p);
    }
    ListedOne(Level(LOW, 1.0));
    var next := Apply(b.(needFirst := false), f);
    assert HIGH in next.bids && LOW in next.asks;
    assert Crossed(next);
  }

  lemma SuspectCanAlarm(ops: seq<Op>, e: Event) returns (U: Truth, others: seq<Op>, f: Event)
    requires QuietRun(ops) && (forall op | op in ops :: WellFormed(op)) && WellFormed(Depth(e))
    requires Examined(Run(ops), e) && WatchStep(Watch(ops), Depth(e)).suspect
    ensures NeverCrossed(U) && CouldBe(U, ops, others) && SameEventIds(e, f) && GenuineEvent(U, f)
    ensures OnDepth(Run(others), f).action == NeedSnapshot
  {
    var x := LoadId(ops);
    U, others := Turning(x), Filled(ops, x);
    f := e.(bids := [], asks := [Level(LOW, 1.0)]);
    WatchIsRun(ops);
    FilledFollows(ops);
    TurningIsSound(x);
    RestatedAskCrosses(Run(others), e, x);
  }

  lemma AlarmNeedsSuspect(ops: seq<Op>, e: Event, U: Truth, others: seq<Op>, f: Event)
    requires QuietRun(ops) && NoTicker(ops) && Examined(Run(ops), e)
    requires NeverCrossed(U) && CouldBe(U, ops, others) && SameEventIds(e, f) && GenuineEvent(U, f)
    requires OnDepth(Run(others), f).action == NeedSnapshot
    ensures WatchStep(Watch(ops), Depth(e)).suspect
  {
    WatchIsRun(ops);
    RunSameControl(ops, others);
    SameScriptKeepsNoTicker(ops, others);
    AlarmMeansSuspect(U, others, f);
  }

  /** When can the next event make a live book of a venue that never crosses ask for
      a snapshot? For some venue and content under these ids, with no ticker, exactly
      when the event accepted unchecked, this one or an earlier one of the epoch,
      began after the snapshot. */
  lemma AlarmIff(ops: seq<Op>, e: Event)
    requires QuietRun(ops) && (forall op | op in ops :: WellFormed(op)) && WellFormed(Depth(e))
    requires NoTicker(ops) && Examined(Run(ops), e)
    ensures (exists U: Truth, others, f |
               NeverCrossed(U) && CouldBe(U, ops, others) && SameEventIds(e, f) && GenuineEvent(U, f) ::
               OnDepth(Run(others), f).action == NeedSnapshot)
            <==> WatchStep(Watch(ops), Depth(e)).suspect
  {
    if WatchStep(Watch(ops), Depth(e)).suspect {
      var U, others, f := SuspectCanAlarm(ops, e);
    }
    forall U: Truth, others, f |
      NeverCrossed(U) && CouldBe(U, ops, others) && SameEventIds(e, f) && GenuineEvent(U, f) &&
      OnDepth(Run(others), f).action == NeedSnapshot
      ensures WatchStep(Watch(ops), Depth(e)).suspect
    {
      AlarmNeedsSuspect(ops, e, U, others, f);
    }
  }

  lemma SameScriptKeepsNoTicker(ops: seq<Op>, others: seq<Op>)
    requires SameScript(ops, others) && NoTicker(ops)
    ensures NoTicker(others)
  {
    forall op | op in others ensures !op.Ticker? {
      var i :| 0 <= i < |others| && others[i] == op;
      assert SameIds(ops[i], others[i]) && ops[i] in ops;
    }
  }

  // ---- Timeliness ----

  lemma {:induction false} LosslessIsWellFormed(ops: seq<Op>)
    requires Along(Lossless, ops)
    ensures forall op | op in ops :: WellFormed(op)
  {
    if ops != [] {
      LosslessIsWellFormed(ops[..|ops| - 1]);
      assert ops == ops[..|ops| - 1] + [ops[|ops| - 1]];
    }
  }

  lemma UnbridgedThenNext(ops: seq<Op>, s: Snapshot, e: Event)
    requires var all := ops + [Sync(s)] + [Depth(e)]; Along(Lossless, all) && QuietRun(all)
    requires Run(ops).mode == Buffering && Run(ops).buffer == [] && e.last > s.id
    ensures var all := ops + [Sync(s)] + [Depth(e)];
            Run(all).mode == Live && (Watch(all).suspect <==> !Timely(Feed(ops), s))
  {
    var loaded := ops + [Sync(s)];
    var all := loaded + [Depth(e)];
    FeedAppend(Lossless, ops, Sync(s));
    FeedAppend(Lossless, loaded, Depth(e));
    assert loaded[..|ops|] == ops && all[..|loaded|] == loaded;
    LosslessLinks(ops);
    WatchIsRun(ops);
    WatchIsRun(loaded);
    assert Replay(Loaded(Run(ops), s), [], s.id) == Replayed(Loaded(Run(ops), s), true, false);
  }

  /** A snapshot taken up with nothing buffered, over lossless delivery: the live
      book after the next event is right for every venue and content under these ids
      if and only if the snapshot was no older than the last delivery. */
  lemma SafeWithoutBridgeIff(ops: seq<Op>, s: Snapshot, e: Event)
    requires var all := ops + [Sync(s)] + [Depth(e)]; Along(Lossless, all) && QuietRun(all)
    requires Run(ops).mode == Buffering && Run(ops).buffer == [] && e.last > s.id
    ensures var all := ops + [Sync(s)] + [Depth(e)];
            (forall U: Truth, others | CouldBe(U, all, others) ::
               Truthful(Run(others), U, Watch(others).covers))
            <==> Timely(Feed(ops), s)
  {
    var all := ops + [Sync(s)] + [Depth(e)];
    UnbridgedThenNext(ops, s, e);
    LosslessIsWellFormed(all);
    ExceptionIsExact(all);
  }
}
