/** Whenever a book is live it is the venue's book, over every run of genuine
    input in any order, with one exception that is pinned down exactly. */
module TruthAgreement {
  import opened Levels
  import opened BookModel
  import opened Venue

  ghost predicate Genuine(T: Truth, op: Op) {
    match op
    case Depth(e) => GenuineEvent(T, e)
    case Sync(s) => GenuineSnapshot(T, s)
    case _ => true
  }

  /** A run with what an observer can note down beside it: the prices the book
      answers for, that is the window of the snapshot it was last loaded from and
      every price mentioned since by the snapshot, the replay or a live event; and
      whether the event accepted unchecked since then began after the snapshot. */
  datatype Watched = Watched(book: BookValue, covers: Covers, suspect: bool)

  const EMPTY_COVER := Cover(Whole, {})

  function WatchStep(w: Watched, op: Op): Watched {
    var next := Step(w.book, op).book;
    match op
    case Depth(e) =>
      Watched(next, if Examined(w.book, e) then Grown(w.covers, e) else w.covers,
              w.suspect || (Unchecked(w.book, e) && e.prev > w.book.lastUpdateId))
    case Sync(s) =>
      if w.book.mode == Buffering
      then Watched(next, GrownAll(CoversOf(s), Kept(w.book.buffer, s.id)), false)
      else w.(book := next)
    case _ => w.(book := next)
  }

  function Watch(ops: seq<Op>): Watched {
    if ops == [] then Watched(FRESH, Covers(EMPTY_COVER, EMPTY_COVER), false)
    else WatchStep(Watch(ops[..|ops| - 1]), ops[|ops| - 1])
  }

  ghost predicate Holds(T: Truth, w: Watched) {
    && (forall e | e in w.book.buffer :: GenuineEvent(T, e))
    && (w.book.mode == Live && !w.suspect ==> Truthful(w.book, T, w.covers))
  }

  lemma DepthKeepsTruth(T: Truth, w: Watched, e: Event)
    requires Sound(T) && Holds(T, w) && GenuineEvent(T, e)
    ensures Holds(T, WatchStep(w, Depth(e)))
  {
    var b, next := w.book, WatchStep(w, Depth(e));
    if next.book.mode == Live && !next.suspect && e.last > b.lastUpdateId {
      ApplyTruthful(T, b.(needFirst := false), e, w.covers);
    }
  }

  lemma SyncKeepsTruth(T: Truth, w: Watched, s: Snapshot)
    requires Sound(T) && Holds(T, w) && GenuineSnapshot(T, s)
    ensures Holds(T, WatchStep(w, Sync(s)))
  {
    if w.book.mode == Buffering {
      LoadedTruthful(T, w.book, s);
      ReplayTruthful(T, Loaded(w.book, s), w.book.buffer, s.id, CoversOf(s));
    }
  }

  /** Every run: loss, duplication, reordering, stale snapshots, resets, resyncs and
      ticker updates in any order. At its last update id a live book shows exactly
      the venue's levels at every price it answers for, the snapshot's window and
      all prices touched since, and nothing elsewhere, unless its one unchecked
      event began after the snapshot it was loaded from. */
  lemma {:induction false} LiveBookIsTrue(T: Truth, ops: seq<Op>)
    requires Sound(T) && forall op | op in ops :: Genuine(T, op)
    ensures Watch(ops).book == Run(ops)
    ensures Holds(T, Watch(ops))
  {
    if ops != [] {
      var init, op := ops[..|ops| - 1], ops[|ops| - 1];
      assert op in ops;
      LiveBookIsTrue(T, init);
      match op {
        case Depth(e) => DepthKeepsTruth(T, Watch(init), e);
        case Sync(s) => SyncKeepsTruth(T, Watch(init), s);
        case _ =>
      }
    }
  }

  // ---- The published levels of a live book ----

  /** The price would be among the `n` best levels if a side listing `top` held it. */
  predicate Reaches(k: Kind, top: seq<Level>, n: nat, p: Price) {
    |top| < n || (top != [] && !Better(k, top[|top| - 1].price, p))
  }

  predicate NeverWrong(side: Side, truth: Side) {
    forall p | p in side :: p in truth && side[p] == truth[p]
  }

  ghost predicate NoneMissed(k: Kind, side: Side, truth: Side, n: nat) {
    forall p | p in truth && Reaches(k, Top(k, side, n), n, p) :: p in side
  }

  lemma TopOfRest(k: Kind, s: Side, n: nat)
    requires 0 < n && s != map[]
    ensures var p := Best(k, s.Keys);
            Top(k, s, n) == [Level(p, s[p])] + Top(k, s - {p}, n - 1)
  {
    var p := Best(k, s.Keys);
    assert Ranked(k, s) == [Level(p, s[p])] + Ranked(k, s - {p});
  }

  lemma BestIsShared(k: Kind, side: Side, truth: Side, n: nat)
    requires NeverWrong(side, truth) && side != map[] && n > 0 && NoneMissed(k, side, truth, n)
    ensures truth != map[] && Best(k, truth.Keys) == Best(k, side.Keys)
  {
    var p, top := Best(k, side.Keys), Top(k, side, n);
    assert p in truth;
    var q := Best(k, truth.Keys);
    TopShape(k, side, n);
    TopOfRest(k, side, n);
    assert top[0].price == p && (|top| > 1 ==> Better(k, p, top[|top| - 1].price));
    assert !Better(k, p, q);
    assert Reaches(k, top, n, q);
    assert q in side && !Better(k, q, p);
    assert p == q;
  }

  lemma RestMissesNone(k: Kind, side: Side, truth: Side, n: nat)
    requires NeverWrong(side, truth) && side != map[] && n > 0 && NoneMissed(k, side, truth, n)
    ensures var p := Best(k, side.Keys);
            NeverWrong(side - {p}, truth - {p}) && NoneMissed(k, side - {p}, truth - {p}, n - 1)
  {
    var p := Best(k, side.Keys);
    TopOfRest(k, side, n);
    var top, rest := Top(k, side, n), Top(k, side - {p}, n - 1);
    assert rest != [] ==> rest[|rest| - 1] == top[|top| - 1];
    forall q | q in truth - {p} && Reaches(k, rest, n - 1, q) ensures q in side - {p} {
      assert Reaches(k, top, n, q);
    }
  }

  lemma {:induction false} NoneMissedSuffices(k: Kind, side: Side, truth: Side, n: nat)
    requires NeverWrong(side, truth) && NoneMissed(k, side, truth, n)
    ensures Top(k, side, n) == Top(k, truth, n)
  {
    if n > 0 {
      if side == map[] {
        assert forall p :: p !in truth;
        assert truth == map[];
      } else {
        var p := Best(k, side.Keys);
        BestIsShared(k, side, truth, n);
        RestMissesNone(k, side, truth, n);
        NoneMissedSuffices(k, side - {p}, truth - {p}, n - 1);
        TopOfRest(k, side, n);
        TopOfRest(k, truth, n);
      }
    }
  }

  /** The top `n` levels of a side that is nowhere wrong are the venue's own top `n`
      exactly when the side misses none that would be among them. */
  lemma TopIsTrueIff(k: Kind, side: Side, truth: Side, n: nat)
    requires NeverWrong(side, truth)
    ensures Top(k, side, n) == Top(k, truth, n) <==> NoneMissed(k, side, truth, n)
  {
    if Top(k, side, n) == Top(k, truth, n) {
      var top := Top(k, truth, n);
      TopShape(k, side, n);
      TopShape(k, truth, n);
      RankedShape(k, truth);
      forall p | p in truth && Reaches(k, top, n, p) ensures p in side {
        assert Level(p, truth[p]) in Ranked(k, truth);
        assert Level(p, truth[p]) in top;
      }
    } else if NoneMissed(k, side, truth, n) {
      NoneMissedSuffices(k, side, truth, n);
    }
  }

  /** So they are whenever the book answers for every venue price that would be
      among them; in particular whenever `n` are listed and the worst of those lies
      in the snapshot's window. */
  lemma TopIsTrue(k: Kind, side: Side, truth: Side, c: Cover, n: nat)
    requires Faithful(k, side, truth, c)
    requires var top := Top(k, side, n);
             || (forall p | p in truth && Reaches(k, top, n, p) :: Answers(k, c, p))
             || (|top| == n && (n > 0 ==> InWindow(k, c.window, top[n - 1].price)))
    ensures Top(k, side, n) == Top(k, truth, n)
  {
    assert NoneMissed(k, side, truth, n);
    TopIsTrueIff(k, side, truth, n);
  }

  // ---- The exception, exactly ----

  lemma {:induction false} Above(s: set<Price>, floor: real) returns (p: Price)
    ensures p.value >= floor
    ensures forall q | q in s :: q.value < p.value
  {
    if s == {} {
      p := Price(floor);
    } else {
      var x :| x in s;
      var rest := s - {x};
      assert forall q | q in s :: q == x || q in rest;
      p := Above(rest, floor);
      if p.value <= x.value {
        p := Price(x.value + 1.0);
      }
    }
  }

  /** The venue as it was up to `since`, with one more bid from then on. */
  function WithBid(T: Truth, since: nat, p: Price): Truth {
    (t: nat) => if t <= since then T(t) else T(t).(bids := T(t).bids[p := 1.0])
  }

  lemma WithBidGenuine(T: Truth, since: nat, p: Price, e: Event)
    requires Sound(T) && GenuineEvent(T, e) && e.prev > since && Reported(e.bids, p) == None
    ensures Sound(WithBid(T, since, p)) && GenuineEvent(WithBid(T, since, p), e)
  {
    var U := WithBid(T, since, p);
    forall t: nat ensures Positive(U(t).bids) && Positive(U(t).asks) {
      assert Positive(T(t).bids) && Positive(T(t).asks);
    }
    forall t: nat | e.prev <= t <= e.last
      ensures Explains(U(t).bids, U(e.last).bids, e.bids) && Explains(U(t).asks, U(e.last).asks, e.asks)
    {
      assert Explains(T(t).bids, T(e.last).bids, e.bids) && Explains(T(t).asks, T(e.last).asks, e.asks);
      forall q
        ensures Qty(U(e.last).bids, q) == match Reported(e.bids, q) { case Some(x) => x case None => Qty(U(t).bids, q) }
      {
        assert Qty(T(e.last).bids, q) == match Reported(e.bids, q) { case Some(x) => x case None => Qty(T(t).bids, q) };
      }
    }
  }

  /** If the unchecked event began after the snapshot, some venue with the same past
      up to the book's id could have sent it and now differs from the book. */
  lemma UncheckedHole(T: Truth, b: BookValue, e: Event, cs: Covers) returns (U: Truth)
    requires Sound(T) && Truthful(b, T, cs) && GenuineEvent(T, e)
    requires Unchecked(b, e) && OnDepth(b, e).action == Publish && e.prev > b.lastUpdateId
    ensures Sound(U) && Truthful(b, U, cs) && GenuineEvent(U, e)
    ensures !Truthful(OnDepth(b, e).book, U, Grown(cs, e))
    ensures forall t: nat | t <= b.lastUpdateId :: U(t) == T(t)
  {
    var w := cs.bids.window;
    var p := Above(Mentioned(e.bids) + b.bids.Keys, if w.Whole? then 0.0 else w.edge.value);
    UnmentionedIsUnreported(e.bids, p);
    WithBidGenuine(T, b.lastUpdateId, p, e);
    U := WithBid(T, b.lastUpdateId, p);
    assert p !in b.bids;
    OverlayAt(b.bids, e.bids, p);
    assert p in U(e.last).bids && Answers(Bid, cs.bids, p);
    assert p !in OnDepth(b, e).book.bids;
  }

  /** The unchecked event keeps the book true of every venue that could have sent
      it if and only if it began no later than the snapshot. */
  lemma UncheckedEventSafeIff(T: Truth, b: BookValue, e: Event, cs: Covers)
    requires Sound(T) && Truthful(b, T, cs) && GenuineEvent(T, e)
    requires Unchecked(b, e) && OnDepth(b, e).action == Publish
    ensures (forall U: Truth | Sound(U) && Truthful(b, U, cs) && GenuineEvent(U, e) ::
               Truthful(OnDepth(b, e).book, U, Grown(cs, e)))
            <==> e.prev <= b.lastUpdateId
  {
    if e.prev <= b.lastUpdateId {
      forall U: Truth | Sound(U) && Truthful(b, U, cs) && GenuineEvent(U, e)
        ensures Truthful(OnDepth(b, e).book, U, Grown(cs, e))
      {
        ApplyTruthful(U, b.(needFirst := false), e, cs);
      }
    } else {
      var U := UncheckedHole(T, b, e, cs);
    }
  }
}
