/** The venue's own book, as the thing a synchronised book is compared with, and
    what it means for a diff, a snapshot and a book to be true of it. */
module Venue {
  import opened Levels
  import opened BookModel

  datatype Sides = Sides(bids: Side, asks: Side)

  /** The venue's book after each update id. */
  type Truth = nat -> Sides

  /** Levels requested from the REST endpoint. */
  const DEPTH_LIMIT: nat := 500

  ghost predicate Sound(T: Truth) {
    forall t: nat :: Positive(T(t).bids) && Positive(T(t).asks)
  }

  // ---- Genuine input ----

  /** Between the two books, every level either is reported with the quantity it
      ends up with or did not change: diffs carry absolute quantities. */
  ghost predicate Explains(before: Side, after: Side, ls: seq<Level>) {
    forall p :: Qty(after, p) == match Reported(ls, p) { case Some(q) => q case None => Qty(before, p) }
  }

  /** A diff the venue really sent: it covers (prev, last] and so explains the step
      to `last` from any id in that range. */
  ghost predicate GenuineEvent(T: Truth, e: Event) {
    && e.prev < e.first <= e.last
    && forall t: nat | e.prev <= t <= e.last ::
         Explains(T(t).bids, T(e.last).bids, e.bids) && Explains(T(t).asks, T(e.last).asks, e.asks)
  }

  /** The prices a truncated listing speaks for: all, or those no worse than an edge. */
  datatype Window = Whole | DownTo(edge: Price)

  predicate InWindow(k: Kind, w: Window, p: Price) {
    w.Whole? || !Better(k, w.edge, p)
  }

  function WindowOf(ls: seq<Level>): Window {
    if |ls| < DEPTH_LIMIT then Whole else DownTo(ls[|ls| - 1].price)
  }

  /** Listed quantities are the venue's, and no level within the window is missing. */
  ghost predicate GenuineListing(k: Kind, truth: Side, ls: seq<Level>) {
    && (forall l | l in ls :: l.qty == Qty(truth, l.price))
    && (forall p | p in truth && InWindow(k, WindowOf(ls), p) :: Level(p, truth[p]) in ls)
  }

  ghost predicate GenuineSnapshot(T: Truth, s: Snapshot) {
    GenuineListing(Bid, T(s.id).bids, s.bids) && GenuineListing(Ask, T(s.id).asks, s.asks)
  }

  /** The endpoint's answer, the best DEPTH_LIMIT levels, is such a listing. */
  lemma TopListingIsGenuine(k: Kind, truth: Side)
    requires Positive(truth)
    ensures GenuineListing(k, truth, Top(k, truth, DEPTH_LIMIT))
  {
    var ls := Top(k, truth, DEPTH_LIMIT);
    TopShape(k, truth, DEPTH_LIMIT);
    RankedShape(k, truth);
    if |ls| == DEPTH_LIMIT {
      assert ls[|ls| - 1] in ls;
    } else {
      assert ls == Ranked(k, truth);
    }
    forall p | p in truth && InWindow(k, WindowOf(ls), p) ensures Level(p, truth[p]) in ls {
      assert Level(p, truth[p]) in Ranked(k, truth);
    }
  }

  // ---- True books ----

  function Mentioned(ls: seq<Level>): set<Price> {
    set l | l in ls :: l.price
  }

  /** The prices a side answers for: the window of the listing it was loaded from,
      and every price the listing or a diff since has mentioned. */
  datatype Cover = Cover(window: Window, touched: set<Price>)

  predicate Answers(k: Kind, c: Cover, p: Price) {
    InWindow(k, c.window, p) || p in c.touched
  }

  function CoverOf(ls: seq<Level>): Cover {
    Cover(WindowOf(ls), Mentioned(ls))
  }

  function Touch(c: Cover, ls: seq<Level>): Cover {
    c.(touched := c.touched + Mentioned(ls))
  }

  /** A side shows exactly the venue's levels at the prices it answers for, and
      nothing at any other price. */
  ghost predicate Faithful(k: Kind, side: Side, truth: Side, c: Cover) {
    && (forall p :: p in side <==> p in truth && Answers(k, c, p))
    && (forall p | p in side :: side[p] == truth[p])
  }

  datatype Covers = Covers(bids: Cover, asks: Cover)

  function CoversOf(s: Snapshot): Covers {
    Covers(CoverOf(s.bids), CoverOf(s.asks))
  }

  function Grown(cs: Covers, e: Event): Covers {
    Covers(Touch(cs.bids, e.bids), Touch(cs.asks, e.asks))
  }

  function GrownAll(cs: Covers, es: seq<Event>): Covers {
    if es == [] then cs else Grown(GrownAll(cs, es[..|es| - 1]), es[|es| - 1])
  }

  /** The book agrees with the venue's book at its own last update id. */
  ghost predicate Truthful(b: BookValue, T: Truth, cs: Covers) {
    && Faithful(Bid, b.bids, T(b.lastUpdateId).bids, cs.bids)
    && Faithful(Ask, b.asks, T(b.lastUpdateId).asks, cs.asks)
  }

  /** A listing cut short by no limit answers for every price. */
  lemma WholeWindowMeansEqual(k: Kind, side: Side, truth: Side, c: Cover)
    requires Faithful(k, side, truth, c) && c.window.Whole?
    ensures side == truth
  {
    assert forall p :: p in side <==> p in truth;
  }

  lemma {:induction false} UnmentionedIsUnreported(ls: seq<Level>, p: Price)
    ensures Reported(ls, p).None? <==> p !in Mentioned(ls)
  {
    if ls != [] {
      var init := ls[..|ls| - 1];
      assert ls == init + [ls[|ls| - 1]];
      UnmentionedIsUnreported(init, p);
    }
  }

  /** Overlaying a diff on a faithful side gives a faithful side, from any id the
      diff covers, and the side now answers for the diff's prices too. */
  lemma OverlayFaithful(k: Kind, side: Side, before: Side, after: Side, ls: seq<Level>, c: Cover)
    requires Positive(before) && Positive(after)
    requires Faithful(k, side, before, c) && Explains(before, after, ls)
    ensures Faithful(k, Overlay(side, ls), after, Touch(c, ls))
  {
    var result := Overlay(side, ls);
    forall p
      ensures p in result <==> p in after && Answers(k, Touch(c, ls), p)
      ensures p in result ==> result[p] == after[p]
    {
      OverlayAt(side, ls, p);
      UnmentionedIsUnreported(ls, p);
      assert Qty(after, p) == match Reported(ls, p) { case Some(q) => q case None => Qty(before, p) };
    }
  }

  lemma ListedFaithful(k: Kind, truth: Side, ls: seq<Level>)
    requires Positive(truth) && GenuineListing(k, truth, ls)
    ensures Faithful(k, Listed(ls), truth, CoverOf(ls))
  {
    forall p
      ensures p in Listed(ls) <==> p in truth && Answers(k, CoverOf(ls), p)
      ensures p in Listed(ls) ==> Listed(ls)[p] == truth[p]
    {
      ListedAt(ls, p);
      if p in Listed(ls) {
        assert Level(p, Listed(ls)[p]) in ls;
      }
      if p in truth && InWindow(k, WindowOf(ls), p) {
        assert Level(p, truth[p]) in ls;
      }
    }
  }

  lemma ApplyTruthful(T: Truth, b: BookValue, e: Event, cs: Covers)
    requires Sound(T) && Truthful(b, T, cs) && GenuineEvent(T, e)
    requires e.prev <= b.lastUpdateId <= e.last
    ensures Truthful(Apply(b, e), T, Grown(cs, e))
  {
    var t := b.lastUpdateId;
    OverlayFaithful(Bid, b.bids, T(t).bids, T(e.last).bids, e.bids, cs.bids);
    OverlayFaithful(Ask, b.asks, T(t).asks, T(e.last).asks, e.asks, cs.asks);
  }

  lemma LoadedTruthful(T: Truth, b: BookValue, s: Snapshot)
    requires Sound(T) && GenuineSnapshot(T, s)
    ensures Truthful(Loaded(b, s), T, CoversOf(s))
  {
    ListedFaithful(Bid, T(s.id).bids, s.bids);
    ListedFaithful(Ask, T(s.id).asks, s.asks);
  }

  /** Replaying genuine events over a truthful book keeps it truthful, answering for
      every price replayed, and a replay that used nothing changed nothing. */
  lemma {:induction false} ReplayTruthful(T: Truth, b: BookValue, es: seq<Event>, id: nat, cs: Covers)
    requires Sound(T) && Truthful(b, T, cs) && b.lastUpdateId == id
    requires forall e | e in es :: GenuineEvent(T, e)
    ensures var r := Replay(b, es, id);
            r.ok ==> Truthful(r.book, T, GrownAll(cs, Kept(es, id))) && (!r.applied ==> r.book == b)
  {
    if es != [] {
      var init, e := es[..|es| - 1], es[|es| - 1];
      assert e in es;
      ReplayTruthful(T, b, init, id, cs);
      var r, kept := Replay(b, init, id), Kept(init, id);
      if r.ok && ReplayOne(r, e, id).ok && e.last >= id {
        ApplyTruthful(T, r.book, e, GrownAll(cs, kept));
        assert (kept + [e])[..|kept|] == kept;
      }
    }
  }
}
