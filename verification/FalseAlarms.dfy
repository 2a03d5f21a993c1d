/** No false alarms: over lossless delivery a snapshot is refused exactly when it
    cannot be bridged and no gap is ever counted, whatever the age of the snapshots;
    a live book asks for another only in the one exceptional situation, and over
    timely delivery never. */
module FalseAlarms {
  import opened Levels
  import opened BookModel
  import opened Venue
  import opened TruthAgreement
  import opened Delivery

  ghost predicate NeverCrossed(T: Truth) {
    forall t: nat, p, q | p in T(t).bids && q in T(t).asks :: p.value < q.value
  }

  /** The first event at or after an id, by its position. */
  ghost predicate FirstFrom(es: seq<Event>, id: nat, i: nat) {
    i < |es| && es[i].last >= id && forall j | 0 <= j < i :: es[j].last < id
  }

  /** The documented bridge: the first buffered event not older than the snapshot,
      if there is one, starts no later than the snapshot. */
  ghost predicate Bridged(es: seq<Event>, id: nat) {
    forall i: nat | FirstFrom(es, id, i) :: es[i].first <= id
  }

  lemma {:induction false} ReplayOkIff(b: BookValue, es: seq<Event>, id: nat)
    requires Rising(es) && Chained(es) && b.lastUpdateId == id
    ensures Replay(b, es, id).ok <==> Bridged(es, id)
  {
    if es != [] {
      var n := |es| - 1;
      var init := es[..n];
      ReplayOkIff(b, init, id);
      ReplayReachesEnd(b, init, id);
      BridgedStep(es, id);
    }
  }

  lemma BridgedStep(es: seq<Event>, id: nat)
    requires es != []
    ensures var n := |es| - 1;
            && (Bridged(es, id) ==> Bridged(es[..n], id))
            && (Bridged(es[..n], id) && (forall e | e in es[..n] :: e.last < id) ==>
                  (Bridged(es, id) <==> es[n].last < id || es[n].first <= id))
            && (Bridged(es[..n], id) && (exists j :: 0 <= j < n && es[j].last >= id) ==> Bridged(es, id))
  {
    var n := |es| - 1;
    var init := es[..n];
    assert forall i: nat | FirstFrom(init, id, i) :: FirstFrom(es, id, i);
    assert forall i: nat | FirstFrom(es, id, i) && i < n :: FirstFrom(init, id, i);
    assert forall i | 0 <= i < n :: init[i] in init;
    assert (forall e | e in init :: e.last < id) && es[n].last >= id ==> FirstFrom(es, id, n);
  }

  lemma TrueBookPassesCheck(T: Truth, b: BookValue, cs: Covers)
    requires NeverCrossed(T) && Truthful(b, T, cs) && b.tickerBid == ZERO
    ensures CheckIntegrity(b) == Checked(b, true)
  {
    if TwoSided(b) {
      assert Best(Bid, b.bids.Keys) in T(b.lastUpdateId).bids;
      assert Best(Ask, b.asks.Keys) in T(b.lastUpdateId).asks;
    }
  }

  predicate NoTicker(ops: seq<Op>) {
    forall op | op in ops :: !op.Ticker?
  }

  lemma {:induction false} TickerStaysUnset(ops: seq<Op>)
    requires NoTicker(ops)
    ensures Run(ops).tickerBid == ZERO
  {
    if ops != [] {
      var init, op := ops[..|ops| - 1], ops[|ops| - 1];
      assert op in ops;
      TickerStaysUnset(init);
    }
  }

  lemma RefusedExactlyUnbridged(T: Truth, ops: seq<Op>, s: Snapshot)
    requires Sound(T) && NeverCrossed(T) && NoTicker(ops)
    requires (forall o | o in ops :: Genuine(T, o)) && GenuineSnapshot(T, s)
    requires Along(Lossless, ops) && Run(ops).mode == Buffering
    ensures OnSnapshot(Run(ops), s).live <==> Bridged(Run(ops).buffer, s.id)
  {
    var b, loaded := Run(ops), Loaded(Run(ops), s);
    LiveBookIsTrue(T, ops);
    LosslessLinks(ops);
    TickerStaysUnset(ops);
    ReplayOkIff(loaded, b.buffer, s.id);
    LoadedTruthful(T, b, s);
    ReplayTruthful(T, loaded, b.buffer, s.id, CoversOf(s));
    var r := Replay(loaded, b.buffer, s.id);
    if r.ok {
      TrueBookPassesCheck(T, GoLive(r), GrownAll(CoversOf(s), Kept(b.buffer, s.id)));
    }
  }

  /** A live book applies the next event and publishes, unless the event it accepted
      unchecked began after its snapshot. */
  lemma AlarmMeansSuspect(T: Truth, ops: seq<Op>, e: Event)
    requires Sound(T) && NeverCrossed(T) && NoTicker(ops)
    requires (forall o | o in ops :: Genuine(T, o)) && GenuineEvent(T, e)
    requires Examined(Run(ops), e)
    ensures Watch(ops).book == Run(ops)
    ensures OnDepth(Run(ops), e).action == NeedSnapshot ==> WatchStep(Watch(ops), Depth(e)).suspect
  {
    LiveBookIsTrue(T, ops);
    TickerStaysUnset(ops);
    var b, w := Run(ops), Watch(ops);
    if !WatchStep(w, Depth(e)).suspect {
      ApplyTruthful(T, b.(needFirst := false), e, w.covers);
      TrueBookPassesCheck(T, Apply(b.(needFirst := false), e), Grown(w.covers, e));
    }
  }

  /** Over lossless delivery from a venue that never crosses, with no ticker, and
      with snapshots of any age: a snapshot is refused exactly when it cannot be
      bridged, no gap is ever counted, and a live book asks for another only when its
      unchecked event began after its snapshot. */
  lemma NoFalseAlarms(T: Truth, ops: seq<Op>, op: Op)
    requires Sound(T) && NeverCrossed(T) && NoTicker(ops)
    requires (forall o | o in ops :: Genuine(T, o)) && Genuine(T, op)
    requires Along(Lossless, ops) && Lossless(Feed(ops), op)
    ensures op.Sync? && Run(ops).mode == Buffering ==>
              (OnSnapshot(Run(ops), op.snapshot).live <==> Bridged(Run(ops).buffer, op.snapshot.id))
    ensures Run(ops).gaps == Step(Run(ops), op).book.gaps == 0
    ensures op.Depth? && Run(ops).mode == Live && OnDepth(Run(ops), op.event).action == NeedSnapshot ==>
              WatchStep(Watch(ops), op).suspect
  {
    LosslessLinks(ops);
    StepKeepsLinked(Feed(ops), op);
    if op.Sync? && Run(ops).mode == Buffering {
      RefusedExactlyUnbridged(T, ops, op.snapshot);
    } else if op.Depth? && Examined(Run(ops), op.event) {
      AlarmMeansSuspect(T, ops, op.event);
    }
  }

  /** When snapshots are timely too, a live book never asks for another. */
  lemma NoFalseAlarmsInTime(T: Truth, ops: seq<Op>, e: Event)
    requires Sound(T) && NeverCrossed(T) && NoTicker(ops)
    requires (forall o | o in ops :: Genuine(T, o)) && GenuineEvent(T, e)
    requires Along(LosslessTimely, ops) && Lossless(Feed(ops), Depth(e))
    requires Run(ops).mode == Live
    ensures var r := OnDepth(Run(ops), e);
            r.action != NeedSnapshot && r.book.mode == Live && r.book.gaps == 0
  {
    TimelyIsLossless(ops);
    NeverSuspect(ops);
    StepKeepsUpToDate(Feed(ops), Depth(e));
    NoFalseAlarms(T, ops, Depth(e));
  }
}
