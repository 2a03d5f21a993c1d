/** The observability counters: each is an exact count over the book's history, and
    none of them ever influences what the book does. */
module Counters {
  import opened Levels
  import opened BookModel

  // ---- Each counter is a tally ----

  /** How many operations of a script met a condition when they were performed. */
  function Tally(when: (BookValue, Op) -> bool, ops: seq<Op>): nat {
    if ops == [] then 0
    else
      var init := ops[..|ops| - 1];
      Tally(when, init) + if when(Run(init), ops[|ops| - 1]) then 1 else 0
  }

  predicate TakesSnapshot(b: BookValue, op: Op) {
    op.Sync? && b.mode == Buffering
  }

  /** The snapshot meets only events older than itself. */
  predicate NothingStraddles(b: BookValue, op: Op) {
    TakesSnapshot(b, op) && forall e | e in b.buffer :: e.last < op.snapshot.id
  }

  /** An integrity check is made and finds best bid and best ask crossed. */
  predicate FindsCrossed(b: BookValue, op: Op) {
    match op
    case Depth(e) =>
      Examined(b, e) && Crossed(Apply(b, e))
    case Sync(s) =>
      var r := Replay(Loaded(b, s), b.buffer, s.id);
      b.mode == Buffering && r.ok && Crossed(r.book)
    case _ => false
  }

  predicate FindsGap(b: BookValue, op: Op) {
    op.Depth? && b.mode == Live && op.event.last > b.lastUpdateId && !b.needFirst && op.event.prev != b.lastUpdateId
  }

  predicate Sheds(b: BookValue, op: Op) {
    op.Depth? && b.mode != Live && |b.buffer| == BUFFER_MAX
  }

  lemma {:induction false} ReplayUsesNothingIff(b: BookValue, es: seq<Event>, id: nat)
    ensures var r := Replay(b, es, id);
            (r.ok && !r.applied) <==> forall e | e in es :: e.last < id
  {
    if es != [] {
      var init, e := es[..|es| - 1], es[|es| - 1];
      ReplayUsesNothingIff(b, init, id);
      assert es == init + [e];
    }
  }

  lemma CheckCounts(b: BookValue)
    ensures CheckIntegrity(b).book.crossed == b.crossed + if Crossed(b) then 1 else 0
  {
  }

  lemma ExaminedDepth(b: BookValue, e: Event)
    requires Examined(b, e)
    ensures var applied := Apply(b.(needFirst := false), e);
            var c := CheckIntegrity(applied);
            && Crossed(applied) == Crossed(Apply(b, e))
            && OnDepth(b, e) == if c.ok then Reacted(c.book, Publish) else Reacted(FallBack(c.book, e), NeedSnapshot)
  {
  }

  lemma DepthCounts(b: BookValue, e: Event)
    requires |b.buffer| <= BUFFER_MAX
    ensures var n := OnDepth(b, e).book;
            && |n.buffer| <= BUFFER_MAX
            && n.snapshots == b.snapshots && n.unverified == b.unverified
            && n.gaps == b.gaps + (if FindsGap(b, Depth(e)) then 1 else 0)
            && n.crossed == b.crossed + (if FindsCrossed(b, Depth(e)) then 1 else 0)
            && n.dropped == b.dropped + (if Sheds(b, Depth(e)) then 1 else 0)
  {
    if Examined(b, e) {
      ExaminedDepth(b, e);
      CheckCounts(Apply(b.(needFirst := false), e));
    }
  }

  lemma SyncCounts(b: BookValue, s: Snapshot)
    requires |b.buffer| <= BUFFER_MAX
    ensures var n := OnSnapshot(b, s).book;
            && |n.buffer| <= BUFFER_MAX
            && n.snapshots == b.snapshots + (if TakesSnapshot(b, Sync(s)) then 1 else 0)
            && n.unverified == b.unverified + (if NothingStraddles(b, Sync(s)) then 1 else 0)
            && n.gaps == b.gaps && n.dropped == b.dropped
            && n.crossed == b.crossed + (if FindsCrossed(b, Sync(s)) then 1 else 0)
  {
    if b.mode == Buffering {
      ReplayUsesNothingIff(Loaded(b, s), b.buffer, s.id);
      var r := Replay(Loaded(b, s), b.buffer, s.id);
      assert Crossed(GoLive(r)) == Crossed(r.book);
    }
  }

  /** On every run: snapshots are counted before any can be refused, unproven
      bridges whether or not the book then goes live, gaps and crossings where they
      are found, and evictions exactly when the buffer is full. */
  lemma {:induction false} CountersAreTallies(ops: seq<Op>)
    ensures Run(ops).snapshots == Tally(TakesSnapshot, ops)
    ensures Run(ops).unverified == Tally(NothingStraddles, ops)
    ensures Run(ops).crossed == Tally(FindsCrossed, ops)
    ensures Run(ops).gaps == Tally(FindsGap, ops)
    ensures Run(ops).dropped == Tally(Sheds, ops) && |Run(ops).buffer| <= BUFFER_MAX
  {
    if ops != [] {
      var init, op := ops[..|ops| - 1], ops[|ops| - 1];
      CountersAreTallies(init);
      match op {
        case Depth(e) => DepthCounts(Run(init), e);
        case Sync(s) => SyncCounts(Run(init), s);
        case _ =>
      }
    }
  }

  predicate AcceptsUnchecked(b: BookValue, op: Op) {
    op.Depth? && Unchecked(b, op.event)
  }

  /** No event is accepted without a sequence check unless a snapshot that went live
      unproven has been counted for it: one such event per count at most. */
  lemma {:induction false} UncheckedEventsAreCounted(ops: seq<Op>)
    ensures Tally(AcceptsUnchecked, ops) + (if Run(ops).mode == Live && Run(ops).needFirst then 1 else 0)
         <= Run(ops).unverified
  {
    if ops != [] {
      var init, op := ops[..|ops| - 1], ops[|ops| - 1];
      UncheckedEventsAreCounted(init);
      match op {
        case Depth(e) => UncheckedDepth(Run(init), e);
        case Sync(s) => UncheckedSync(Run(init), s);
        case _ =>
      }
    }
  }

  lemma UncheckedDepth(b: BookValue, e: Event)
    ensures var n := OnDepth(b, e).book;
            && n.unverified == b.unverified
            && (n.mode == Live && n.needFirst ==> b.mode == Live && b.needFirst && !Unchecked(b, e))
  {
  }

  lemma UncheckedSync(b: BookValue, s: Snapshot)
    ensures var n := OnSnapshot(b, s).book;
            && n.unverified >= b.unverified
            && (n.mode == Live && n.needFirst && b.mode == Buffering ==> n.unverified == b.unverified + 1)
            && (b.mode != Buffering ==> n == b)
  {
  }

  // ---- Counters and resets do not leak ----

  /** The books differ in their counters only. */
  predicate Alike(a: BookValue, b: BookValue) {
    a == b.(snapshots := a.snapshots, gaps := a.gaps, crossed := a.crossed, dropped := a.dropped,
            unverified := a.unverified)
  }

  lemma CheckAlike(a: BookValue, b: BookValue)
    requires Alike(a, b)
    ensures CheckIntegrity(a).ok == CheckIntegrity(b).ok
    ensures Alike(CheckIntegrity(a).book, CheckIntegrity(b).book)
  {
  }

  lemma {:induction false} ReplayAlike(a: BookValue, b: BookValue, es: seq<Event>, id: nat)
    requires Alike(a, b)
    ensures var r, q := Replay(a, es, id), Replay(b, es, id);
            r.ok == q.ok && r.applied == q.applied && Alike(r.book, q.book)
  {
    if es != [] {
      ReplayAlike(a, b, es[..|es| - 1], id);
    }
  }

  lemma DepthAlike(a: BookValue, b: BookValue, e: Event)
    requires Alike(a, b)
    ensures OnDepth(a, e).action == OnDepth(b, e).action && Alike(OnDepth(a, e).book, OnDepth(b, e).book)
  {
    if Examined(a, e) {
      ExaminedDepth(a, e);
      ExaminedDepth(b, e);
      CheckAlike(Apply(a.(needFirst := false), e), Apply(b.(needFirst := false), e));
    }
  }

  lemma SyncAlike(a: BookValue, b: BookValue, s: Snapshot)
    requires Alike(a, b)
    ensures OnSnapshot(a, s).live == OnSnapshot(b, s).live && Alike(OnSnapshot(a, s).book, OnSnapshot(b, s).book)
  {
    ReplayAlike(Loaded(a, s), Loaded(b, s), a.buffer, s.id);
    CheckAlike(GoLive(Replay(Loaded(a, s), a.buffer, s.id)), GoLive(Replay(Loaded(b, s), b.buffer, s.id)));
  }

  lemma StepAlike(a: BookValue, b: BookValue, op: Op)
    requires Alike(a, b)
    ensures Step(a, op).reply == Step(b, op).reply && Alike(Step(a, op).book, Step(b, op).book)
  {
    match op
    case Depth(e) => DepthAlike(a, b, e);
    case Sync(s) => SyncAlike(a, b, s);
    case _ =>
  }

  function Replies(ops: seq<Op>, from: nat): seq<Reply>
    requires from <= |ops|
  {
    if |ops| == from then []
    else Replies(ops[..|ops| - 1], from) + [Step(Run(ops[..|ops| - 1]), ops[|ops| - 1]).reply]
  }

  lemma OneMore(ops: seq<Op>, op: Op, from: nat)
    requires from <= |ops|
    ensures Replies(ops + [op], from) == Replies(ops, from) + [Step(Run(ops), op).reply]
  {
    assert (ops + [op])[..|ops|] == ops;
  }

  lemma LastComesLast(before: seq<Op>, ops: seq<Op>)
    requires ops != []
    ensures var init, op := ops[..|ops| - 1], ops[|ops| - 1];
            ops == init + [op] && before + ops == before + init + [op]
  {
  }

  lemma NewBookFollows(before: seq<Op>, ops: seq<Op>, op: Op)
    requires Alike(Run(before + ops), Run(ops)) && Replies(before + ops, |before|) == Replies(ops, 0)
    ensures Alike(Run(before + ops + [op]), Run(ops + [op]))
    ensures Replies(before + ops + [op], |before|) == Replies(ops + [op], 0)
  {
    StepAlike(Run(before + ops), Run(ops), op);
    RunAppend(before + ops, op);
    RunAppend(ops, op);
    OneMore(before + ops, op, |before|);
    OneMore(ops, op, 0);
  }

  /** A disconnect forgets everything but the counters: whatever came before it, the
      book answers everything after it just as a new book would. */
  lemma {:induction false} DisconnectForgets(before: seq<Op>, ops: seq<Op>)
    ensures Alike(Run(before + [Disconnect] + ops), Run(ops))
    ensures Replies(before + [Disconnect] + ops, |before| + 1) == Replies(ops, 0)
  {
    var lost := before + [Disconnect];
    if ops == [] {
      RunAppend(before, Disconnect);
      assert lost + ops == lost;
    } else {
      var init, op := ops[..|ops| - 1], ops[|ops| - 1];
      DisconnectForgets(before, init);
      NewBookFollows(lost, init, op);
      LastComesLast(lost, ops);
    }
  }
}
