/** What a book answers, and the state that leaves it in: a snapshot is asked for once
    per entry into buffering, a snapshot's answer says whether the book still waits,
    and a live book is never crossed. */
module Reactions {
  import opened Levels
  import opened BookModel

  // ---- Depth events ----

  /** A snapshot is asked for exactly when the event takes the book into buffering,
      never while it is there; an update is announced exactly when a live book takes
      in an event and stays live; and any other event leaves a live book as it was. */
  lemma AnswersTellModes(b: BookValue, e: Event)
    ensures var r := OnDepth(b, e);
            && (r.action == NeedSnapshot <==> b.mode != Buffering && r.book.mode == Buffering)
            && (r.action == Publish <==> b.mode == Live && e.last > b.lastUpdateId && r.book.mode == Live)
            && (b.mode == Live && r.action == NoAction ==> r.book == b)
            && (r.book.mode == Live ==> b.mode == Live)
            && r.book.mode != Uninitialized
  {
  }

  predicate Asks(ops: seq<Op>, op: Op) {
    Step(Run(ops), op).reply == Did(NeedSnapshot)
  }

  predicate EntersByDepth(ops: seq<Op>, op: Op) {
    op.Depth? && Run(ops).mode != Buffering && Run(ops + [op]).mode == Buffering
  }

  function Count(when: (seq<Op>, Op) -> bool, ops: seq<Op>): nat {
    if ops == [] then 0
    else Count(when, ops[..|ops| - 1]) + if when(ops[..|ops| - 1], ops[|ops| - 1]) then 1 else 0
  }

  /** Over every run, exactly one request per entry into buffering by a depth event. */
  lemma {:induction false} OneRequestPerEntry(ops: seq<Op>)
    ensures Count(Asks, ops) == Count(EntersByDepth, ops)
  {
    if ops != [] {
      var init, op := ops[..|ops| - 1], ops[|ops| - 1];
      OneRequestPerEntry(init);
      RunAppend(init, op);
      if op.Depth? {
        AnswersTellModes(Run(init), op.event);
      }
    }
  }

  // ---- Snapshots ----

  /** A fresh count cannot reach the threshold, so going live is refused by the
      integrity check for a crossed book only. */
  lemma FreshCheckRefusesCrossed(b: BookValue)
    requires b.mismatches == 0
    ensures CheckIntegrity(b).ok <==> !Crossed(b)
  {
  }

  /** The answer is "live" exactly when the book does not wait for a snapshot any
      more. A book that was not waiting is left alone; one that was goes live exactly
      when the kept events bridge and chain and the rebuilt book is not crossed, and
      otherwise goes on waiting. Either way its buffer is used up. */
  lemma AnswerTellsWaiting(b: BookValue, s: Snapshot)
    ensures var r := OnSnapshot(b, s);
            && (r.live <==> r.book.mode != Buffering)
            && (b.mode != Buffering ==> r.book == b)
            && (b.mode == Buffering ==>
                  && r.book.buffer == []
                  && (r.book.mode == Live <==> GoodSnapshot(b, s))
                  && (r.book.mode == Buffering <==> !GoodSnapshot(b, s)))
  {
    if b.mode == Buffering {
      var r := Replay(Loaded(b, s), b.buffer, s.id);
      ReplayMeans(Loaded(b, s), b.buffer, s.id);
      FreshCheckRefusesCrossed(GoLive(r));
      assert r.ok ==> Crossed(GoLive(r)) == Crossed(r.book);
    }
  }

  predicate GoodSnapshot(b: BookValue, s: Snapshot) {
    var kept := Kept(b.buffer, s.id);
    Replayable(kept, s.id) && !Crossed(ApplyAll(Loaded(b, s), kept))
  }

  // ---- Live books ----

  predicate Uncrossed(b: BookValue) {
    forall p, q | p in b.bids && q in b.asks :: p.value < q.value
  }

  lemma UncrossedIff(b: BookValue)
    ensures Crossed(b) <==> !Uncrossed(b)
  {
    if TwoSided(b) {
      var bid, ask := Best(Bid, b.bids.Keys), Best(Ask, b.asks.Keys);
      assert bid in b.bids && ask in b.asks;
      if !Crossed(b) {
        forall p, q | p in b.bids && q in b.asks ensures p.value < q.value {
          assert p in b.bids.Keys && q in b.asks.Keys;
        }
      }
    }
  }

  lemma CheckedIsUncrossed(b: BookValue)
    requires CheckIntegrity(b).ok
    ensures Uncrossed(CheckIntegrity(b).book)
  {
    UncrossedIff(b);
  }

  lemma DepthKeepsUncrossed(b: BookValue, e: Event)
    requires b.mode == Live ==> Uncrossed(b)
    ensures OnDepth(b, e).book.mode == Live ==> Uncrossed(OnDepth(b, e).book)
  {
    if Examined(b, e) {
      var applied := Apply(b.(needFirst := false), e);
      if CheckIntegrity(applied).ok {
        CheckedIsUncrossed(applied);
      }
    }
  }

  lemma SyncKeepsUncrossed(b: BookValue, s: Snapshot)
    requires b.mode == Live ==> Uncrossed(b)
    ensures OnSnapshot(b, s).book.mode == Live ==> Uncrossed(OnSnapshot(b, s).book)
  {
    if b.mode == Buffering {
      var r := Replay(Loaded(b, s), b.buffer, s.id);
      if r.ok && CheckIntegrity(GoLive(r)).ok {
        CheckedIsUncrossed(GoLive(r));
      }
    }
  }

  /** Over every run, whatever the input: a live book shows every bid below every ask. */
  lemma {:induction false} LiveIsUncrossed(ops: seq<Op>)
    ensures Run(ops).mode == Live ==> Uncrossed(Run(ops))
  {
    if ops != [] {
      var init, op := ops[..|ops| - 1], ops[|ops| - 1];
      LiveIsUncrossed(init);
      match op {
        case Depth(e) => DepthKeepsUncrossed(Run(init), e);
        case Sync(s) => SyncKeepsUncrossed(Run(init), s);
        case _ =>
      }
    }
  }
}
