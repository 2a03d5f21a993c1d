/** What a consumer sees: ids that rise within a live epoch, and top-of-book lists
    that are the best levels, in order, positive and uncrossed. */
module PublishedStream {
  import opened Levels
  import opened BookModel

  predicate Publishes(ops: seq<Op>, i: nat)
    requires i < |ops|
  {
    Step(Run(ops[..i]), ops[i]).reply == Did(Publish)
  }

  /** The book stays live from just after operation `i` until just after `j`. */
  predicate LiveThrough(ops: seq<Op>, i: nat, j: nat)
    requires i <= j < |ops|
  {
    forall k | i < k <= j + 1 :: Run(ops[..k]).mode == Live
  }

  lemma RunNext(ops: seq<Op>, k: nat)
    requires k < |ops|
    ensures Run(ops[..k + 1]) == Step(Run(ops[..k]), ops[k]).book
  {
    assert ops[..k + 1][..k] == ops[..k];
  }

  lemma LiveIdNeverFalls(b: BookValue, op: Op)
    requires b.mode == Live && Step(b, op).book.mode == Live
    ensures Step(b, op).book.lastUpdateId >= b.lastUpdateId
    ensures Step(b, op).reply == Did(Publish) ==> Step(b, op).book.lastUpdateId > b.lastUpdateId
  {
  }

  lemma {:induction false} IdsNeverFall(ops: seq<Op>, i: nat, j: nat)
    requires i < j < |ops| && LiveThrough(ops, i, j)
    ensures Run(ops[..i + 1]).lastUpdateId <= Run(ops[..j]).lastUpdateId
    decreases j
  {
    if i + 1 < j {
      IdsNeverFall(ops, i, j - 1);
      RunNext(ops, j - 1);
      LiveIdNeverFalls(Run(ops[..j - 1]), ops[j - 1]);
    }
  }

  /** Within one live epoch each published id exceeds every earlier one. */
  lemma PublishedIdsRise(ops: seq<Op>, i: nat, j: nat)
    requires i < j < |ops| && LiveThrough(ops, i, j)
    requires Publishes(ops, i) && Publishes(ops, j)
    ensures Run(ops[..i + 1]).lastUpdateId < Run(ops[..j + 1]).lastUpdateId
  {
    IdsNeverFall(ops, i, j);
    RunNext(ops, j);
    LiveIdNeverFalls(Run(ops[..j]), ops[j]);
  }

  // ---- Shape ----

  predicate NonNegativeEvent(e: Event) {
    NonNegative(e.bids) && NonNegative(e.asks)
  }

  predicate NonNegativeOp(op: Op) {
    op.Depth? ==> NonNegativeEvent(op.event)
  }

  predicate PositiveBook(b: BookValue) {
    Positive(b.bids) && Positive(b.asks) && forall e | e in b.buffer :: NonNegativeEvent(e)
  }

  lemma ApplyPositive(b: BookValue, e: Event)
    requires Positive(b.bids) && Positive(b.asks) && NonNegativeEvent(e)
    ensures Positive(Apply(b, e).bids) && Positive(Apply(b, e).asks)
  {
    OverlayPositive(b.bids, e.bids);
    OverlayPositive(b.asks, e.asks);
  }

  lemma {:induction false} ReplayPositive(b: BookValue, es: seq<Event>, id: nat)
    requires Positive(b.bids) && Positive(b.asks) && forall e | e in es :: NonNegativeEvent(e)
    ensures Positive(Replay(b, es, id).book.bids) && Positive(Replay(b, es, id).book.asks)
  {
    if es != [] {
      var init, e := es[..|es| - 1], es[|es| - 1];
      assert e in es;
      ReplayPositive(b, init, id);
      ApplyPositive(Replay(b, init, id).book, e);
    }
  }

  lemma DepthPositive(b: BookValue, e: Event)
    requires PositiveBook(b) && NonNegativeEvent(e)
    ensures PositiveBook(OnDepth(b, e).book)
  {
    ApplyPositive(b.(needFirst := false), e);
  }

  lemma SyncPositive(b: BookValue, s: Snapshot)
    requires PositiveBook(b)
    ensures PositiveBook(OnSnapshot(b, s).book)
  {
    if b.mode == Buffering {
      ListedAt(s.bids, ZERO);
      ListedAt(s.asks, ZERO);
      ReplayPositive(Loaded(b, s), b.buffer, s.id);
    }
  }

  lemma StepPositive(b: BookValue, op: Op)
    requires PositiveBook(b) && NonNegativeOp(op)
    ensures PositiveBook(Step(b, op).book)
  {
    match op
    case Depth(e) => DepthPositive(b, e);
    case Sync(s) => SyncPositive(b, s);
    case _ =>
  }

  lemma {:induction false} RunPositive(ops: seq<Op>)
    requires forall op | op in ops :: NonNegativeOp(op)
    ensures PositiveBook(Run(ops))
  {
    if ops != [] {
      var init, op := ops[..|ops| - 1], ops[|ops| - 1];
      assert op in ops;
      RunPositive(init);
      StepPositive(Run(init), op);
    }
  }

  lemma PublishedIsUncrossed(b: BookValue, e: Event)
    requires OnDepth(b, e).action == Publish
    ensures !Crossed(OnDepth(b, e).book)
  {
    assert !Crossed(Apply(b.(needFirst := false), e));
  }

  lemma TopsAreApart(b: BookValue, x: Price, y: Price)
    requires !Crossed(b) && x in b.bids && y in b.asks
    ensures x.value < y.value
  {
    assert x in b.bids.Keys && y in b.asks.Keys;
  }

  lemma ShapeOfUncrossed(b: BookValue, n: nat)
    requires Positive(b.bids) && Positive(b.asks) && !Crossed(b)
    ensures var bids, asks := Top(Bid, b.bids, n), Top(Ask, b.asks, n);
            && BestFirst(Bid, bids) && BestFirst(Ask, asks)
            && (|bids| == if n <= |b.bids| then n else |b.bids|)
            && (|asks| == if n <= |b.asks| then n else |b.asks|)
            && (forall l | l in bids + asks :: l.qty > 0.0)
            && (forall x, y | x in bids && y in asks :: x.price.value < y.price.value)
            && (forall p, l | p in b.bids && Level(p, b.bids[p]) !in bids && l in bids :: Better(Bid, l.price, p))
            && (forall p, l | p in b.asks && Level(p, b.asks[p]) !in asks && l in asks :: Better(Ask, l.price, p))
  {
    TopShape(Bid, b.bids, n);
    TopShape(Ask, b.asks, n);
    forall x, y | x in Top(Bid, b.bids, n) && y in Top(Ask, b.asks, n) ensures x.price.value < y.price.value {
      TopsAreApart(b, x.price, y.price);
    }
  }

  /** Every published event, on every run of non-negative input: both lists are the
      best `n` levels in strict order with positive quantities, and every listed bid
      is below every listed ask. */
  lemma PublishedShape(ops: seq<Op>, e: Event, n: nat)
    requires (forall op | op in ops :: NonNegativeOp(op)) && NonNegativeEvent(e)
    requires OnDepth(Run(ops), e).action == Publish
    ensures var b := OnDepth(Run(ops), e).book;
            var bids, asks := Top(Bid, b.bids, n), Top(Ask, b.asks, n);
            && BestFirst(Bid, bids) && BestFirst(Ask, asks)
            && (|bids| == if n <= |b.bids| then n else |b.bids|)
            && (|asks| == if n <= |b.asks| then n else |b.asks|)
            && (forall l | l in bids + asks :: l.qty > 0.0)
            && (forall x, y | x in bids && y in asks :: x.price.value < y.price.value)
            && (forall p, l | p in b.bids && Level(p, b.bids[p]) !in bids && l in bids :: Better(Bid, l.price, p))
            && (forall p, l | p in b.asks && Level(p, b.asks[p]) !in asks && l in asks :: Better(Ask, l.price, p))
  {
    var b := OnDepth(Run(ops), e).book;
    RunPositive(ops);
    StepPositive(Run(ops), Depth(e));
    PublishedIsUncrossed(Run(ops), e);
    ShapeOfUncrossed(b, n);
  }
}
