/** The divergence counter is a faithful summary of history: it is the number of
    ticker comparisons that disagreed since the last one that agreed or the last
    event that starts the count afresh, and the tenth such disagreement demotes. */
module Divergence {
  import opened Levels
  import opened BookModel
  import opened Reactions

  datatype Verdict = Agreed | Disagreed | Cleared

  // ---- The ticker ----

  datatype Quote = Quote(bid: Price, ask: Price)

  const NO_QUOTE := Quote(Price(0.0), Price(0.0))

  /** The last ticker delivered since the book was last reset. */
  function LastQuote(ops: seq<Op>): Quote {
    if ops == [] then NO_QUOTE
    else
      match ops[|ops| - 1]
      case Ticker(bid, ask) => Quote(bid, ask)
      case Disconnect => NO_QUOTE
      case Resync => NO_QUOTE
      case _ => LastQuote(ops[..|ops| - 1])
  }

  function Remembered(b: BookValue): Quote {
    Quote(b.tickerBid, b.tickerAsk)
  }

  lemma MarketDataKeepsTicker(b: BookValue, op: Op)
    requires op.Depth? || op.Sync?
    ensures Remembered(Step(b, op).book) == Remembered(b)
  {
  }

  /** What the book remembers of the ticker is what was last delivered. */
  lemma {:induction false} TickerIsLast(ops: seq<Op>)
    ensures Remembered(Run(ops)) == LastQuote(ops)
  {
    if ops != [] {
      var init, op := ops[..|ops| - 1], ops[|ops| - 1];
      TickerIsLast(init);
      if op.Depth? || op.Sync? {
        MarketDataKeepsTicker(Run(init), op);
      }
    }
  }

  // ---- The history of comparisons ----

  /** A comparison is made only of an uncrossed two-sided book with a quote that has
      both prices, and agrees when its prices are the book's best. */
  function Comparison(b: BookValue, q: Quote): seq<Verdict> {
    if b.bids == map[] || b.asks == map[] || !Uncrossed(b) then []
    else if q.bid.value == 0.0 || q.ask.value == 0.0 then []
    else if IsBest(Bid, b.bids.Keys, q.bid) && IsBest(Ask, b.asks.Keys, q.ask) then [Agreed]
    else [Disagreed]
  }

  /** What one operation adds to the history. Comparisons are told by what the book
      and the last quote show; falling back, going live and resetting clear. */
  function Verdicts(b: BookValue, q: Quote, op: Op): seq<Verdict> {
    match op
    case Depth(e) =>
      (if Examined(b, e) then Comparison(Apply(b, e), q) else []) +
      (if b.mode == Live && OnDepth(b, e).book.mode == Buffering then [Cleared] else [])
    case Sync(s) =>
      if b.mode != Buffering then []
      else
        var r := Replay(Loaded(b, s), b.buffer, s.id);
        if r.ok then [Cleared] + Comparison(r.book, q) else []
    case Ticker(_, _) => []
    case _ => [Cleared]
  }

  function History(ops: seq<Op>): seq<Verdict> {
    if ops == [] then []
    else
      var init := ops[..|ops| - 1];
      History(init) + Verdicts(Run(init), LastQuote(init), ops[|ops| - 1])
  }

  predicate Knows(b: BookValue, q: Quote) {
    b.tickerBid == q.bid && b.tickerAsk == q.ask
  }

  lemma BestIsOne(k: Kind, s: set<Price>, p: Price)
    requires s != {}
    ensures p == Best(k, s) <==> IsBest(k, s, p)
  {
    assert IsBest(k, s, Best(k, s));
  }

  /** The check compares just when, and as, the definition above says. */
  lemma ComparedIff(b: BookValue, q: Quote)
    requires Knows(b, q)
    ensures Compared(b) <==> Comparison(b, q) != []
    ensures Compared(b) ==> (AgreesWithTicker(b) <==> Comparison(b, q) == [Agreed])
    ensures Compared(b) ==> (!AgreesWithTicker(b) <==> Comparison(b, q) == [Disagreed])
  {
    UncrossedIff(b);
    if TwoSided(b) {
      BestIsOne(Bid, b.bids.Keys, q.bid);
      BestIsOne(Ask, b.asks.Keys, q.ask);
    }
  }

  /** Disagreements since the last agreement or clearing. */
  function Streak(h: seq<Verdict>): nat {
    if h == [] || h[|h| - 1] != Disagreed then 0 else 1 + Streak(h[..|h| - 1])
  }

  lemma StreakAfter(h: seq<Verdict>, v: Verdict)
    ensures Streak(h + [v]) == if v == Disagreed then Streak(h) + 1 else 0
  {
    assert (h + [v])[..|h|] == h;
  }

  lemma CheckStreak(h: seq<Verdict>, b: BookValue, q: Quote)
    requires b.mismatches == Streak(h) && Knows(b, q)
    ensures CheckIntegrity(b).book.mismatches == Streak(h + Comparison(b, q))
  {
    assert h + [] == h;
    ComparedIff(b, q);
    if Compared(b) {
      StreakAfter(h, Comparison(b, q)[0]);
    }
  }

  lemma SameComparison(b: BookValue, c: BookValue, q: Quote)
    requires b.bids == c.bids && b.asks == c.asks
    ensures Comparison(b, q) == Comparison(c, q)
  {
  }

  /** What a depth event does to the count: falling back clears it, an event examined
      and published leaves what the check made of it, any other event leaves it. */
  lemma DepthCount(b: BookValue, e: Event)
    ensures var n := OnDepth(b, e).book.mismatches;
            if b.mode == Live && OnDepth(b, e).book.mode == Buffering then n == 0
            else if Examined(b, e) then n == CheckIntegrity(Apply(b.(needFirst := false), e)).book.mismatches
            else n == b.mismatches
  {
  }

  lemma ExaminedStreak(h: seq<Verdict>, b: BookValue, q: Quote, e: Event)
    requires b.mismatches == Streak(h) && Knows(b, q)
    ensures CheckIntegrity(Apply(b.(needFirst := false), e)).book.mismatches == Streak(h + Comparison(Apply(b, e), q))
  {
    var applied := Apply(b.(needFirst := false), e);
    SameComparison(applied, Apply(b, e), q);
    CheckStreak(h, applied, q);
  }

  lemma ClearedStreak(h: seq<Verdict>, seen: seq<Verdict>)
    ensures Streak(h + (seen + [Cleared])) == 0
  {
    StreakAfter(h + seen, Cleared);
    assert h + (seen + [Cleared]) == h + seen + [Cleared];
  }

  lemma DepthStreak(h: seq<Verdict>, b: BookValue, q: Quote, e: Event)
    requires b.mismatches == Streak(h) && Knows(b, q)
    ensures OnDepth(b, e).book.mismatches == Streak(h + Verdicts(b, q, Depth(e)))
  {
    var seen := if Examined(b, e) then Comparison(Apply(b, e), q) else [];
    DepthCount(b, e);
    ExaminedStreak(h, b, q, e);
    if b.mode == Live && OnDepth(b, e).book.mode == Buffering {
      ClearedStreak(h, seen);
    } else {
      assert seen + [] == seen && h + [] == h;
    }
  }

  lemma SyncStreak(h: seq<Verdict>, b: BookValue, q: Quote, s: Snapshot)
    requires b.mismatches == Streak(h) && Knows(b, q)
    ensures OnSnapshot(b, s).book.mismatches == Streak(h + Verdicts(b, q, Sync(s)))
  {
    assert h + [] == h;
    if b.mode == Buffering {
      var r := Replay(Loaded(b, s), b.buffer, s.id);
      if r.ok {
        StreakAfter(h, Cleared);
        CheckStreak(h + [Cleared], GoLive(r), q);
        SameComparison(GoLive(r), r.book, q);
        assert h + Verdicts(b, q, Sync(s)) == h + [Cleared] + Comparison(r.book, q);
      }
    }
  }

  lemma CountBounded(b: BookValue, op: Op)
    requires b.mismatches < 10
    ensures Step(b, op).book.mismatches < 10
  {
    match op
    case Depth(e) =>
      if Examined(b, e) {
        assert CheckIntegrity(Apply(b.(needFirst := false), e)).book.mismatches <= b.mismatches + 1;
      }
    case Sync(s) =>
      if b.mode == Buffering {
        assert GoLive(Replay(Loaded(b, s), b.buffer, s.id)).mismatches == 0;
      }
    case _ =>
  }

  /** On every run the counter is the streak of comparisons with the ticker as last
      delivered, and stays below ten. */
  lemma {:induction false} CounterIsStreak(ops: seq<Op>)
    ensures Run(ops).mismatches == Streak(History(ops)) < 10
  {
    if ops != [] {
      var init, op := ops[..|ops| - 1], ops[|ops| - 1];
      CounterIsStreak(init);
      CountBounded(Run(init), op);
      TickerIsLast(init);
      match op {
        case Depth(e) => DepthStreak(History(init), Run(init), LastQuote(init), e);
        case Sync(s) => SyncStreak(History(init), Run(init), LastQuote(init), s);
        case Ticker(_, _) => assert History(init) + [] == History(init);
        case _ => StreakAfter(History(init), Cleared);
      }
    }
  }

  lemma DemotedAtThreshold(h: seq<Verdict>, b: BookValue, q: Quote, e: Event)
    requires b.mismatches == Streak(h) < 10 && Knows(b, q) && Examined(b, e)
    requires Uncrossed(Apply(b.(needFirst := false), e))
    ensures OnDepth(b, e).action == NeedSnapshot
            <==> Streak(h + Comparison(Apply(b.(needFirst := false), e), q)) == 10
  {
    var applied := Apply(b.(needFirst := false), e);
    UncrossedIff(applied);
    CheckStreak(h, applied, q);
  }

  /** A live book that is neither gapped nor crossed is demoted by an event exactly
      when the event's comparison with the last ticker is the tenth consecutive
      disagreement. */
  lemma DemotedExactlyOnTheTenth(ops: seq<Op>, e: Event)
    requires Examined(Run(ops), e) && Uncrossed(Apply(Run(ops), e))
    ensures OnDepth(Run(ops), e).action == NeedSnapshot
            <==> Streak(History(ops) + Comparison(Apply(Run(ops), e), LastQuote(ops))) == 10
  {
    var b, q := Run(ops), LastQuote(ops);
    CounterIsStreak(ops);
    TickerIsLast(ops);
    SameComparison(Apply(b.(needFirst := false), e), Apply(b, e), q);
    DemotedAtThreshold(History(ops), b, q, e);
  }

  /** In particular an event after which the book's best prices are the last ticker's
      is published. */
  lemma AgreementPublishes(ops: seq<Op>, e: Event)
    requires Examined(Run(ops), e) && Uncrossed(Apply(Run(ops), e))
    requires Comparison(Apply(Run(ops), e), LastQuote(ops)) == [Agreed]
    ensures OnDepth(Run(ops), e).action == Publish
  {
    DemotedExactlyOnTheTenth(ops, e);
    StreakAfter(History(ops), Agreed);
    AnswersTellModes(Run(ops), e);
  }
}
