/** The two implementations driven through one script. */
module Differential {
  import opened Levels
  import opened BookModel
  import opened Digests
  import RustBook
  import PythonBook

  /** The digest shows the answer, the state, how many levels there are, the three best
      bids and asks, and the counters. */
  predicate Shows(d: Digest, r: Reply, b: BookValue) {
    && d.reply == r && d.mode == b.mode && d.lastUpdateId == b.lastUpdateId
    && d.bidCount == |b.bids| && d.askCount == |b.asks|
    && d.topBids == Top(Bid, b.bids, 3) && d.topAsks == Top(Ask, b.asks, 3)
    && d.gaps == b.gaps && d.crossed == b.crossed && d.snapshots == b.snapshots
    && d.unverified == b.unverified && d.dropped == b.dropped
  }

  /** Every script, of any length and content, is answered alike. */
  method Agree(ops: seq<Op>) returns (rust: seq<Digest>, python: seq<Digest>)
    ensures rust == python && |rust| == |ops|
    ensures forall i | 0 <= i < |ops| ::
              var s := Step(Run(ops[..i]), ops[i]); Shows(rust[i], s.reply, s.book)
  {
    rust := RustBook.RunScript(ops);
    python := PythonBook.RunScript(ops);
    forall i | 0 <= i < |ops|
      ensures |Trace(ops)| == |ops|
      ensures var s := Step(Run(ops[..i]), ops[i]); Shows(Trace(ops)[i], s.reply, s.book)
    {
      TraceAt(ops, i);
    }
    TraceLength(ops);
  }

  lemma {:induction false} TraceLength(ops: seq<Op>)
    ensures |Trace(ops)| == |ops|
  {
    if ops != [] {
      TraceLength(ops[..|ops| - 1]);
    }
  }

  lemma TraceStep(ops: seq<Op>)
    requires ops != []
    ensures var init := ops[..|ops| - 1];
            var s := Step(Run(init), ops[|ops| - 1]);
            |Trace(init)| == |init| && Trace(ops) == Trace(init) + [DigestOf(s.reply, s.book)]
  {
    TraceLength(ops[..|ops| - 1]);
  }

  lemma {:induction false} TraceAt(ops: seq<Op>, i: nat)
    requires i < |ops|
    ensures |Trace(ops)| == |ops|
    ensures var s := Step(Run(ops[..i]), ops[i]); Trace(ops)[i] == DigestOf(s.reply, s.book)
  {
    TraceStep(ops);
    if i < |ops| - 1 {
      TraceAt(ops[..|ops| - 1], i);
      assert ops[..|ops| - 1][..i] == ops[..i];
    }
  }
}
