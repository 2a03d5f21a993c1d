/** What the cross-language comparison looks at after every operation. */
module Digests {
  import opened Levels
  import opened BookModel

  const SHOWN: nat := 3

  datatype Digest = Digest(
    reply: Reply,
    mode: Mode,
    lastUpdateId: nat,
    bidCount: nat,
    askCount: nat,
    topBids: seq<Level>,
    topAsks: seq<Level>,
    gaps: nat,
    crossed: nat,
    snapshots: nat,
    unverified: nat,
    dropped: nat)

  function DigestOf(r: Reply, b: BookValue): Digest {
    Digest(r, b.mode, b.lastUpdateId, |b.bids|, |b.asks|, Top(Bid, b.bids, SHOWN), Top(Ask, b.asks, SHOWN),
           b.gaps, b.crossed, b.snapshots, b.unverified, b.dropped)
  }

  /** The digests a script must produce. */
  function Trace(ops: seq<Op>): seq<Digest> {
    if ops == [] then []
    else
      var init := ops[..|ops| - 1];
      var s := Step(Run(init), ops[|ops| - 1]);
      Trace(init) + [DigestOf(s.reply, s.book)]
  }
}
