/** The order-book synchronisation machine on values: what every depth event,
    snapshot, ticker update, reset and resync mark does to one symbol's book.
    The two class implementations are proved to compute exactly this, and every
    property of the machine is proved about it. */
module BookModel {
  import opened Levels

  const BUFFER_MAX: nat := 5000
  const MISMATCH_THRESHOLD: nat := 10

  datatype Mode = Uninitialized | Buffering | Live

  datatype Action = Publish | NeedSnapshot | NoAction

  /** A depth diff: `first`, `last` and `prev` are the stream's U, u and pu. */
  datatype Event = Event(first: nat, last: nat, prev: nat, bids: seq<Level>, asks: seq<Level>)

  /** A REST snapshot; `id` is its lastUpdateId. */
  datatype Snapshot = Snapshot(id: nat, bids: seq<Level>, asks: seq<Level>)

  datatype BookValue = BookValue(
    mode: Mode,
    bids: Side,
    asks: Side,
    lastUpdateId: nat,
    buffer: seq<Event>,
    needFirst: bool,
    tickerBid: Price,
    tickerAsk: Price,
    mismatches: nat,
    snapshots: nat,
    gaps: nat,
    crossed: nat,
    dropped: nat,
    unverified: nat)

  const ZERO := Price(0.0)

  const FRESH := BookValue(Uninitialized, map[], map[], 0, [], false, ZERO, ZERO, 0, 0, 0, 0, 0, 0)

  // ---- Pieces ----

  /** Append to the resync buffer, shedding and counting the oldest when full. */
  function Push(b: BookValue, e: Event): BookValue {
    if |b.buffer| >= BUFFER_MAX
    then b.(buffer := b.buffer[1..] + [e], dropped := b.dropped + 1)
    else b.(buffer := b.buffer + [e])
  }

  function Apply(b: BookValue, e: Event): BookValue {
    b.(bids := Overlay(b.bids, e.bids), asks := Overlay(b.asks, e.asks), lastUpdateId := e.last)
  }

  function FallBack(b: BookValue, e: Event): BookValue {
    Push(b.(mode := Buffering, buffer := []), e).(mismatches := 0)
  }

  predicate TwoSided(b: BookValue) {
    b.bids != map[] && b.asks != map[]
  }

  /** The best bid has reached the best ask. */
  predicate Crossed(b: BookValue) {
    TwoSided(b) && !Better(Ask, Best(Bid, b.bids.Keys), Best(Ask, b.asks.Keys))
  }

  /** The integrity check compares the book's best prices with the ticker's. */
  predicate Compared(b: BookValue) {
    TwoSided(b) && !Crossed(b) && b.tickerBid != ZERO && b.tickerAsk != ZERO
  }

  predicate AgreesWithTicker(b: BookValue)
    requires TwoSided(b)
  {
    Best(Bid, b.bids.Keys) == b.tickerBid && Best(Ask, b.asks.Keys) == b.tickerAsk
  }

  datatype Checked = Checked(book: BookValue, ok: bool)

  function CheckIntegrity(b: BookValue): (c: Checked)
    ensures c.book == b.(crossed := c.book.crossed, mismatches := c.book.mismatches)
  {
    if Crossed(b) then Checked(b.(crossed := b.crossed + 1), false)
    else if !Compared(b) then Checked(b, true)
    else if AgreesWithTicker(b) then Checked(b.(mismatches := 0), true)
    else Checked(b.(mismatches := b.mismatches + 1), b.mismatches + 1 < MISMATCH_THRESHOLD)
  }

  // ---- Depth events ----

  datatype Reacted = Reacted(book: BookValue, action: Action)

  function OnDepth(b: BookValue, e: Event): Reacted {
    match b.mode
    case Uninitialized => Reacted(Push(b.(mode := Buffering), e), NeedSnapshot)
    case Buffering => Reacted(Push(b, e), NoAction)
    case Live =>
      if e.last <= b.lastUpdateId then Reacted(b, NoAction)
      else if !b.needFirst && e.prev != b.lastUpdateId then
        Reacted(FallBack(b.(gaps := b.gaps + 1), e), NeedSnapshot)
      else
        var c := CheckIntegrity(Apply(b.(needFirst := false), e));
        if c.ok then Reacted(c.book, Publish) else Reacted(FallBack(c.book, e), NeedSnapshot)
  }

  /** The event is applied and reaches the integrity check. */
  predicate Examined(b: BookValue, e: Event) {
    b.mode == Live && e.last > b.lastUpdateId && (b.needFirst || e.prev == b.lastUpdateId)
  }

  /** The event would be the one a live book accepts without a sequence check. */
  predicate Unchecked(b: BookValue, e: Event) {
    b.mode == Live && b.needFirst && e.last > b.lastUpdateId
  }

  // ---- Snapshots ----

  /** The replay loop's state: `applied` once some buffered event was used. */
  datatype Replayed = Replayed(book: BookValue, ok: bool, applied: bool)

  function ReplayOne(r: Replayed, e: Event, id: nat): Replayed
    requires r.ok
  {
    if e.last < id then r
    else if !r.applied && e.first > id then r.(ok := false)
    else if r.applied && e.prev != r.book.lastUpdateId then r.(ok := false)
    else Replayed(Apply(r.book, e), true, true)
  }

  function Replay(b: BookValue, es: seq<Event>, id: nat): (r: Replayed)
    ensures r.book == b.(bids := r.book.bids, asks := r.book.asks, lastUpdateId := r.book.lastUpdateId)
  {
    if es == [] then Replayed(b, true, false)
    else
      var r := Replay(b, es[..|es| - 1], id);
      if r.ok then ReplayOne(r, es[|es| - 1], id) else r
  }

  /** A replay that has failed stays failed, whatever follows. */
  lemma {:induction false} ReplayStuck(b: BookValue, es: seq<Event>, n: nat, id: nat)
    requires n <= |es| && !Replay(b, es[..n], id).ok
    ensures Replay(b, es, id) == Replay(b, es[..n], id)
  {
    if n == |es| {
      assert es[..n] == es;
    } else {
      var init := es[..|es| - 1];
      assert init[..n] == es[..n];
      ReplayStuck(b, init, n, id);
    }
  }

  // ---- What a replay amounts to ----

  /** The buffered events the snapshot does not already contain. */
  function Kept(es: seq<Event>, id: nat): seq<Event> {
    if es == [] then []
    else
      var rest, e := Kept(es[..|es| - 1], id), es[|es| - 1];
      if e.last < id then rest else rest + [e]
  }

  function ApplyAll(b: BookValue, es: seq<Event>): BookValue {
    if es == [] then b else Apply(ApplyAll(b, es[..|es| - 1]), es[|es| - 1])
  }

  predicate Chained(es: seq<Event>) {
    forall i, j | 0 <= i < |es| && i < j < |es| && j == i + 1 :: es[i].last == es[j].prev
  }

  /** The first event to replay starts no later than the snapshot, and each of the
      others continues the one before it. */
  predicate Replayable(es: seq<Event>, id: nat) {
    Chained(es) && (es != [] ==> es[0].first <= id)
  }

  lemma {:induction false} ApplyAllId(b: BookValue, es: seq<Event>)
    ensures ApplyAll(b, es).lastUpdateId == if es == [] then b.lastUpdateId else es[|es| - 1].last
  {
  }

  lemma ChainedAppend(es: seq<Event>, e: Event)
    ensures Chained(es + [e]) <==> Chained(es) && (es != [] ==> es[|es| - 1].last == e.prev)
  {
    var all := es + [e];
    assert forall i | 0 <= i < |es| :: all[i] == es[i];
    if Chained(all) && es != [] {
      assert all[|es| - 1].last == all[|es|].prev;
    }
  }

  lemma ReplayableAppend(es: seq<Event>, e: Event, id: nat)
    ensures Replayable(es + [e], id)
       <==> Replayable(es, id) && (if es == [] then e.first <= id else es[|es| - 1].last == e.prev)
  {
    ChainedAppend(es, e);
  }

  lemma ApplyAllAppend(b: BookValue, es: seq<Event>, e: Event)
    ensures ApplyAll(b, es + [e]) == Apply(ApplyAll(b, es), e)
  {
    assert (es + [e])[..|es|] == es;
  }

  /** The replay stands where its kept events say. */
  predicate Stands(r: Replayed, b: BookValue, kept: seq<Event>, id: nat) {
    && (r.ok <==> Replayable(kept, id))
    && (r.ok ==> r.book == ApplyAll(b, kept) && (r.applied <==> kept != []))
  }

  lemma KeptOneStands(r: Replayed, b: BookValue, kept: seq<Event>, e: Event, id: nat)
    requires Stands(r, b, kept, id) && e.last >= id
    ensures Stands(if r.ok then ReplayOne(r, e, id) else r, b, kept + [e], id)
  {
    ReplayableAppend(kept, e, id);
    ApplyAllAppend(b, kept, e);
    ApplyAllId(b, kept);
  }

  /** A replay succeeds exactly when the events not already in the snapshot bridge
      and chain, and then it has applied all of those and nothing else, in order. */
  lemma {:induction false} ReplayMeans(b: BookValue, es: seq<Event>, id: nat)
    ensures var r := Replay(b, es, id);
            && (r.ok <==> Replayable(Kept(es, id), id))
            && (r.ok ==> r.book == ApplyAll(b, Kept(es, id)) && (r.applied <==> Kept(es, id) != []))
  {
    if es != [] {
      var init, e := es[..|es| - 1], es[|es| - 1];
      ReplayMeans(b, init, id);
      if e.last >= id {
        KeptOneStands(Replay(b, init, id), b, Kept(init, id), e, id);
      }
    }
  }

  datatype Synced = Synced(book: BookValue, live: bool)

  /** The book rebuilt from a snapshot's listing, before any replay. */
  function Loaded(b: BookValue, s: Snapshot): BookValue {
    b.(bids := Listed(s.bids), asks := Listed(s.asks), lastUpdateId := s.id,
       snapshots := b.snapshots + 1, buffer := [])
  }

  function GoLive(r: Replayed): BookValue {
    r.book.(mode := Live, needFirst := !r.applied, mismatches := 0,
            unverified := if r.applied then r.book.unverified else r.book.unverified + 1)
  }

  function OnSnapshot(b: BookValue, s: Snapshot): Synced {
    if b.mode != Buffering then Synced(b, true)
    else
      var r := Replay(Loaded(b, s), b.buffer, s.id);
      if !r.ok then Synced(r.book, false)
      else
        var c := CheckIntegrity(GoLive(r));
        if c.ok then Synced(c.book, true) else Synced(c.book.(mode := Buffering), false)
  }

  // ---- The other operations ----

  function SetTicker(b: BookValue, bid: Price, ask: Price): BookValue {
    b.(tickerBid := bid, tickerAsk := ask)
  }

  function Reset(b: BookValue): BookValue {
    b.(bids := map[], asks := map[], lastUpdateId := 0, mode := Uninitialized, buffer := [],
       needFirst := false, tickerBid := ZERO, tickerAsk := ZERO, mismatches := 0)
  }

  function MarkForResync(b: BookValue): BookValue {
    Reset(b).(mode := Buffering)
  }

  // ---- Runs ----

  datatype Op =
    | Depth(event: Event)
    | Sync(snapshot: Snapshot)
    | Ticker(bid: Price, ask: Price)
    | Disconnect
    | Resync

  datatype Reply = Did(action: Action) | WentLive(live: bool) | Silent

  datatype Stepped = Stepped(book: BookValue, reply: Reply)

  function Step(b: BookValue, op: Op): Stepped {
    match op
    case Depth(e) => var r := OnDepth(b, e); Stepped(r.book, Did(r.action))
    case Sync(s) => var r := OnSnapshot(b, s); Stepped(r.book, WentLive(r.live))
    case Ticker(bid, ask) => Stepped(SetTicker(b, bid, ask), Silent)
    case Disconnect => Stepped(Reset(b), Silent)
    case Resync => Stepped(MarkForResync(b), Silent)
  }

  /** The book after a whole script, starting from a new book. */
  function Run(ops: seq<Op>): BookValue {
    if ops == [] then FRESH else Step(Run(ops[..|ops| - 1]), ops[|ops| - 1]).book
  }

  lemma RunAppend(ops: seq<Op>, op: Op)
    ensures Run(ops + [op]) == Step(Run(ops), op).book
  {
    assert (ops + [op])[..|ops|] == ops;
  }
}
