/** What in-order delivery buys: the gap counter counts exactly the lost events, and
    with timely snapshots the one unchecked event is safe. */
module Delivery {
  import opened Levels
  import opened BookModel
  import opened Venue
  import opened TruthAgreement

  /** A run together with the connection's history: the last `u` delivered since it
      was opened, how many deliveries did not continue the one before, and how many
      of those reached a live book past its unchecked event. */
  datatype Fed = Fed(book: BookValue, seen: Option<nat>, losses: nat, liveLosses: nat)

  predicate Continues(f: Fed, e: Event) {
    f.seen.Some? ==> e.prev == f.seen.value
  }

  function FeedStep(f: Fed, op: Op): Fed {
    var next := Step(f.book, op).book;
    match op
    case Depth(e) =>
      var lost := !Continues(f, e);
      var checked := f.book.mode == Live && !f.book.needFirst;
      Fed(next, Some(e.last), if lost then f.losses + 1 else f.losses,
          if lost && checked then f.liveLosses + 1 else f.liveLosses)
    case Disconnect => f.(book := next, seen := None)
    case _ => f.(book := next)
  }

  function Feed(ops: seq<Op>): Fed {
    if ops == [] then Fed(FRESH, None, 0, 0)
    else FeedStep(Feed(ops[..|ops| - 1]), ops[|ops| - 1])
  }

  predicate Along(step: (Fed, Op) -> bool, ops: seq<Op>) {
    ops == [] || (Along(step, ops[..|ops| - 1]) && step(Feed(ops[..|ops| - 1]), ops[|ops| - 1]))
  }

  lemma FeedAppend(step: (Fed, Op) -> bool, ops: seq<Op>, op: Op)
    ensures Feed(ops + [op]) == FeedStep(Feed(ops), op)
    ensures Along(step, ops + [op]) <==> Along(step, ops) && step(Feed(ops), op)
  {
    assert (ops + [op])[..|ops|] == ops;
  }

  /** Each connection delivers strictly increasing `u`; events may be lost. */
  predicate Increasing(f: Fed, op: Op) {
    op.Depth? && f.seen.Some? ==> op.event.last > f.seen.value
  }

  predicate Rising(es: seq<Event>) {
    forall i, j | 0 <= i < |es| && i < j < |es| && j == i + 1 :: es[i].last < es[j].last
  }

  /** The buffer ends with the last delivery, and a live book past its unchecked
      event stands exactly at the last delivery. */
  predicate InStep(f: Fed) {
    && Rising(f.book.buffer)
    && (f.book.mode != Buffering ==> f.book.buffer == [])
    && (f.book.buffer != [] ==> f.seen == Some(f.book.buffer[|f.book.buffer| - 1].last))
    && (f.book.mode == Live && !f.book.needFirst ==> f.seen == Some(f.book.lastUpdateId))
  }

  /** A rising buffer is replayed to its end or not at all. */
  lemma {:induction false} ReplayReachesEnd(b: BookValue, es: seq<Event>, id: nat)
    requires Rising(es) && b.lastUpdateId == id
    ensures var r := Replay(b, es, id);
            && (r.ok && r.applied ==> es != [] && r.book.lastUpdateId == es[|es| - 1].last >= id)
            && (r.ok && !r.applied ==> r.book.lastUpdateId == id && forall e | e in es :: e.last < id)
  {
    if es != [] {
      ReplayReachesEnd(b, es[..|es| - 1], id);
    }
  }

  lemma RisingAppend(es: seq<Event>, e: Event)
    requires Rising(es) && (es != [] ==> es[|es| - 1].last < e.last)
    ensures Rising(es + [e])
  {
  }

  lemma TailKeepsOrder(es: seq<Event>)
    requires es != []
    ensures Rising(es) ==> Rising(es[1..])
    ensures Chained(es) ==> Chained(es[1..])
  {
  }

  /** Appending a continuation, with or without shedding the oldest event. */
  lemma PushKeepsOrder(b: BookValue, e: Event)
    requires Rising(b.buffer) && (b.buffer != [] ==> b.buffer[|b.buffer| - 1].last < e.last)
    ensures Rising(Push(b, e).buffer)
    ensures Chained(b.buffer) && (b.buffer != [] ==> e.prev == b.buffer[|b.buffer| - 1].last) ==> Chained(Push(b, e).buffer)
  {
    var es := if |b.buffer| >= BUFFER_MAX then b.buffer[1..] else b.buffer;
    if b.buffer != [] {
      TailKeepsOrder(b.buffer);
    }
    RisingAppend(es, e);
    ChainedAppend(es, e);
  }

  lemma BufferedKeepsInStep(f: Fed, e: Event)
    requires InStep(f) && Increasing(f, Depth(e)) && f.book.mode != Live
    ensures InStep(FeedStep(f, Depth(e)))
    ensures Chained(f.book.buffer) && Continues(f, e) ==> Chained(OnDepth(f.book, e).book.buffer)
  {
    PushKeepsOrder(f.book, e);
  }

  /** A live book's event leaves it live at the event, unmoved, or buffering it alone. */
  lemma LiveOutcomes(b: BookValue, e: Event)
    requires b.mode == Live && b.buffer == []
    ensures var n := OnDepth(b, e).book;
            || n == b
            || (n.mode == Live && n.buffer == [] && n.lastUpdateId == e.last && !n.needFirst)
            || (n.mode == Buffering && n.buffer == [e])
    ensures e.last > b.lastUpdateId ==> OnDepth(b, e).book != b
    ensures OnDepth(b, e).book.gaps
         == if e.last > b.lastUpdateId && !b.needFirst && e.prev != b.lastUpdateId then b.gaps + 1 else b.gaps
  {
    if Examined(b, e) {
      assert OnDepth(b, e).book.lastUpdateId == e.last;
    }
  }

  lemma OneIsInOrder(e: Event)
    ensures Rising([e]) && Chained([e])
  {
  }

  lemma LiveStaysInStep(f: Fed, e: Event)
    requires InStep(f) && Increasing(f, Depth(e)) && f.book.mode == Live
    ensures InStep(FeedStep(f, Depth(e)))
    ensures Chained(OnDepth(f.book, e).book.buffer)
  {
    LiveOutcomes(f.book, e);
    OneIsInOrder(e);
    var n := OnDepth(f.book, e).book;
    assert n.buffer == [] || n.buffer == [e];
  }

  lemma LiveCountsLosses(f: Fed, e: Event)
    requires Increasing(f, Depth(e)) && f.book.mode == Live && f.book.buffer == []
    requires !f.book.needFirst ==> f.seen == Some(f.book.lastUpdateId)
    ensures OnDepth(f.book, e).book.gaps - f.book.gaps
         == FeedStep(f, Depth(e)).liveLosses - f.liveLosses
  {
    LiveOutcomes(f.book, e);
  }

  lemma LiveKeepsInStep(f: Fed, e: Event)
    requires InStep(f) && Increasing(f, Depth(e)) && f.book.mode == Live
    ensures InStep(FeedStep(f, Depth(e)))
    ensures Chained(OnDepth(f.book, e).book.buffer)
    ensures OnDepth(f.book, e).book.gaps - f.book.gaps
         == FeedStep(f, Depth(e)).liveLosses - f.liveLosses
  {
    LiveStaysInStep(f, e);
    LiveCountsLosses(f, e);
  }

  lemma DepthKeepsInStep(f: Fed, e: Event)
    requires InStep(f) && Increasing(f, Depth(e))
    ensures InStep(FeedStep(f, Depth(e)))
    ensures Chained(f.book.buffer) && Continues(f, e) ==> Chained(OnDepth(f.book, e).book.buffer)
    ensures OnDepth(f.book, e).book.gaps - f.book.gaps
         == FeedStep(f, Depth(e)).liveLosses - f.liveLosses
  {
    if f.book.mode == Live {
      LiveKeepsInStep(f, e);
    } else {
      BufferedKeepsInStep(f, e);
    }
  }

  lemma SyncKeepsInStep(f: Fed, s: Snapshot)
    requires InStep(f)
    ensures InStep(FeedStep(f, Sync(s)))
    ensures OnSnapshot(f.book, s).book.gaps == f.book.gaps
    ensures f.book.mode == Buffering ==> OnSnapshot(f.book, s).book.buffer == []
  {
    ReplayReachesEnd(Loaded(f.book, s), f.book.buffer, s.id);
  }

  lemma StepKeepsInStep(f: Fed, op: Op)
    requires InStep(f) && Increasing(f, op)
    ensures InStep(FeedStep(f, op))
    ensures FeedStep(f, op).book.gaps - f.book.gaps == FeedStep(f, op).liveLosses - f.liveLosses
  {
    match op
    case Depth(e) => DepthKeepsInStep(f, e);
    case Sync(s) => SyncKeepsInStep(f, s);
    case _ =>
  }

  /** The gap counter is exact: it counts the deliveries to a live, checked book
      that did not continue their predecessor on the same connection, so a loss
      costs at most one gap and a reconnect costs none. */
  lemma {:induction false} GapCountIsExact(ops: seq<Op>)
    requires Along(Increasing, ops)
    ensures Feed(ops).book == Run(ops) && InStep(Feed(ops))
    ensures Run(ops).gaps == Feed(ops).liveLosses <= Feed(ops).losses
  {
    if ops != [] {
      GapCountIsExact(ops[..|ops| - 1]);
      StepKeepsInStep(Feed(ops[..|ops| - 1]), ops[|ops| - 1]);
    }
  }

  // ---- Lossless delivery ----

  /** A snapshot taken up with nothing buffered must not predate the deliveries. */
  predicate Timely(f: Fed, s: Snapshot) {
    f.book.mode == Buffering && f.book.buffer == [] && f.seen.Some? ==> s.id >= f.seen.value
  }

  /** Each event continues the one before it, and only live books are marked for
      resync, as the sweeper does. */
  predicate Lossless(f: Fed, op: Op) {
    match op
    case Depth(e) => e.prev < e.first <= e.last && Continues(f, e)
    case Resync => f.book.mode == Live
    case _ => true
  }

  predicate LosslessTimely(f: Fed, op: Op) {
    Lossless(f, op) && (op.Sync? ==> Timely(f, op.snapshot))
  }

  predicate Linked(f: Fed) {
    && InStep(f)
    && Chained(f.book.buffer)
    && (f.book.mode != Uninitialized ==> f.seen.Some?)
  }

  /** A live book stands no earlier than the last delivery. */
  predicate UpToDate(f: Fed) {
    f.book.mode == Live ==> f.seen.Some? && f.seen.value <= f.book.lastUpdateId
  }

  /** Lossless delivery keeps the buffer an unbroken chain and counts no gap,
      whatever the age of the snapshots. */
  lemma StepKeepsLinked(f: Fed, op: Op)
    requires Linked(f) && Lossless(f, op)
    ensures Linked(FeedStep(f, op))
    ensures FeedStep(f, op).book.gaps == f.book.gaps
  {
    match op
    case Depth(e) => DepthKeepsInStep(f, e);
    case Sync(s) => SyncKeepsInStep(f, s);
    case _ =>
  }

  lemma {:induction false} LosslessLinks(ops: seq<Op>)
    requires Along(Lossless, ops)
    ensures Linked(Feed(ops)) && Feed(ops).book == Run(ops) && Run(ops).gaps == 0
  {
    if ops != [] {
      LosslessLinks(ops[..|ops| - 1]);
      StepKeepsLinked(Feed(ops[..|ops| - 1]), ops[|ops| - 1]);
    }
  }

  lemma SyncKeepsUpToDate(f: Fed, s: Snapshot)
    requires Linked(f) && UpToDate(f) && Timely(f, s)
    ensures UpToDate(FeedStep(f, Sync(s)))
  {
    var es := f.book.buffer;
    ReplayReachesEnd(Loaded(f.book, s), es, s.id);
    if f.book.mode == Buffering && es != [] {
      assert es[|es| - 1] in es;
    }
  }

  /** With timely snapshots besides, the one unchecked event straddles the book's id. */
  lemma StepKeepsUpToDate(f: Fed, op: Op)
    requires Linked(f) && UpToDate(f) && LosslessTimely(f, op)
    ensures UpToDate(FeedStep(f, op))
    ensures op.Depth? && Unchecked(f.book, op.event) ==> op.event.prev <= f.book.lastUpdateId < op.event.last
  {
    match op
    case Depth(e) =>
    case Sync(s) => SyncKeepsUpToDate(f, s);
    case _ =>
  }

  lemma {:induction false} TimelyIsLossless(ops: seq<Op>)
    requires Along(LosslessTimely, ops)
    ensures Along(Lossless, ops)
  {
    if ops != [] {
      TimelyIsLossless(ops[..|ops| - 1]);
    }
  }

  /** Over lossless timely delivery the unchecked event never needs an exception. */
  lemma {:induction false} NeverSuspect(ops: seq<Op>)
    requires Along(LosslessTimely, ops)
    ensures Linked(Feed(ops)) && UpToDate(Feed(ops)) && Feed(ops).book == Watch(ops).book == Run(ops)
    ensures !Watch(ops).suspect
  {
    if ops != [] {
      var f, op := Feed(ops[..|ops| - 1]), ops[|ops| - 1];
      NeverSuspect(ops[..|ops| - 1]);
      StepKeepsLinked(f, op);
      StepKeepsUpToDate(f, op);
    }
  }

  /** So a live book is the venue's book, without exception. */
  lemma LiveBookIsTrueInOrder(T: Truth, ops: seq<Op>)
    requires Sound(T) && forall op | op in ops :: Genuine(T, op)
    requires Along(LosslessTimely, ops)
    ensures Run(ops).mode == Live ==> Truthful(Run(ops), T, Watch(ops).covers)
  {
    LiveBookIsTrue(T, ops);
    NeverSuspect(ops);
  }
}
