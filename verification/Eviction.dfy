/** The bounded resync buffer is safe: shedding its oldest events can make a
    snapshot be refused, but never makes a book go live differently. */
module Eviction {
  import opened Levels
  import opened BookModel
  import opened Delivery

  /** The same book with no bound on what it buffered: `log` is every event
      delivered since it began buffering. */
  function Unbounded(b: BookValue, log: seq<Event>): BookValue {
    b.(buffer := log)
  }

  /** How many events of a log the bounded buffer has to shed. */
  function Excess(log: seq<Event>): nat {
    if |log| <= BUFFER_MAX then 0 else |log| - BUFFER_MAX
  }

  function WithShed(r: Synced, n: nat): Synced {
    r.(book := r.book.(dropped := n))
  }

  predicate Disjoint(es: seq<Event>) {
    forall i, j | 0 <= i < |es| && i < j < |es| && j == i + 1 :: es[i].last < es[j].first
  }

  predicate Proper(es: seq<Event>) {
    forall e | e in es :: e.first <= e.last
  }

  function Deliver(b: BookValue, es: seq<Event>): BookValue {
    if es == [] then b else OnDepth(Deliver(b, es[..|es| - 1]), es[|es| - 1]).book
  }

  lemma PushNewest(es: seq<Event>)
    requires es != []
    ensures var init, e := es[..|es| - 1], es[|es| - 1];
            es[Excess(es)..] == if |init| < BUFFER_MAX then init[Excess(init)..] + [e]
                                else init[Excess(init)..][1..] + [e]
  {
    var init, e := es[..|es| - 1], es[|es| - 1];
    assert es == init + [e];
  }

  /** What buffering leaves: the newest BUFFER_MAX events, the rest counted. */
  lemma {:induction false} DeliverKeepsNewest(b: BookValue, es: seq<Event>)
    requires b.mode == Buffering && b.buffer == []
    ensures Deliver(b, es) == b.(buffer := es[Excess(es)..], dropped := b.dropped + Excess(es))
  {
    if es != [] {
      DeliverKeepsNewest(b, es[..|es| - 1]);
      PushNewest(es);
    }
  }

  lemma {:induction false} SkippedPrefix(b: BookValue, es: seq<Event>, k: nat, id: nat)
    requires k <= |es| && forall i | 0 <= i < k :: es[i].last < id
    ensures Replay(b, es, id) == Replay(b, es[k..], id)
  {
    if k == |es| {
      if es != [] {
        SkippedPrefix(b, es[..|es| - 1], |es| - 1, id);
        assert es[..|es| - 1][|es| - 1..] == [];
        assert es[|es|..] == [];
      } else {
        assert es[0..] == es;
      }
    } else {
      var init := es[..|es| - 1];
      SkippedPrefix(b, init, k, id);
      assert es[k..][..|es[k..]| - 1] == init[k..];
    }
  }

  lemma DisjointAscends(es: seq<Event>, i: nat, j: nat)
    requires Disjoint(es) && Proper(es) && i < j < |es|
    ensures es[i].last < es[j].first
    decreases j
  {
    if i < j - 1 {
      DisjointAscends(es, i, j - 1);
      assert es[j - 1] in es;
    }
  }

  /** Dropping any number of the oldest events, but not all of them, leaves the
      replay as it was or makes it fail. */
  lemma SuffixReplaysSameOrFails(b: BookValue, es: seq<Event>, k: nat, id: nat)
    requires Disjoint(es) && Proper(es) && k < |es|
    ensures Replay(b, es[k..], id) == Replay(b, es, id) || !Replay(b, es[k..], id).ok
  {
    if forall i | 0 <= i < k :: es[i].last < id {
      SkippedPrefix(b, es, k, id);
    } else {
      var i :| 0 <= i < k && es[i].last >= id;
      DisjointAscends(es, i, k);
      var kept := es[k..];
      assert kept[0] == es[k] && es[k] in es;
      assert kept[..1] == [kept[0]] && kept[..1][..0] == [];
      assert !Replay(b, kept[..1], id).ok;
      ReplayStuck(b, kept, 1, id);
    }
  }

  lemma {:induction false} ReplayIgnoresDropped(b: BookValue, es: seq<Event>, id: nat, n: nat)
    ensures var r := Replay(b, es, id);
            Replay(b.(dropped := n), es, id) == r.(book := r.book.(dropped := n))
  {
    if es != [] {
      ReplayIgnoresDropped(b, es[..|es| - 1], id, n);
    }
  }

  lemma CheckIgnoresDropped(b: BookValue, n: nat)
    ensures var c := CheckIntegrity(b);
            CheckIntegrity(b.(dropped := n)) == c.(book := c.book.(dropped := n))
  {
  }

  lemma SnapshotIgnoresDropped(b: BookValue, s: Snapshot, n: nat)
    requires b.mode == Buffering
    ensures OnSnapshot(b.(dropped := n), s) == WithShed(OnSnapshot(b, s), n)
  {
    ReplayIgnoresDropped(Loaded(b, s), b.buffer, s.id, n);
    assert Loaded(b.(dropped := n), s) == Loaded(b, s).(dropped := n);
    var r := Replay(Loaded(b, s), b.buffer, s.id);
    CheckIgnoresDropped(GoLive(r), n);
    assert GoLive(r.(book := r.book.(dropped := n))) == GoLive(r).(dropped := n);
  }

  lemma ShorterBufferSameOrRefused(b: BookValue, log: seq<Event>, k: nat, s: Snapshot)
    requires b.mode == Buffering && Disjoint(log) && Proper(log) && k < |log|
    ensures var cut := OnSnapshot(b.(buffer := log[k..]), s);
            !cut.live || cut == OnSnapshot(b.(buffer := log), s)
  {
    var loaded := Loaded(b, s);
    assert Loaded(b.(buffer := log), s) == loaded == Loaded(b.(buffer := log[k..]), s);
    SuffixReplaysSameOrFails(loaded, log, k, s.id);
  }

  /** Below the bound nothing is shed and nothing can differ. */
  lemma NoEvictionNoDifference(b: BookValue, log: seq<Event>)
    requires b.mode == Buffering && b.buffer == [] && |log| <= BUFFER_MAX
    ensures Deliver(b, log) == Unbounded(b, log)
  {
    DeliverKeepsNewest(b, log);
    assert log[0..] == log;
  }

  /** For any log of buffered events with disjoint ranges, however long: the bounded
      book answers a snapshot with exactly the book and result an unbounded buffer
      would have given, shed events counted, or refuses it; it never goes live with
      another book, and up to the bound it always answers alike. */
  lemma EvictionIsSafe(b: BookValue, log: seq<Event>, s: Snapshot)
    requires b.mode == Buffering && b.buffer == []
    requires Disjoint(log) && Proper(log)
    ensures var bounded, unbounded := OnSnapshot(Deliver(b, log), s), OnSnapshot(Unbounded(b, log), s);
            && (!bounded.live || bounded == WithShed(unbounded, b.dropped + Excess(log)))
            && (|log| <= BUFFER_MAX ==> bounded == unbounded)
  {
    if |log| <= BUFFER_MAX {
      NoEvictionNoDifference(b, log);
    }
    DeliverKeepsNewest(b, log);
    var k := Excess(log);
    var cut := b.(buffer := log[k..]);
    var shed := b.dropped + k;
    assert Deliver(b, log) == cut.(dropped := shed);
    calc {
      OnSnapshot(Deliver(b, log), s);
      OnSnapshot(cut.(dropped := shed), s);
      { SnapshotIgnoresDropped(cut, s, shed); }
      WithShed(OnSnapshot(cut, s), shed);
    }
    if log == [] {
      assert cut == Unbounded(b, log);
    } else {
      ShorterBufferSameOrRefused(b, log, k, s);
    }
  }

  // ---- Over whole runs ----

  /** Each connection delivers disjoint ranges in order; events may be lost. */
  predicate Ascends(f: Fed, op: Op) {
    op.Depth? ==> op.event.first <= op.event.last && (f.seen.Some? ==> f.seen.value < op.event.first)
  }

  function LogStep(b: BookValue, log: seq<Event>, op: Op): seq<Event> {
    match op
    case Depth(e) =>
      if OnDepth(b, e).book.mode != Buffering then [] else if b.mode == Buffering then log + [e] else [e]
    case Sync(_) => if b.mode == Buffering then [] else log
    case Ticker(_, _) => log
    case _ => []
  }

  /** Every event delivered since the book began to buffer. */
  function LogOf(ops: seq<Op>): seq<Event> {
    if ops == [] then [] else LogStep(Run(ops[..|ops| - 1]), LogOf(ops[..|ops| - 1]), ops[|ops| - 1])
  }

  function ShedStep(b: BookValue, shedBefore: nat, op: Op): nat {
    if b.mode == Buffering && (op.Depth? || op.Ticker?) then shedBefore else b.dropped
  }

  /** How many events had been shed when it did. */
  function ShedBefore(ops: seq<Op>): nat {
    if ops == [] then 0 else ShedStep(Run(ops[..|ops| - 1]), ShedBefore(ops[..|ops| - 1]), ops[|ops| - 1])
  }

  /** The buffer is the newest part of the log and the rest is counted; the log
      itself has disjoint ranges and ends with the last delivery. */
  predicate LogKept(f: Fed, log: seq<Event>, shedBefore: nat) {
    && (f.book.mode == Buffering ==>
          f.book.buffer == log[Excess(log)..] && f.book.dropped == shedBefore + Excess(log))
    && (f.book.mode != Buffering ==> log == [] && f.book.buffer == [])
    && Disjoint(log) && Proper(log)
    && (log != [] ==> f.seen == Some(log[|log| - 1].last))
  }

  lemma DisjointAppend(log: seq<Event>, e: Event)
    requires Disjoint(log) && Proper(log) && e.first <= e.last
    requires log != [] ==> log[|log| - 1].last < e.first
    ensures Disjoint(log + [e]) && Proper(log + [e])
  {
  }

  lemma PushFollowsLog(b: BookValue, log: seq<Event>, e: Event)
    requires b.buffer == log[Excess(log)..]
    ensures Push(b, e).buffer == (log + [e])[Excess(log + [e])..]
    ensures Push(b, e).dropped - b.dropped == Excess(log + [e]) - Excess(log)
  {
    assert (log + [e])[..|log|] == log;
    PushNewest(log + [e]);
  }

  lemma BufferedKeepsLog(f: Fed, e: Event, log: seq<Event>, shedBefore: nat)
    requires LogKept(f, log, shedBefore) && Ascends(f, Depth(e)) && f.book.mode == Buffering
    ensures LogKept(FeedStep(f, Depth(e)), log + [e], shedBefore)
  {
    PushFollowsLog(f.book, log, e);
    DisjointAppend(log, e);
  }

  lemma FirstStartsLog(f: Fed, e: Event)
    requires f.book.mode != Buffering && f.book.buffer == [] && e.first <= e.last
    ensures var next := FeedStep(f, Depth(e));
            LogKept(next, if next.book.mode == Buffering then [e] else [], f.book.dropped)
  {
    FirstIsBuffered(f.book, e);
    assert Disjoint([e]) && Proper([e]);
  }

  lemma FirstIsBuffered(b: BookValue, e: Event)
    requires b.mode != Buffering && b.buffer == []
    ensures var n := OnDepth(b, e).book;
            n.dropped == b.dropped && n.buffer == if n.mode == Buffering then [e] else []
  {
    if b.mode == Live {
      LiveOutcomes(b, e);
    }
  }

  lemma DepthKeepsLog(f: Fed, e: Event, log: seq<Event>, shedBefore: nat)
    requires LogKept(f, log, shedBefore) && Ascends(f, Depth(e))
    ensures LogKept(FeedStep(f, Depth(e)), LogStep(f.book, log, Depth(e)), ShedStep(f.book, shedBefore, Depth(e)))
  {
    if f.book.mode == Buffering {
      BufferedKeepsLog(f, e, log, shedBefore);
    } else {
      FirstStartsLog(f, e);
    }
  }

  lemma SyncDrops(b: BookValue, s: Snapshot)
    requires b.mode == Buffering
    ensures OnSnapshot(b, s).book.buffer == [] && OnSnapshot(b, s).book.dropped == b.dropped
  {
  }

  lemma StepKeepsLog(f: Fed, op: Op, log: seq<Event>, shedBefore: nat)
    requires LogKept(f, log, shedBefore) && Ascends(f, op)
    ensures LogKept(FeedStep(f, op), LogStep(f.book, log, op), ShedStep(f.book, shedBefore, op))
  {
    match op
    case Depth(e) => DepthKeepsLog(f, e, log, shedBefore);
    case Sync(s) =>
      if f.book.mode == Buffering {
        SyncDrops(f.book, s);
      }
    case _ =>
  }

  lemma {:induction false} BufferIsNewestOfLog(ops: seq<Op>)
    requires Along(Ascends, ops)
    ensures Feed(ops).book == Run(ops) && LogKept(Feed(ops), LogOf(ops), ShedBefore(ops))
  {
    if ops != [] {
      var init := ops[..|ops| - 1];
      BufferIsNewestOfLog(init);
      StepKeepsLog(Feed(init), ops[|ops| - 1], LogOf(init), ShedBefore(init));
    }
  }

  /** In every reachable state of a book that is buffering, with losses, tickers,
      refused snapshots, resets and fallbacks before it, and however long it has
      buffered: a snapshot is answered exactly as by a book that kept every event
      since it began to buffer, or it is refused. */
  lemma EvictionIsSafeOnRuns(ops: seq<Op>, s: Snapshot)
    requires Along(Ascends, ops) && Run(ops).mode == Buffering
    ensures var b, log := Run(ops), LogOf(ops);
            && b.buffer == log[Excess(log)..] && b.dropped == ShedBefore(ops) + Excess(log)
            && |b.buffer| == (if |log| <= 5000 then |log| else 5000)
            && var bounded, unbounded := OnSnapshot(b, s), OnSnapshot(Unbounded(b, log), s);
               (!bounded.live || bounded == unbounded) && (|log| <= BUFFER_MAX ==> bounded == unbounded)
  {
    BufferIsNewestOfLog(ops);
    var b, log := Run(ops), LogOf(ops);
    assert b == b.(buffer := log[Excess(log)..]);
    if |log| <= BUFFER_MAX {
      assert log[0..] == log;
    } else {
      ShorterBufferSameOrRefused(b, log, Excess(log), s);
    }
  }

  /** Lossless delivery is such a run. */
  lemma {:induction false} LosslessAscends(ops: seq<Op>)
    requires Along(Lossless, ops)
    ensures Along(Ascends, ops)
  {
    if ops != [] {
      LosslessAscends(ops[..|ops| - 1]);
    }
  }

  /** In particular over lossless delivery, whatever the age of the snapshots. */
  lemma EvictionIsSafeInOrder(ops: seq<Op>, s: Snapshot)
    requires Along(Lossless, ops) && Run(ops).mode == Buffering
    ensures var b := Run(ops);
            var bounded, unbounded := OnSnapshot(b, s), OnSnapshot(Unbounded(b, LogOf(ops)), s);
            !bounded.live || bounded == unbounded
  {
    LosslessAscends(ops);
    EvictionIsSafeOnRuns(ops, s);
  }
}
