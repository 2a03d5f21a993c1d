/** The snapshot pacer: rate-limit slots handed out in (rank, arrival) order, one
    per interval, with none spent on a requester that has gone away. */
module Pacer {

  /** A pending request; `arrival` is its sequence number, unique to it. */
  datatype Ticket = Ticket(rank: nat, arrival: nat)

  predicate Before(a: Ticket, b: Ticket) {
    a.rank < b.rank || (a.rank == b.rank && a.arrival < b.arrival)
  }

  predicate IsLeast(s: set<Ticket>, t: Ticket) {
    t in s && forall x | x in s && x != t :: Before(t, x)
  }

  lemma {:induction false} HasLeast(s: set<Ticket>)
    requires s != {}
    ensures exists t :: IsLeast(s, t)
  {
    var x :| x in s;
    var rest := s - {x};
    assert forall y | y in s :: y == x || y in rest;
    if rest == {} {
      assert IsLeast(s, x);
    } else {
      HasLeast(rest);
      var y :| IsLeast(rest, y);
      assert IsLeast(s, if Before(x, y) then x else y);
    }
  }

  function Least(s: set<Ticket>): (t: Ticket)
    requires s != {}
    ensures IsLeast(s, t)
  {
    HasLeast(s);
    var t :| t in s && IsLeast(s, t);
    t
  }

  // ---- The heap: largest first, by an inverted comparison ----

  datatype Ordering = Less | Equal | Greater

  function CompareNumbers(a: nat, b: nat): Ordering {
    if a < b then Less else if a == b then Equal else Greater
  }

  /** Pairs compare by their first components, then by their second. */
  function ComparePairs(a: (nat, nat), b: (nat, nat)): Ordering {
    if a.0 != b.0 then CompareNumbers(a.0, b.0) else CompareNumbers(a.1, b.1)
  }

  /** The tickets' own order, the other way round. */
  function Compare(self: Ticket, other: Ticket): Ordering {
    ComparePairs((other.rank, other.arrival), (self.rank, self.arrival))
  }

  predicate IsGreatest(s: set<Ticket>, t: Ticket) {
    t in s && forall x | x in s :: Compare(x, t) != Greater
  }

  /** No ticket compares greater than the one with the lowest rank, and among those
      the first to arrive; and no other ticket has that property. */
  lemma GreatestIsLeast(s: set<Ticket>, t: Ticket)
    ensures IsGreatest(s, t) <==> IsLeast(s, t)
  {
    if IsGreatest(s, t) {
      forall x | x in s && x != t ensures Before(t, x) {
        assert Compare(x, t) != Greater;
      }
    }
    if IsLeast(s, t) {
      forall x | x in s ensures Compare(x, t) != Greater {
        assert x != t ==> Before(t, x);
      }
    }
  }

  /** What popping a max-heap under that order yields. */
  function PopMax(s: set<Ticket>): (t: Ticket)
    requires s != {}
    ensures IsGreatest(s, t) && t == Least(s)
  {
    GreatestIsLeast(s, Least(s));
    var t :| t in s && IsGreatest(s, t);
    GreatestIsLeast(s, t);
    t
  }

  // ---- The pacing loop in place ----

  datatype Outcome = Granted(ticket: Ticket) | Discarded(ticket: Ticket) | Early | Due | Received | Idle

  datatype Queues = Queues(channel: seq<Ticket>, heap: set<Ticket>, nextAt: real)

  function Drained(q: Queues): Queues {
    q.(channel := [], heap := q.heap + set t | t in q.channel)
  }

  datatype Decided = Decided(queues: Queues, outcome: Outcome)

  /** After a drain: wait for a ticket if there is none, else read the clock and wait
      for the next slot unless it is due. */
  function DecideLook(q: Queues, now: real): Decided {
    if q.heap == {} then
      if q.channel == [] then Decided(q, Idle)
      else Decided(q.(channel := q.channel[1..], heap := {q.channel[0]}), Received)
    else Decided(q, if q.nextAt > now then Early else Due)
  }

  /** With a slot due: pop a ticket and grant it unless its requester is gone. The
      next slot is counted from the clock as it was read, not as it is now. */
  function DecidePop(q: Queues, reading: real, gone: set<Ticket>, interval: real): Decided
    requires q.heap != {}
  {
    var t := PopMax(q.heap);
    if t in gone then Decided(q.(heap := q.heap - {t}), Discarded(t))
    else Decided(q.(heap := q.heap - {t}, nextAt := reading + interval), Granted(t))
  }

  class PaceLoop {
    var channel: seq<Ticket>
    var heap: set<Ticket>
    var nextAt: real
    const interval: real

    ghost function Value(): Queues
      reads this
    {
      Queues(channel, heap, nextAt)
    }

    /** The first slot is one interval out, never immediate. */
    constructor (interval: real, now: real)
      ensures this.interval == interval && Value() == Queues([], {}, now + interval)
    {
      this.interval := interval;
      channel, heap, nextAt := [], {}, now + interval;
    }

    method Drain()
      modifies this
      ensures Value() == Drained(old(Value()))
    {
      while channel != []
        invariant nextAt == old(nextAt)
        invariant heap + (set t | t in channel) == old(heap) + (set t | t in old(channel))
        decreases |channel|
      {
        assert channel == [channel[0]] + channel[1..];
        heap := heap + {channel[0]};
        channel := channel[1..];
      }
    }

    /** The middle of one iteration, up to the decision what to do with the clock as
        read. */
    method Look(now: real) returns (outcome: Outcome)
      modifies this
      ensures DecideLook(old(Value()), now) == Decided(Value(), outcome)
    {
      if heap == {} {
        if channel == [] {
          return Idle;
        }
        heap := {channel[0]};
        channel := channel[1..];
        return Received;
      }
      if nextAt > now {
        return Early;
      }
      return Due;
    }

    /** The rest of it, given that reading and who has gone away by the time the
        permit is sent. */
    method Pop(reading: real, gone: set<Ticket>) returns (outcome: Outcome)
      requires heap != {}
      modifies this
      ensures DecidePop(old(Value()), reading, gone, interval) == Decided(Value(), outcome)
    {
      var t := PopMax(heap);
      heap := heap - {t};
      if t in gone {
        return Discarded(t);
      }
      nextAt := reading + interval;
      return Granted(t);
    }
  }

  // ---- Runs: requesters, cancellations, the clock and the loop interleaved ----

  /** A granted slot and when its permit was sent, with the tickets that were waiting
      and the requesters that had gone by then. */
  datatype Grant = Grant(ticket: Ticket, at: real, waiting: set<Ticket>, gone: set<Ticket>)

  /** Where the loop is: before the drain, before it looks at the heap and the clock,
      or about to pop for a slot found due at that reading. */
  datatype Phase = Draining | Looking | Popping(reading: real)

  /** `readings` holds, grant by grant, the clock as it was read for it. */
  datatype State = State(
    queues: Queues,
    phase: Phase,
    issued: set<Ticket>,
    reserved: set<Ticket>,
    gone: set<Ticket>,
    nextSeq: nat,
    clock: real,
    grants: seq<Grant>,
    readings: seq<real>,
    discards: set<Ticket>)

  datatype Move =
    | Reserve(rank: nat)
    | Send(ticket: Ticket)
    | Abandon(ticket: Ticket)
    | Pass(seconds: real)
    | Drain
    | TakeLook
    | TakeTicket

  predicate Enabled(s: State, m: Move) {
    match m
    case Send(t) => t in s.reserved
    case Pass(dt) => dt >= 0.0
    case Drain => s.phase.Draining?
    case TakeLook => s.phase.Looking?
    case TakeTicket => s.phase.Popping? && s.queues.heap != {}
    case _ => true
  }

  function AfterLook(s: State): State {
    var d := DecideLook(s.queues, s.clock);
    s.(queues := d.queues, phase := if d.outcome.Due? then Popping(s.clock) else Draining)
  }

  function AfterPop(s: State, interval: real): State
    requires Enabled(s, TakeTicket)
  {
    var d := DecidePop(s.queues, s.phase.reading, s.gone, interval);
    var next := s.(queues := d.queues, phase := Draining);
    match d.outcome
    case Granted(t) =>
      next.(grants := s.grants + [Grant(t, s.clock, s.queues.heap, s.gone)],
            readings := s.readings + [s.phase.reading])
    case Discarded(t) => next.(discards := s.discards + {t})
    case _ => next
  }

  function After(s: State, m: Move, interval: real): State
    requires Enabled(s, m)
  {
    match m
    case Reserve(rank) =>
      var t := Ticket(rank, s.nextSeq);
      s.(issued := s.issued + {t}, reserved := s.reserved + {t}, nextSeq := s.nextSeq + 1)
    case Send(t) => s.(reserved := s.reserved - {t}, queues := s.queues.(channel := s.queues.channel + [t]))
    case Abandon(t) => s.(gone := s.gone + {t})
    case Pass(dt) => s.(clock := s.clock + dt)
    case Drain => s.(queues := Drained(s.queues), phase := Looking)
    case TakeLook => AfterLook(s)
    case TakeTicket => AfterPop(s, interval)
  }

  function Start(now: real, interval: real): State {
    State(Queues([], {}, now + interval), Draining, {}, {}, {}, 0, now, [], [], {})
  }

  predicate Possible(s: State, moves: seq<Move>, interval: real)
    decreases |moves|, 0
  {
    moves == [] || (Possible(s, moves[..|moves| - 1], interval) &&
                    Enabled(Reached(s, moves[..|moves| - 1], interval), moves[|moves| - 1]))
  }

  function Reached(s: State, moves: seq<Move>, interval: real): State
    requires Possible(s, moves, interval)
    decreases |moves|, 1
  {
    if moves == [] then s else After(Reached(s, moves[..|moves| - 1], interval), moves[|moves| - 1], interval)
  }

  lemma OneMore(s: State, moves: seq<Move>, m: Move, interval: real)
    requires Possible(s, moves, interval) && Enabled(Reached(s, moves, interval), m)
    ensures Possible(s, moves + [m], interval)
    ensures Reached(s, moves + [m], interval) == After(Reached(s, moves, interval), m, interval)
  {
    assert (moves + [m])[..|moves|] == moves;
  }

  // ---- Counting moments in windows ----

  /** The length of `n` intervals. */
  function Intervals(n: nat, interval: real): real {
    if n == 0 then 0.0 else Intervals(n - 1, interval) + interval
  }

  lemma {:induction false} IntervalsIsProduct(n: nat, interval: real)
    ensures Intervals(n, interval) == n as real * interval
  {
    if n > 0 {
      IntervalsIsProduct(n - 1, interval);
    }
  }

  lemma {:induction false} IntervalsMonotone(a: nat, b: nat, interval: real)
    requires a <= b && interval >= 0.0
    ensures Intervals(a, interval) <= Intervals(b, interval)
  {
    if a < b {
      IntervalsMonotone(a, b - 1, interval);
    }
  }

  predicate Apart(ts: seq<real>, interval: real) {
    forall i, j | 0 <= i < |ts| && i < j < |ts| && j == i + 1 :: ts[j] - ts[i] >= interval
  }

  lemma {:induction false} ApartAtLeast(ts: seq<real>, i: nat, j: nat, interval: real)
    requires i <= j < |ts| && Apart(ts, interval)
    ensures ts[j] - ts[i] >= Intervals(j - i, interval)
    decreases j
  {
    if i < j {
      ApartAtLeast(ts, i, j - 1, interval);
    }
  }

  lemma ApartAppend(ts: seq<real>, t: real, interval: real)
    requires Apart(ts, interval) && (ts != [] ==> t - ts[|ts| - 1] >= interval)
    ensures Apart(ts + [t], interval)
  {
  }

  predicate InWindow(t: real, from: real, length: real) {
    from <= t < from + length
  }

  function CountIn(ts: seq<real>, from: real, length: real): nat {
    if ts == [] then 0
    else CountIn(ts[..|ts| - 1], from, length) + if InWindow(ts[|ts| - 1], from, length) then 1 else 0
  }

  /** Moments counted in a window lie at least that many positions apart, and the
      first of them is the first there is in it. */
  lemma {:induction false} CountSpans(ts: seq<real>, from: real, length: real) returns (i: nat, j: nat)
    requires CountIn(ts, from, length) > 0
    ensures i <= j < |ts| && InWindow(ts[i], from, length) && InWindow(ts[j], from, length)
    ensures j - i + 1 >= CountIn(ts, from, length)
    ensures forall k | 0 <= k < i :: !InWindow(ts[k], from, length)
  {
    var last := |ts| - 1;
    var init := ts[..last];
    if CountIn(init, from, length) == 0 {
      i, j := last, last;
      NoneCounted(init, from, length);
    } else {
      i, j := CountSpans(init, from, length);
      if InWindow(ts[last], from, length) {
        j := last;
      }
    }
  }

  lemma {:induction false} NoneCounted(ts: seq<real>, from: real, length: real)
    requires CountIn(ts, from, length) == 0
    ensures forall k | 0 <= k < |ts| :: !InWindow(ts[k], from, length)
  {
    if ts != [] {
      NoneCounted(ts[..|ts| - 1], from, length);
    }
  }

  /** Moments an interval apart: one fewer intervals than moments fit in the window. */
  lemma CountFits(ts: seq<real>, interval: real, from: real, length: real)
    requires interval >= 0.0 && CountIn(ts, from, length) > 0 && Apart(ts, interval)
    ensures Intervals(CountIn(ts, from, length) - 1, interval) < length
  {
    var i, j := CountSpans(ts, from, length);
    ApartAtLeast(ts, i, j, interval);
    IntervalsMonotone(CountIn(ts, from, length) - 1, j - i, interval);
  }

  // ---- Rate ----

  function Sends(gs: seq<Grant>): (ts: seq<real>)
    ensures |ts| == |gs| && forall k | 0 <= k < |gs| :: ts[k] == gs[k].at
  {
    if gs == [] then [] else Sends(gs[..|gs| - 1]) + [gs[|gs| - 1].at]
  }

  /** Each permit is sent no earlier than the clock was read for it and no later than
      it is read for the next. */
  predicate Interleaved(readings: seq<real>, sends: seq<real>) {
    && |sends| == |readings|
    && (forall k | 0 <= k < |sends| :: readings[k] <= sends[k])
    && (forall i, j | 0 <= i < |sends| && i < j < |sends| && j == i + 1 :: sends[i] <= readings[j])
  }

  /** Readings are an interval apart, the next slot is exactly one interval after the
      last, and no permit is sent before the loop has looked. */
  predicate Spaced(s: State, start: real, interval: real) {
    var sends := Sends(s.grants);
    && Apart(s.readings, interval) && Interleaved(s.readings, sends)
    && (sends != [] ==> s.readings[0] >= start + interval && sends[|sends| - 1] <= s.clock)
    && s.queues.nextAt == (if s.readings == [] then start else s.readings[|s.readings| - 1]) + interval
    && (s.phase.Popping? ==>
          s.queues.nextAt <= s.phase.reading <= s.clock &&
          (sends != [] ==> sends[|sends| - 1] <= s.phase.reading))
  }

  lemma InterleavedAppend(readings: seq<real>, sends: seq<real>, r: real, t: real)
    requires Interleaved(readings, sends) && r <= t && (sends != [] ==> sends[|sends| - 1] <= r)
    ensures Interleaved(readings + [r], sends + [t])
  {
  }

  lemma SendsAppend(gs: seq<Grant>, g: Grant)
    ensures Sends(gs + [g]) == Sends(gs) + [g.at]
  {
    assert (gs + [g])[..|gs|] == gs;
  }

  lemma GrantKeepsSpaced(s: State, start: real, interval: real)
    requires Spaced(s, start, interval) && Enabled(s, TakeTicket) && PopMax(s.queues.heap) !in s.gone
    ensures Spaced(After(s, TakeTicket, interval), start, interval)
  {
    SendsAppend(s.grants, Grant(PopMax(s.queues.heap), s.clock, s.queues.heap, s.gone));
    ApartAppend(s.readings, s.phase.reading, interval);
    InterleavedAppend(s.readings, Sends(s.grants), s.phase.reading, s.clock);
  }

  lemma DiscardKeepsSpaced(s: State, start: real, interval: real)
    requires Spaced(s, start, interval) && Enabled(s, TakeTicket) && PopMax(s.queues.heap) in s.gone
    ensures Spaced(After(s, TakeTicket, interval), start, interval)
  {
  }

  lemma OtherMoveKeepsSpaced(s: State, m: Move, start: real, interval: real)
    requires Spaced(s, start, interval) && Enabled(s, m) && !m.TakeTicket?
    ensures Spaced(After(s, m, interval), start, interval)
  {
    assert After(s, m, interval).grants == s.grants && After(s, m, interval).readings == s.readings;
  }

  lemma StepKeepsSpaced(s: State, m: Move, start: real, interval: real)
    requires Spaced(s, start, interval) && Enabled(s, m)
    ensures Spaced(After(s, m, interval), start, interval)
  {
    if !m.TakeTicket? {
      OtherMoveKeepsSpaced(s, m, start, interval);
    } else if PopMax(s.queues.heap) in s.gone {
      DiscardKeepsSpaced(s, start, interval);
    } else {
      GrantKeepsSpaced(s, start, interval);
    }
  }

  /** On every run the loop's readings are an interval apart, and each permit is sent
      between its own reading and the next. */
  lemma {:induction false} GrantsAreSpaced(start: real, moves: seq<Move>, interval: real)
    requires Possible(Start(start, interval), moves, interval)
    ensures Spaced(Reached(Start(start, interval), moves, interval), start, interval)
  {
    if moves != [] {
      var init := moves[..|moves| - 1];
      GrantsAreSpaced(start, init, interval);
      StepKeepsSpaced(Reached(Start(start, interval), init, interval), moves[|moves| - 1], start, interval);
    }
  }

  /** The k-th permit is sent no earlier than k intervals after the start. */
  lemma KthGrantNotBefore(start: real, moves: seq<Move>, interval: real, k: nat)
    requires Possible(Start(start, interval), moves, interval)
    requires 1 <= k <= |Reached(Start(start, interval), moves, interval).grants|
    ensures Reached(Start(start, interval), moves, interval).grants[k - 1].at >= start + Intervals(k, interval)
  {
    GrantsAreSpaced(start, moves, interval);
    var s := Reached(Start(start, interval), moves, interval);
    ApartAtLeast(s.readings, 0, k - 1, interval);
    assert Sends(s.grants)[k - 1] >= s.readings[k - 1];
  }

  predicate FirstIn(ts: seq<real>, from: real, length: real, i: nat) {
    i < |ts| && InWindow(ts[i], from, length) && forall k | 0 <= k < i :: !InWindow(ts[k], from, length)
  }

  /** The first permit sent in the window belongs to a slot read before it. */
  ghost predicate ReadBefore(readings: seq<real>, sends: seq<real>, from: real, length: real)
    requires |sends| == |readings|
  {
    exists i: nat :: FirstIn(sends, from, length, i) && readings[i] < from
  }

  lemma SendsApart(readings: seq<real>, sends: seq<real>, interval: real, i: nat, j: nat)
    requires interval >= 0.0 && Apart(readings, interval) && Interleaved(readings, sends)
    requires i <= j < |sends|
    ensures i < j ==> sends[j] - sends[i] >= Intervals(j - i - 1, interval)
    ensures sends[j] - readings[i] >= Intervals(j - i, interval)
  {
    ApartAtLeast(readings, i, j, interval);
    if i < j {
      assert sends[i] <= readings[i + 1];
      ApartAtLeast(readings, i + 1, j, interval);
    }
  }

  /** Sends that follow spaced readings: the send of one slot may be put off until the
      next is due, so a window can hold one more of them than of readings, and only
      if the first of them was read before the window. */
  lemma SendsFit(readings: seq<real>, sends: seq<real>, interval: real, from: real, length: real)
    requires interval >= 0.0 && Apart(readings, interval) && Interleaved(readings, sends)
    ensures var n := CountIn(sends, from, length);
            && (n > 1 ==> Intervals(n - 2, interval) < length)
            && (n > 0 ==> Intervals(n - 1, interval) < length || ReadBefore(readings, sends, from, length))
  {
    if CountIn(sends, from, length) > 0 {
      var i, j := CountSpans(sends, from, length);
      SendsApart(readings, sends, interval, i, j);
      SpanFits(CountIn(sends, from, length), j - i, interval, length, sends[j] - sends[i], sends[j] - readings[i]);
      assert FirstIn(sends, from, length, i);
      assert sends[j] - sends[i] < length && (readings[i] >= from ==> sends[j] - readings[i] < length);
    }
  }

  /** At most `span + 1` moments, the last that far behind the first and that far
      behind the first reading. */
  lemma SpanFits(n: nat, span: nat, interval: real, length: real, ofSends: real, sinceReading: real)
    requires interval >= 0.0 && 1 <= n <= span + 1
    requires span > 0 ==> ofSends >= Intervals(span - 1, interval)
    requires sinceReading >= Intervals(span, interval)
    ensures n > 1 && ofSends < length ==> Intervals(n - 2, interval) < length
    ensures sinceReading < length ==> Intervals(n - 1, interval) < length
  {
    IntervalsMonotone(n - 1, span, interval);
    if n > 1 {
      IntervalsMonotone(n - 2, span - 1, interval);
    }
  }

  /** What a half-open window holds: at most ceil(length / interval) readings, and at
      most one more permit sent, and that only if the first of them was put off from
      before the window. */
  ghost predicate WindowHolds(readings: seq<real>, sends: seq<real>, interval: real, from: real, length: real)
    requires |sends| == |readings|
  {
    var read, sent := CountIn(readings, from, length), CountIn(sends, from, length);
    && (read > 0 ==> Intervals(read - 1, interval) < length)
    && (sent > 1 ==> Intervals(sent - 2, interval) < length)
    && (sent > 0 ==> Intervals(sent - 1, interval) < length || ReadBefore(readings, sends, from, length))
  }

  lemma SpacedFits(readings: seq<real>, sends: seq<real>, interval: real, from: real, length: real)
    requires interval >= 0.0 && Apart(readings, interval) && Interleaved(readings, sends)
    ensures WindowHolds(readings, sends, interval, from, length)
  {
    if CountIn(readings, from, length) > 0 {
      CountFits(readings, interval, from, length);
    }
    SendsFit(readings, sends, interval, from, length);
  }

  /** On every run, in every window of any length; so there is no burst credit after
      idling. */
  lemma WindowBound(start: real, moves: seq<Move>, interval: real, from: real, length: real)
    requires interval >= 0.0
    requires Possible(Start(start, interval), moves, interval)
    ensures var s := Reached(Start(start, interval), moves, interval);
            |s.grants| == |s.readings| && WindowHolds(s.readings, Sends(s.grants), interval, from, length)
  {
    var s := Reached(Start(start, interval), moves, interval);
    GrantsAreSpaced(start, moves, interval);
    SpacedFits(s.readings, Sends(s.grants), interval, from, length);
  }

  const SNAPSHOT_WEIGHT: nat := 10
  const MINUTE_BUDGET: nat := 2400

  lemma QuarterSecondsInAMinute(n: nat)
    requires Intervals(n, 0.25) < 60.0
    ensures n < 240
  {
    var m := if n < 240 then n else 240;
    IntervalsMonotone(m, n, 0.25);
    IntervalsIsProduct(m, 0.25);
  }

  /** What a minute costs at four requests a second: its slots, as read, stay within
      the venue's budget; so do its permits unless the first of them was put off from
      before the minute, and then they exceed it by at most one request. */
  ghost predicate MinuteHolds(readings: seq<real>, sends: seq<real>, from: real)
    requires |sends| == |readings|
  {
    var read, sent := CountIn(readings, from, 60.0), CountIn(sends, from, 60.0);
    && read * SNAPSHOT_WEIGHT <= MINUTE_BUDGET
    && sent * SNAPSHOT_WEIGHT <= MINUTE_BUDGET + SNAPSHOT_WEIGHT
    && (sent * SNAPSHOT_WEIGHT <= MINUTE_BUDGET || ReadBefore(readings, sends, from, 60.0))
  }

  lemma QuartersFit(n: nat)
    requires n > 0 ==> Intervals(n - 1, 0.25) < 60.0
    ensures n * SNAPSHOT_WEIGHT <= MINUTE_BUDGET
  {
    if n > 0 {
      QuarterSecondsInAMinute(n - 1);
    }
  }

  lemma WindowFitsMinute(readings: seq<real>, sends: seq<real>, from: real)
    requires |sends| == |readings| && WindowHolds(readings, sends, 0.25, from, 60.0)
    ensures MinuteHolds(readings, sends, from)
  {
    var sent := CountIn(sends, from, 60.0);
    QuartersFit(CountIn(readings, from, 60.0));
    if sent > 0 {
      QuartersFit(sent - 1);
      if Intervals(sent - 1, 0.25) < 60.0 {
        QuartersFit(sent);
      }
    }
  }

  /** At four requests a second, any minute of any run. */
  lemma MinuteWithinBudget(start: real, moves: seq<Move>, from: real)
    requires Possible(Start(start, 0.25), moves, 0.25)
    ensures var s := Reached(Start(start, 0.25), moves, 0.25);
            |s.grants| == |s.readings| && MinuteHolds(s.readings, Sends(s.grants), from)
  {
    WindowBound(start, moves, 0.25, from, 60.0);
    var s := Reached(Start(start, 0.25), moves, 0.25);
    WindowFitsMinute(s.readings, Sends(s.grants), from);
  }

  // ---- Order and cancellation ----

  /** Every grant went to the least ticket waiting, whose requester was still there. */
  predicate LeastFirst(s: State) {
    forall g | g in s.grants :: IsLeast(g.waiting, g.ticket) && g.ticket !in g.gone
  }

  lemma {:induction false} GrantsGoToLeast(start: real, moves: seq<Move>, interval: real)
    requires Possible(Start(start, interval), moves, interval)
    ensures LeastFirst(Reached(Start(start, interval), moves, interval))
  {
    if moves != [] {
      GrantsGoToLeast(start, moves[..|moves| - 1], interval);
    }
  }

  // ---- Conservation ----

  function TicketsOf(gs: seq<Grant>): set<Ticket> {
    set g | g in gs :: g.ticket
  }

  function InChannel(s: State): set<Ticket> {
    set t | t in s.queues.channel
  }

  predicate Distinct(ts: seq<Ticket>) {
    forall i, j | 0 <= i < j < |ts| :: ts[i] != ts[j]
  }

  /** Every ticket issued is in exactly one place: held by its requester, in the
      channel, in the heap, granted once, or discarded after being abandoned. */
  predicate Accounted(s: State) {
    && s.issued == s.reserved + InChannel(s) + s.queues.heap + TicketsOf(s.grants) + s.discards
    && s.reserved !! InChannel(s) !! s.queues.heap !! TicketsOf(s.grants) !! s.discards
    && Distinct(s.queues.channel)
    && (forall i, j | 0 <= i < j < |s.grants| :: s.grants[i].ticket != s.grants[j].ticket)
    && s.discards <= s.gone
    && (s.phase.Popping? ==> s.queues.heap != {})
    && (forall t | t in s.issued :: t.arrival < s.nextSeq)
    && (forall a, b | a in s.issued && b in s.issued && a.arrival == b.arrival :: a == b)
  }

  lemma DrainKeepsAccounted(s: State, interval: real)
    requires Accounted(s) && Enabled(s, Drain)
    ensures Accounted(After(s, Drain, interval))
  {
    assert InChannel(After(s, Drain, interval)) == {};
  }

  lemma SendKeepsAccounted(s: State, t: Ticket, interval: real)
    requires Accounted(s) && Enabled(s, Send(t))
    ensures Accounted(After(s, Send(t), interval))
  {
    var next := After(s, Send(t), interval);
    assert InChannel(next) == InChannel(s) + {t};
    assert forall x | x in s.queues.channel :: x in InChannel(s);
  }

  lemma LookKeepsAccounted(s: State, interval: real)
    requires Accounted(s) && Enabled(s, TakeLook)
    ensures Accounted(After(s, TakeLook, interval))
  {
    var next := After(s, TakeLook, interval);
    if s.queues.heap == {} && s.queues.channel != [] {
      var first := s.queues.channel[0];
      assert s.queues.channel == [first] + next.queues.channel;
      assert InChannel(s) == InChannel(next) + {first};
      assert first !in InChannel(next);
    }
  }

  lemma GrantKeepsAccounted(s: State, interval: real)
    requires Accounted(s) && Enabled(s, TakeTicket) && PopMax(s.queues.heap) !in s.gone
    ensures Accounted(After(s, TakeTicket, interval))
  {
    var next, t := After(s, TakeTicket, interval), PopMax(s.queues.heap);
    assert InChannel(next) == InChannel(s);
    assert next.grants == s.grants + [Grant(t, s.clock, s.queues.heap, s.gone)];
    assert TicketsOf(next.grants) == TicketsOf(s.grants) + {t};
    assert t !in TicketsOf(s.grants);
    forall i | 0 <= i < |s.grants| ensures next.grants[i] == s.grants[i] && s.grants[i].ticket != t {
      assert s.grants[i].ticket in TicketsOf(s.grants);
    }
  }

  lemma DiscardKeepsAccounted(s: State, interval: real)
    requires Accounted(s) && Enabled(s, TakeTicket) && PopMax(s.queues.heap) in s.gone
    ensures Accounted(After(s, TakeTicket, interval))
  {
    var next := After(s, TakeTicket, interval);
    assert InChannel(next) == InChannel(s) && next.grants == s.grants;
  }

  lemma {:induction false} TicketsAreAccounted(start: real, moves: seq<Move>, interval: real)
    requires Possible(Start(start, interval), moves, interval)
    ensures Accounted(Reached(Start(start, interval), moves, interval))
  {
    if moves != [] {
      var init, m := moves[..|moves| - 1], moves[|moves| - 1];
      TicketsAreAccounted(start, init, interval);
      var s := Reached(Start(start, interval), init, interval);
      match m {
        case Send(t) => SendKeepsAccounted(s, t, interval);
        case Drain => DrainKeepsAccounted(s, interval);
        case TakeLook => LookKeepsAccounted(s, interval);
        case TakeTicket =>
          if PopMax(s.queues.heap) in s.gone {
            DiscardKeepsAccounted(s, interval);
          } else {
            GrantKeepsAccounted(s, interval);
          }
        case _ =>
      }
    }
  }

  lemma NewestIsLast(issued: set<Ticket>, t: Ticket)
    requires forall x | x in issued :: x.arrival < t.arrival
    ensures t !in issued && |issued + {t}| == |issued| + 1 && (issued + {t}) - issued == {t}
    ensures forall x | x in issued && x.rank <= t.rank :: Before(x, t)
  {
    assert t !in issued;
  }

  /** A request goes behind every earlier one of its rank or a better. */
  lemma NewestGoesLast(start: real, moves: seq<Move>, interval: real, rank: nat)
    requires Possible(Start(start, interval), moves, interval)
    ensures var s := Reached(Start(start, interval), moves, interval);
            var v := After(s, Reserve(rank), interval);
            && |v.issued| == |s.issued| + 1 && s.issued <= v.issued
            && forall t | t in v.issued - s.issued ::
                 t in v.reserved && t.rank == rank && forall x | x in s.issued && x.rank <= rank :: Before(x, t)
  {
    var s := Reached(Start(start, interval), moves, interval);
    TicketsAreAccounted(start, moves, interval);
    ArrivalsAreBelow(s);
    NewestIsLast(s.issued, Ticket(rank, s.nextSeq));
  }

  lemma ArrivalsAreBelow(s: State)
    requires Accounted(s)
    ensures forall x | x in s.issued :: x.arrival < s.nextSeq
  {
  }

  // ---- Overtaking ----

  predicate GrantedBetween(gs: seq<Grant>, i: nat, j: nat, t: Ticket) {
    exists k :: i <= k < j && k < |gs| && gs[k].ticket == t
  }

  /** A ticket seen waiting at some grant is at every later one still waiting,
      already granted, or discarded; and likewise now. */
  predicate Patient(s: State) {
    && (forall i, j, t | 0 <= i < j < |s.grants| && t in s.grants[i].waiting ::
          t in s.grants[j].waiting || t in s.discards || GrantedBetween(s.grants, i, j, t))
    && (forall i, t | 0 <= i < |s.grants| && t in s.grants[i].waiting ::
          t in s.queues.heap || t in s.discards || GrantedBetween(s.grants, i, |s.grants|, t))
  }

  lemma GrantKeepsPatient(s: State, interval: real)
    requires Patient(s) && Enabled(s, TakeTicket) && PopMax(s.queues.heap) !in s.gone
    ensures Patient(After(s, TakeTicket, interval))
  {
    var next := After(s, TakeTicket, interval);
    var n := |s.grants|;
    assert next.grants == s.grants + [Grant(Least(s.queues.heap), s.clock, s.queues.heap, s.gone)];
    forall i, j, t | 0 <= i < j <= n && t in next.grants[i].waiting
      ensures t in next.grants[j].waiting || t in next.discards || GrantedBetween(next.grants, i, j, t)
    {
      assert t in s.grants[i].waiting;
      if GrantedBetween(s.grants, i, j, t) {
        var k :| i <= k < j && k < n && s.grants[k].ticket == t;
        assert next.grants[k].ticket == t;
      }
    }
    forall i, t | 0 <= i <= n && t in next.grants[i].waiting
      ensures t in next.queues.heap || t in next.discards || GrantedBetween(next.grants, i, n + 1, t)
    {
      assert next.grants[n].ticket == Least(s.queues.heap);
      if i < n && GrantedBetween(s.grants, i, n, t) {
        var k :| i <= k < n && s.grants[k].ticket == t;
        assert next.grants[k].ticket == t;
      }
    }
  }

  lemma OtherMoveKeepsPatient(s: State, m: Move, interval: real)
    requires Patient(s) && Enabled(s, m) && After(s, m, interval).grants == s.grants
    ensures Patient(After(s, m, interval))
  {
    assert forall t | t in s.queues.heap :: t in After(s, m, interval).queues.heap || t in After(s, m, interval).discards;
  }

  lemma {:induction false} TicketsArePatient(start: real, moves: seq<Move>, interval: real)
    requires Possible(Start(start, interval), moves, interval)
    ensures Patient(Reached(Start(start, interval), moves, interval))
  {
    if moves != [] {
      var init, m := moves[..|moves| - 1], moves[|moves| - 1];
      var s := Reached(Start(start, interval), init, interval);
      TicketsArePatient(start, init, interval);
      if After(s, m, interval).grants == s.grants {
        OtherMoveKeepsPatient(s, m, interval);
      } else {
        GrantKeepsPatient(s, interval);
      }
    }
  }

  /** From the moment a ticket is first seen waiting until it is itself granted,
      every slot goes to a smaller ticket: latecomers overtake it only by rank. */
  lemma OvertakenOnlyBySmaller(start: real, moves: seq<Move>, interval: real, i: nat, k: nat, j: nat)
    requires Possible(Start(start, interval), moves, interval)
    requires i <= k < j < |Reached(Start(start, interval), moves, interval).grants|
    requires var gs := Reached(Start(start, interval), moves, interval).grants; gs[j].ticket in gs[i].waiting
    ensures var gs := Reached(Start(start, interval), moves, interval).grants; Before(gs[k].ticket, gs[j].ticket)
  {
    var s := Reached(Start(start, interval), moves, interval);
    GrantsGoToLeast(start, moves, interval);
    TicketsAreAccounted(start, moves, interval);
    TicketsArePatient(start, moves, interval);
    var t := s.grants[j].ticket;
    assert t in TicketsOf(s.grants);
    assert t !in s.discards && !GrantedBetween(s.grants, i, k, t);
    assert t in s.grants[k].waiting;
    assert s.grants[k] in s.grants;
  }

  // ---- A cold start is served in order ----

  /** No ticket arrives and none is abandoned. */
  predicate Quiet(moves: seq<Move>) {
    forall m | m in moves :: m.Pass? || m.Drain? || m.TakeLook? || m.TakeTicket?
  }

  predicate Sorted(gs: seq<Grant>) {
    forall i, j | 0 <= i < j < |gs| :: Before(gs[i].ticket, gs[j].ticket)
  }

  function Pending(s: State): set<Ticket> {
    s.queues.heap + InChannel(s)
  }

  /** The loop will drain the channel before it next pops the heap. */
  predicate DrainsFirst(s: State) {
    s.queues.channel == [] || s.phase.Draining? || s.queues.heap == {}
  }

  /** What has been granted since `base` grants, in order and ahead of the rest. */
  predicate ServedInOrder(s: State, base: nat, all: set<Ticket>) {
    && base <= |s.grants| && DrainsFirst(s) && (s.queues.channel != [] ==> |s.grants| == base)
    && Sorted(s.grants[base..])
    && TicketsOf(s.grants[base..]) + Pending(s) == all
    && (forall g, t | g in s.grants[base..] && t in Pending(s) :: Before(g.ticket, t))
  }

  lemma SortedAppend(gs: seq<Grant>, g: Grant)
    requires Sorted(gs) && forall x | x in gs :: Before(x.ticket, g.ticket)
    ensures Sorted(gs + [g])
  {
    forall i | 0 <= i < |gs| ensures Before(gs[i].ticket, g.ticket) {
      assert gs[i] in gs;
    }
  }

  lemma GrantServesInOrder(s: State, base: nat, all: set<Ticket>, interval: real)
    requires ServedInOrder(s, base, all) && s.queues.channel == []
    requires Enabled(s, TakeTicket) && Least(s.queues.heap) !in s.gone
    ensures ServedInOrder(After(s, TakeTicket, interval), base, all)
  {
    var next, t := After(s, TakeTicket, interval), Least(s.queues.heap);
    var g := Grant(t, s.clock, s.queues.heap, s.gone);
    var served := s.grants[base..];
    assert next.grants[base..] == served + [g];
    assert TicketsOf(next.grants[base..]) == TicketsOf(served) + {t};
    assert InChannel(next) == InChannel(s) == {};
    SortedAppend(served, g);
  }

  lemma QuietMoveServesInOrder(s: State, m: Move, base: nat, all: set<Ticket>, interval: real)
    requires ServedInOrder(s, base, all) && all !! s.gone
    requires Enabled(s, m) && (m.Pass? || m.Drain? || m.TakeLook? || m.TakeTicket?)
    ensures ServedInOrder(After(s, m, interval), base, all) && After(s, m, interval).gone == s.gone
  {
    var next := After(s, m, interval);
    if m.Drain? {
      assert InChannel(next) == {};
    } else if m.TakeLook? {
      if s.queues.heap == {} && s.queues.channel != [] {
        assert s.queues.channel == [s.queues.channel[0]] + next.queues.channel;
        assert Pending(next) == Pending(s);
      }
    } else if m.TakeTicket? {
      GrantServesInOrder(s, base, all, interval);
    }
  }

  lemma {:induction false} QuietRunServesInOrder(s: State, moves: seq<Move>, base: nat, all: set<Ticket>, interval: real)
    requires ServedInOrder(s, base, all) && all !! s.gone
    requires Possible(s, moves, interval) && Quiet(moves)
    ensures ServedInOrder(Reached(s, moves, interval), base, all) && Reached(s, moves, interval).gone == s.gone
  {
    if moves != [] {
      var init, m := moves[..|moves| - 1], moves[|moves| - 1];
      assert m in moves;
      QuietRunServesInOrder(s, init, base, all, interval);
      QuietMoveServesInOrder(Reached(s, init, interval), m, base, all, interval);
    }
  }

  lemma {:induction false} RunInTwoParts(s: State, before: seq<Move>, after: seq<Move>, interval: real)
    requires Possible(s, before, interval) && Possible(Reached(s, before, interval), after, interval)
    ensures Possible(s, before + after, interval)
    ensures Reached(s, before + after, interval) == Reached(Reached(s, before, interval), after, interval)
  {
    if after == [] {
      assert before + after == before;
    } else {
      var all := before + after;
      assert all[..|all| - 1] == before + after[..|after| - 1];
      RunInTwoParts(s, before, after[..|after| - 1], interval);
    }
  }

  /** On any run from the start, once no ticket arrives and none is abandoned any
      more, and unless the loop has just drained the channel and is about to pop with
      a ticket sent since: the slots go out in exact (rank, arrival) order. What is
      granted from then on is sorted, precedes all that is left, and together with it
      is everything that was waiting. */
  lemma ColdStartIsSorted(start: real, before: seq<Move>, after: seq<Move>, interval: real)
    requires Possible(Start(start, interval), before, interval) && Quiet(after)
    requires var s := Reached(Start(start, interval), before, interval);
             Possible(s, after, interval) && DrainsFirst(s) && Pending(s) !! s.gone
    ensures Possible(Start(start, interval), before + after, interval)
    ensures var s := Reached(Start(start, interval), before, interval);
            ServedInOrder(Reached(Start(start, interval), before + after, interval), |s.grants|, Pending(s))
  {
    var s := Reached(Start(start, interval), before, interval);
    RunInTwoParts(Start(start, interval), before, after, interval);
    assert s.grants[|s.grants|..] == [];
    QuietRunServesInOrder(s, after, |s.grants|, Pending(s), interval);
  }

  /** The channel will not be drained again before the next pop. */
  predicate AboutToPop(s: State) {
    s.queues.heap != {} && (s.phase.Popping? || (s.phase.Looking? && s.queues.nextAt <= s.clock))
  }

  /** What follows the pop that the channel's tickets came too late for. */
  predicate AfterEarlyPop(s: State, now: State)
    requires s.queues.heap != {}
  {
    var base, first := |s.grants|, Least(s.queues.heap);
    if now.grants == s.grants then
      now.queues == s.queues && AboutToPop(now) && now.gone == s.gone
    else
      && |now.grants| > base && now.grants[..base] == s.grants && now.grants[base].ticket == first
      && ServedInOrder(now, base + 1, s.queues.heap - {first} + InChannel(s)) && now.gone == s.gone
  }

  lemma EarlyPopStep(s: State, now: State, m: Move, interval: real)
    requires AboutToPop(s) && Pending(s) !! s.gone
    requires AfterEarlyPop(s, now) && Enabled(now, m) && (m.Pass? || m.Drain? || m.TakeLook? || m.TakeTicket?)
    ensures AfterEarlyPop(s, After(now, m, interval))
  {
    var next, first := After(now, m, interval), Least(s.queues.heap);
    if now.grants != s.grants {
      QuietMoveServesInOrder(now, m, |s.grants| + 1, s.queues.heap - {first} + InChannel(s), interval);
      assert next.grants[..|now.grants|] == now.grants;
      assert next.grants[..|s.grants|] == now.grants[..|s.grants|];
    } else if m.TakeTicket? {
      assert next.grants == s.grants + [Grant(first, now.clock, s.queues.heap, s.gone)];
      assert next.grants[|s.grants| + 1..] == [];
    }
  }

  lemma {:induction false} EarlyPopRun(s: State, moves: seq<Move>, interval: real)
    requires AboutToPop(s) && Pending(s) !! s.gone
    requires Possible(s, moves, interval) && Quiet(moves)
    ensures AfterEarlyPop(s, Reached(s, moves, interval))
  {
    if moves != [] {
      var init, m := moves[..|moves| - 1], moves[|moves| - 1];
      assert m in moves;
      EarlyPopRun(s, init, interval);
      EarlyPopStep(s, Reached(s, init, interval), m, interval);
    }
  }

  /** In the remaining case, a slot due, the heap drained and not empty and tickets
      sent since: when everything has been served the order is exact if and only if
      none of those tickets should have gone before the one about to be popped. */
  lemma LateTicketsSortedIff(start: real, before: seq<Move>, after: seq<Move>, interval: real)
    requires Possible(Start(start, interval), before, interval) && Quiet(after)
    requires var s := Reached(Start(start, interval), before, interval);
             && Possible(s, after, interval) && AboutToPop(s) && Pending(s) !! s.gone
             && Pending(Reached(s, after, interval)) == {}
    ensures Possible(Start(start, interval), before + after, interval)
    ensures var s := Reached(Start(start, interval), before, interval);
            var gs := Reached(Start(start, interval), before + after, interval).grants;
            && |s.grants| <= |gs|
            && (Sorted(gs[|s.grants|..]) <==>
                forall t | t in s.queues.channel :: Before(Least(s.queues.heap), t))
  {
    var s := Reached(Start(start, interval), before, interval);
    RunInTwoParts(Start(start, interval), before, after, interval);
    EarlyPopRun(s, after, interval);
    var now := Reached(Start(start, interval), before + after, interval);
    var base, first := |s.grants|, Least(s.queues.heap);
    assert Pending(s) != {} by { assert first in Pending(s); }
    var gs, rest := now.grants[base..], now.grants[base + 1..];
    assert gs == [now.grants[base]] + rest && gs[0].ticket == first;
    assert TicketsOf(rest) == s.queues.heap - {first} + InChannel(s);
    SortedCons(gs, s.queues.heap - {first} + InChannel(s));
    assert forall t | t in s.queues.heap - {first} :: Before(first, t);
    assert forall t | t in s.queues.channel :: t in InChannel(s);
  }

  lemma SortedCons(gs: seq<Grant>, tail: set<Ticket>)
    requires gs != [] && Sorted(gs[1..]) && TicketsOf(gs[1..]) == tail
    ensures Sorted(gs) <==> forall t | t in tail :: Before(gs[0].ticket, t)
  {
    if Sorted(gs) {
      forall t | t in tail ensures Before(gs[0].ticket, t) {
        var g :| g in gs[1..] && g.ticket == t;
        var i :| 0 <= i < |gs[1..]| && gs[1..][i] == g;
        assert gs[i + 1] == g;
      }
    }
    if forall t | t in tail :: Before(gs[0].ticket, t) {
      forall i, j | 0 <= i < j < |gs| ensures Before(gs[i].ticket, gs[j].ticket) {
        assert gs[j] == gs[1..][j - 1] && gs[j].ticket in tail;
        if i > 0 {
          assert gs[i] == gs[1..][i - 1];
        }
      }
    }
  }

  // ---- A due slot is served at once ----

  function Smaller(pending: set<Ticket>, t: Ticket): set<Ticket> {
    set x | x in pending && Before(x, t)
  }

  /** One round of the loop with no time passing: drain, look, pop. */
  function Round(s: State, interval: real): State
    requires s.phase == Draining && Pending(s) != {} && s.queues.nextAt <= s.clock
  {
    assert (set t | t in s.queues.channel) == InChannel(s);
    After(After(After(s, Drain, interval), TakeLook, interval), TakeTicket, interval)
  }

  predicate ServedAfter(s: State, t: Ticket, n: nat, interval: real)
    decreases n
  {
    && s.phase == Draining && Pending(s) != {} && s.queues.nextAt <= s.clock
    && var v := Round(s, interval);
       if n == 0
       then |v.grants| == |s.grants| + 1 && v.grants[|s.grants|].ticket == t && v.grants[|s.grants|].at == s.clock
       else v.grants == s.grants && v.clock == s.clock && ServedAfter(v, t, n - 1, interval)
  }

  lemma LeastOrSmaller(pending: set<Ticket>, t: Ticket)
    requires t in pending
    ensures var first := Least(pending);
            if first == t then Smaller(pending, t) == {}
            else first in Smaller(pending, t) && Smaller(pending - {first}, t) == Smaller(pending, t) - {first}
                 && |Smaller(pending - {first}, t)| == |Smaller(pending, t)| - 1
  {
  }

  lemma RoundPopsLeast(s: State, interval: real)
    requires s.phase == Draining && Pending(s) != {} && s.queues.nextAt <= s.clock
    ensures var v, first := Round(s, interval), Least(Pending(s));
            && v.phase == Draining && v.clock == s.clock && v.gone == s.gone && v.queues.channel == []
            && v.queues.heap == Pending(s) - {first}
            && (if first in s.gone then v.grants == s.grants && v.queues.nextAt == s.queues.nextAt
                else v.grants == s.grants + [Grant(first, s.clock, Pending(s), s.gone)])
  {
    assert Drained(s.queues).heap == Pending(s);
  }

  /** The first waiting requester that is still there, drained or not, is granted a
      due slot at once: each abandoned ticket before it costs a round of the loop and
      no time. */
  lemma {:induction false} ServedAtOnce(s: State, t: Ticket, interval: real)
    requires s.phase == Draining && s.queues.nextAt <= s.clock
    requires t in Pending(s) && t !in s.gone && Smaller(Pending(s), t) <= s.gone
    ensures ServedAfter(s, t, |Smaller(Pending(s), t)|, interval)
    decreases |Smaller(Pending(s), t)|
  {
    var v, first := Round(s, interval), Least(Pending(s));
    RoundPopsLeast(s, interval);
    LeastOrSmaller(Pending(s), t);
    if first != t {
      assert InChannel(v) == {};
      assert Pending(v) == Pending(s) - {first};
      ServedAtOnce(v, t, interval);
    }
  }

  /** On every run: a slot is due an interval after the last reading a slot was granted
      for, or after the start, and is then served at once. */
  lemma DueSlotIsServed(start: real, moves: seq<Move>, interval: real, t: Ticket)
    requires Possible(Start(start, interval), moves, interval)
    requires var s := Reached(Start(start, interval), moves, interval);
             && s.phase == Draining
             && s.clock >= (if s.readings == [] then start else s.readings[|s.readings| - 1]) + interval
             && t in Pending(s) && t !in s.gone && Smaller(Pending(s), t) <= s.gone
    ensures var s := Reached(Start(start, interval), moves, interval);
            ServedAfter(s, t, |Smaller(Pending(s), t)|, interval)
  {
    GrantsAreSpaced(start, moves, interval);
    ServedAtOnce(Reached(Start(start, interval), moves, interval), t, interval);
  }
}
