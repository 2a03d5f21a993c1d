/** Runs of the Rust pacer that show where its promises end: a ticket sent between the
    drain and the pop is overtaken by a larger one, and a permit put off until the next
    slot is due is sent at the same moment as the next. */
module PacerRuns {
  import opened Pacer

  // ---- A ticket that comes between the drain and the pop ----

  const TAIL := Ticket(5, 0)
  const HEAD := Ticket(0, 1)

  const RESERVED: seq<Move> := [Reserve(5)] + [Send(TAIL)] + [Reserve(0)]
  const DUE := RESERVED + [Pass(1.0)] + [Drain]
  const SENT := DUE + [Send(HEAD)]
  const FIRST_SLOT := SENT + [TakeLook] + [TakeTicket]
  const DUE_AGAIN := FIRST_SLOT + [Pass(1.0)] + [Drain]
  const OVERTAKEN := DUE_AGAIN + [TakeLook] + [TakeTicket]

  lemma HeadIsSentInTime()
    ensures Possible(Start(0.0, 1.0), SENT, 1.0)
    ensures var s := Reached(Start(0.0, 1.0), SENT, 1.0);
            && s.queues == Queues([HEAD], {TAIL}, 1.0) && s.phase == Looking && s.gone == {}
            && s.clock == 1.0 && s.grants == []
  {
    var s := Start(0.0, 1.0);
    OneMore(s, [], Reserve(5), 1.0);
    assert [] + [Reserve(5)] == [Reserve(5)];
    OneMore(s, [Reserve(5)], Send(TAIL), 1.0);
    OneMore(s, [Reserve(5)] + [Send(TAIL)], Reserve(0), 1.0);
    OneMore(s, RESERVED, Pass(1.0), 1.0);
    OneMore(s, RESERVED + [Pass(1.0)], Drain, 1.0);
    assert (set t | t in [TAIL]) == {TAIL};
    OneMore(s, DUE, Send(HEAD), 1.0);
  }

  lemma PopOnly(s: State, t: Ticket)
    requires s.phase == Looking && s.queues.heap == {t} && s.queues.nextAt <= s.clock && s.gone == {}
    ensures var v := After(After(s, TakeLook, 1.0), TakeTicket, 1.0);
            && Enabled(After(s, TakeLook, 1.0), TakeTicket)
            && v.queues == Queues(s.queues.channel, {}, s.clock + 1.0) && v.phase == Draining && v.gone == {}
            && v.clock == s.clock && v.grants == s.grants + [Grant(t, s.clock, {t}, {})]
  {
    assert PopMax({t}) == t;
  }

  lemma PopFollows(moves: seq<Move>, t: Ticket)
    requires Possible(Start(0.0, 1.0), moves, 1.0)
    requires var s := Reached(Start(0.0, 1.0), moves, 1.0);
             s.phase == Looking && s.queues.heap == {t} && s.queues.nextAt <= s.clock && s.gone == {}
    ensures var s, next := Reached(Start(0.0, 1.0), moves, 1.0), moves + [TakeLook] + [TakeTicket];
            && Possible(Start(0.0, 1.0), next, 1.0)
            && var v := Reached(Start(0.0, 1.0), next, 1.0);
               && v.queues == Queues(s.queues.channel, {}, s.clock + 1.0) && v.phase == Draining && v.gone == {}
               && v.clock == s.clock && v.grants == s.grants + [Grant(t, s.clock, {t}, {})]
  {
    PopOnly(Reached(Start(0.0, 1.0), moves, 1.0), t);
    OneMore(Start(0.0, 1.0), moves, TakeLook, 1.0);
    OneMore(Start(0.0, 1.0), moves + [TakeLook], TakeTicket, 1.0);
  }

  /** The head of the ranking asks in time, before the loop has read the clock for the
      slot, and is not drained any more: the slot goes to the tail. */
  lemma LateTicketIsOvertaken()
    ensures Possible(Start(0.0, 1.0), OVERTAKEN, 1.0)
    ensures var s := Reached(Start(0.0, 1.0), OVERTAKEN, 1.0);
            && |s.grants| == 2 && s.grants[0].ticket == TAIL && s.grants[1].ticket == HEAD
            && Before(HEAD, TAIL) && !Sorted(s.grants)
    ensures Possible(Start(0.0, 1.0), SENT, 1.0)
    ensures var s := Reached(Start(0.0, 1.0), SENT, 1.0);
            HEAD in s.queues.channel && s.phase == Looking && s.grants == []
  {
    HeadIsSentInTime();
    PopFollows(SENT, TAIL);
    OneMore(Start(0.0, 1.0), FIRST_SLOT, Pass(1.0), 1.0);
    OneMore(Start(0.0, 1.0), FIRST_SLOT + [Pass(1.0)], Drain, 1.0);
    assert (set t | t in [HEAD]) == {HEAD};
    PopFollows(DUE_AGAIN, HEAD);
  }

  // ---- Permits put off ----

  /** One request granted: it waits, and its permit is put off. */
  function Slot(k: nat, wait: real, delay: real): seq<Move> {
    [Reserve(0)] + [Send(Ticket(0, k))] + [Pass(wait)] + [Drain] + [TakeLook] + [Pass(delay)] + [TakeTicket]
  }

  /** Nothing is waiting and `k` requests have been made. */
  predicate Clear(s: State, k: nat) {
    && s.queues.channel == [] && s.queues.heap == {} && s.phase == Draining
    && s.reserved == {} && s.gone == {} && s.nextSeq == k
  }

  lemma SlotReadies(s: State, k: nat, wait: real, interval: real)
    requires Clear(s, k) && wait >= 0.0
    ensures var moves := [Reserve(0)] + [Send(Ticket(0, k))] + [Pass(wait)] + [Drain];
            && Possible(s, moves, interval)
            && var v := Reached(s, moves, interval);
               && v.queues == s.queues.(heap := {Ticket(0, k)}) && v.phase == Looking
               && v.reserved == {} && v.gone == {} && v.nextSeq == k + 1
               && v.clock == s.clock + wait && v.grants == s.grants && v.readings == s.readings
  {
    var t := Ticket(0, k);
    OneMore(s, [], Reserve(0), interval);
    assert [] + [Reserve(0)] == [Reserve(0)];
    OneMore(s, [Reserve(0)], Send(t), interval);
    OneMore(s, [Reserve(0)] + [Send(t)], Pass(wait), interval);
    OneMore(s, [Reserve(0)] + [Send(t)] + [Pass(wait)], Drain, interval);
    assert (set x | x in [t]) == {t};
  }

  /** The permit goes out late by the delay, the next slot is due as if it had not. */
  lemma SlotGrants(s: State, k: nat, wait: real, delay: real, interval: real)
    requires Clear(s, k) && wait >= 0.0 && delay >= 0.0 && s.queues.nextAt <= s.clock + wait
    ensures Possible(s, Slot(k, wait, delay), interval)
    ensures var v := Reached(s, Slot(k, wait, delay), interval);
            && Clear(v, k + 1) && v.clock == s.clock + wait + delay
            && v.queues.nextAt == s.clock + wait + interval && Sends(v.grants) == Sends(s.grants) + [v.clock]
            && v.readings == s.readings + [s.clock + wait]
  {
    var t := Ticket(0, k);
    var ready := [Reserve(0)] + [Send(t)] + [Pass(wait)] + [Drain];
    SlotReadies(s, k, wait, interval);
    OneMore(s, ready, TakeLook, interval);
    OneMore(s, ready + [TakeLook], Pass(delay), interval);
    assert PopMax({t}) == t;
    OneMore(s, ready + [TakeLook] + [Pass(delay)], TakeTicket, interval);
    SendsAppend(s.grants, Grant(t, s.clock + wait + delay, {t}, {}));
  }

  /** Request after request, with only the first permit put off, by one interval, so
      that the second slot is due at once. */
  function Slots(n: nat, interval: real): seq<Move> {
    if n == 0 then []
    else if n == 1 then Slot(0, interval, interval)
    else Slots(n - 1, interval) + Slot(n - 1, if n == 2 then 0.0 else interval, 0.0)
  }

  /** When those permits are sent: the first two together, then one an interval. */
  function Times(n: nat, interval: real): seq<real> {
    if n == 0 then [] else Times(n - 1, interval) + [Intervals(if n == 1 then 2 else n, interval)]
  }

  predicate Served(s: State, n: nat, interval: real) {
    && Clear(s, n) && Sends(s.grants) == Times(n, interval)
    && s.clock == Intervals(if n == 1 then 2 else n, interval)
    && s.queues.nextAt == s.clock + (if n == 1 then 0.0 else interval)
  }

  lemma FirstSlot(interval: real)
    requires interval >= 0.0
    ensures Possible(Start(0.0, interval), Slot(0, interval, interval), interval)
    ensures Served(Reached(Start(0.0, interval), Slot(0, interval, interval), interval), 1, interval)
  {
    SlotGrants(Start(0.0, interval), 0, interval, interval, interval);
    assert Intervals(1, interval) == interval && Intervals(2, interval) == Intervals(1, interval) + interval;
    assert Times(0, interval) == [] && Times(1, interval) == [] + [Intervals(2, interval)];
  }

  lemma NextSlot(s: State, n: nat, interval: real)
    requires n > 0 && interval >= 0.0 && Served(s, n, interval)
    ensures var moves := Slot(n, if n == 1 then 0.0 else interval, 0.0);
            Possible(s, moves, interval) && Served(Reached(s, moves, interval), n + 1, interval)
  {
    SlotGrants(s, n, if n == 1 then 0.0 else interval, 0.0, interval);
    assert n > 1 ==> Intervals(n + 1, interval) == Intervals(n, interval) + interval;
  }

  lemma {:induction false} SlotsRun(n: nat, interval: real)
    requires n > 0 && interval >= 0.0
    ensures Possible(Start(0.0, interval), Slots(n, interval), interval)
    ensures Served(Reached(Start(0.0, interval), Slots(n, interval), interval), n, interval)
  {
    if n == 1 {
      FirstSlot(interval);
    } else {
      SlotsRun(n - 1, interval);
      NextSlot(Reached(Start(0.0, interval), Slots(n - 1, interval), interval), n - 1, interval);
      RunInTwoParts(Start(0.0, interval), Slots(n - 1, interval),
                    Slot(n - 1, if n == 2 then 0.0 else interval, 0.0), interval);
    }
  }

  lemma {:induction false} IntervalsAfterTwo(n: nat, interval: real)
    requires n > 1
    ensures Intervals(n, interval) == Intervals(2, interval) + Intervals(n - 2, interval)
  {
    if n > 2 {
      IntervalsAfterTwo(n - 1, interval);
    }
  }

  lemma CountAppend(ts: seq<real>, t: real, from: real, length: real)
    ensures CountIn(ts + [t], from, length) == CountIn(ts, from, length) + if InWindow(t, from, length) then 1 else 0
  {
    assert (ts + [t])[..|ts|] == ts;
  }

  lemma {:induction false} AllCount(n: nat, interval: real, length: real)
    requires n > 0 && interval >= 0.0 && length > 0.0 && (n > 1 ==> Intervals(n - 2, interval) < length)
    ensures CountIn(Times(n, interval), Intervals(2, interval), length) == n
  {
    CountAppend(Times(n - 1, interval), Intervals(if n == 1 then 2 else n, interval), Intervals(2, interval), length);
    if n > 1 {
      IntervalsAfterTwo(n, interval);
      IntervalsMonotone(0, n - 2, interval);
      if n > 2 {
        IntervalsMonotone(n - 3, n - 2, interval);
      }
      AllCount(n - 1, interval, length);
    }
  }

  ghost predicate ManySends(interval: real, n: nat, length: real) {
    exists start: real, moves, from: real ::
      Possible(Start(start, interval), moves, interval) &&
      CountIn(Sends(Reached(Start(start, interval), moves, interval).grants), from, length) >= n
  }

  /** The bound on permits in a window is met: two or more can be sent in some window
      of some run if and only if two fewer intervals than permits fit in it. */
  lemma SendBoundIsMet(interval: real, n: nat, length: real)
    requires interval >= 0.0 && length > 0.0 && n > 1
    ensures ManySends(interval, n, length) <==> Intervals(n - 2, interval) < length
  {
    if Intervals(n - 2, interval) < length {
      SlotsRun(n, interval);
      AllCount(n, interval, length);
    }
    if ManySends(interval, n, length) {
      var start: real, moves, from: real :|
        Possible(Start(start, interval), moves, interval) &&
        CountIn(Sends(Reached(Start(start, interval), moves, interval).grants), from, length) >= n;
      var sent := CountIn(Sends(Reached(Start(start, interval), moves, interval).grants), from, length);
      WindowBound(start, moves, interval, from, length);
      IntervalsMonotone(n - 2, sent - 2, interval);
    }
  }

  /** Two permits at the same moment, the interval notwithstanding. */
  lemma PermitsCanCoincide(interval: real)
    requires interval >= 0.0
    ensures Possible(Start(0.0, interval), Slots(2, interval), interval)
    ensures Sends(Reached(Start(0.0, interval), Slots(2, interval), interval).grants)
         == [interval + interval, interval + interval]
  {
    SlotsRun(2, interval);
    assert Intervals(1, interval) == interval && Intervals(2, interval) == Intervals(1, interval) + interval;
    assert Times(1, interval) == [] + [Intervals(2, interval)];
  }

  /** At four requests a second a minute can cost ten more than the venue's budget. */
  lemma MinuteCanExceedBudget(n: nat)
    requires n * SNAPSHOT_WEIGHT == MINUTE_BUDGET + SNAPSHOT_WEIGHT
    ensures Possible(Start(0.0, 0.25), Slots(n, 0.25), 0.25)
    ensures CountIn(Sends(Reached(Start(0.0, 0.25), Slots(n, 0.25), 0.25).grants), Intervals(2, 0.25), 60.0) == n
  {
    IntervalsIsProduct(n - 2, 0.25);
    SlotsRun(n, 0.25);
    AllCount(n, 0.25, 60.0);
  }
}
