/** The Python pacer: it waits for the slot first and only then takes a ticket,
    blocking until there is one, and reads the clock again after granting it. */
module PythonPacer {
  import opened Pacer

  /** Where the loop is: about to look at the clock, blocked in get, or about to set
      the next slot. */
  datatype Phase = Waiting | Getting | Rearming

  datatype Loop = Loop(heap: set<Ticket>, phase: Phase, nextAt: real)

  datatype Result = Slept | Woke | Blocked | Served(ticket: Ticket) | Skipped(ticket: Ticket) | Rearmed

  datatype Stepped = Stepped(loop: Loop, result: Result)

  function Advance(l: Loop, now: real, gone: set<Ticket>, interval: real): Stepped {
    match l.phase
    case Waiting => if l.nextAt > now then Stepped(l, Slept) else Stepped(l.(phase := Getting), Woke)
    case Getting =>
      if l.heap == {} then Stepped(l, Blocked)
      else
        var t := Least(l.heap);
        if t in gone then Stepped(l.(heap := l.heap - {t}, phase := Waiting), Skipped(t))
        else Stepped(l.(heap := l.heap - {t}, phase := Rearming), Served(t))
    case Rearming => Stepped(l.(phase := Waiting, nextAt := now + interval), Rearmed)
  }

  class SnapshotPacer {
    var heap: set<Ticket>
    var seqNo: nat
    var phase: Phase
    var nextAt: real
    const interval: real

    ghost function Value(): Loop
      reads this
    {
      Loop(heap, phase, nextAt)
    }

    /** The first slot is one interval out, never immediate. */
    constructor (interval: real, now: real)
      ensures this.interval == interval && seqNo == 0 && Value() == Loop({}, Waiting, now + interval)
    {
      this.interval := interval;
      heap, seqNo, phase, nextAt := {}, 0, Waiting, now + interval;
    }

    /** Queue a ticket under the next sequence number. */
    method Acquire(rank: nat) returns (t: Ticket)
      modifies this
      ensures t == Ticket(rank, old(seqNo) + 1) && seqNo == old(seqNo) + 1
      ensures Value() == old(Value()).(heap := old(heap) + {t})
    {
      seqNo := seqNo + 1;
      t := Ticket(rank, seqNo);
      heap := heap + {t};
    }

    /** Run the loop to its next pause. */
    method Turn(now: real, gone: set<Ticket>) returns (result: Result)
      modifies this
      ensures seqNo == old(seqNo) && Advance(old(Value()), now, gone, interval) == Stepped(Value(), result)
    {
      match phase {
        case Waiting =>
          var wait := nextAt - now;
          if wait > 0.0 {
            return Slept;
          }
          phase := Getting;
          return Woke;
        case Getting =>
          if heap == {} {
            return Blocked;
          }
          var t := Least(heap);
          heap := heap - {t};
          if t in gone {
            phase := Waiting;
            return Skipped(t);
          }
          phase := Rearming;
          return Served(t);
        case Rearming =>
          nextAt := now + interval;
          phase := Waiting;
          return Rearmed;
      }
    }
  }

  // ---- Runs ----

  datatype State = State(
    loop: Loop,
    issued: set<Ticket>,
    gone: set<Ticket>,
    seqNo: nat,
    clock: real,
    grants: seq<Grant>,
    skipped: set<Ticket>)

  datatype Move = Acquire(rank: nat) | Abandon(ticket: Ticket) | Pass(seconds: real) | Turn

  predicate Enabled(s: State, m: Move) {
    m.Pass? ==> m.seconds >= 0.0
  }

  function After(s: State, m: Move, interval: real): State {
    match m
    case Acquire(rank) =>
      var t := Ticket(rank, s.seqNo + 1);
      s.(seqNo := s.seqNo + 1, issued := s.issued + {t}, loop := s.loop.(heap := s.loop.heap + {t}))
    case Abandon(t) => s.(gone := s.gone + {t})
    case Pass(dt) => s.(clock := s.clock + dt)
    case Turn =>
      var d := Advance(s.loop, s.clock, s.gone, interval);
      var next := s.(loop := d.loop);
      match d.result {
        case Served(t) => next.(grants := s.grants + [Grant(t, s.clock, s.loop.heap, s.gone)])
        case Skipped(t) => next.(skipped := s.skipped + {t})
        case _ => next
      }
  }

  function Start(now: real, interval: real): State {
    State.State(Loop({}, Waiting, now + interval), {}, {}, 0, now, [], {})
  }

  predicate Possible(moves: seq<Move>) {
    forall m | m in moves :: m.Pass? ==> m.seconds >= 0.0
  }

  function Reached(s: State, moves: seq<Move>, interval: real): State {
    if moves == [] then s else After(Reached(s, moves[..|moves| - 1], interval), moves[|moves| - 1], interval)
  }

  // ---- Rate ----

  /** While a slot has not been rearmed its grant is the last; otherwise the next slot
      is an interval or more after the last grant, and the loop past its wait has
      waited for it. */
  predicate Spaced(s: State, start: real, interval: real) {
    var sends := Sends(s.grants);
    && Apart(sends, interval)
    && (sends != [] ==> sends[0] >= start + interval && sends[|sends| - 1] <= s.clock)
    && (s.loop.phase == Rearming ==> sends != [])
    && (s.loop.phase != Rearming ==>
          s.loop.nextAt >= (if sends == [] then start else sends[|sends| - 1]) + interval)
    && (s.loop.phase == Getting ==> s.clock >= s.loop.nextAt)
  }

  lemma ServeKeepsSpaced(s: State, start: real, interval: real)
    requires Spaced(s, start, interval) && s.loop.phase == Getting
    requires s.loop.heap != {} && Least(s.loop.heap) !in s.gone
    ensures Spaced(After(s, Move.Turn, interval), start, interval)
  {
    SendsAppend(s.grants, Grant(Least(s.loop.heap), s.clock, s.loop.heap, s.gone));
    ApartAppend(Sends(s.grants), s.clock, interval);
  }

  lemma OtherMoveKeepsSpaced(s: State, m: Move, start: real, interval: real)
    requires Spaced(s, start, interval) && Enabled(s, m) && After(s, m, interval).grants == s.grants
    ensures Spaced(After(s, m, interval), start, interval)
  {
  }

  lemma StepKeepsSpaced(s: State, m: Move, start: real, interval: real)
    requires Spaced(s, start, interval) && Enabled(s, m)
    ensures Spaced(After(s, m, interval), start, interval)
  {
    if m.Turn? && s.loop.phase == Getting && s.loop.heap != {} && Least(s.loop.heap) !in s.gone {
      ServeKeepsSpaced(s, start, interval);
    } else {
      OtherMoveKeepsSpaced(s, m, start, interval);
    }
  }

  lemma {:induction false} GrantsAreSpaced(start: real, moves: seq<Move>, interval: real)
    requires Possible(moves)
    ensures Spaced(Reached(Start(start, interval), moves, interval), start, interval)
  {
    if moves != [] {
      var init, m := moves[..|moves| - 1], moves[|moves| - 1];
      assert m in moves && forall x | x in init :: x in moves;
      GrantsAreSpaced(start, init, interval);
      StepKeepsSpaced(Reached(Start(start, interval), init, interval), m, start, interval);
    }
  }

  lemma KthGrantNotBefore(start: real, moves: seq<Move>, interval: real, k: nat)
    requires Possible(moves) && 1 <= k <= |Reached(Start(start, interval), moves, interval).grants|
    ensures Reached(Start(start, interval), moves, interval).grants[k - 1].at >= start + Intervals(k, interval)
  {
    GrantsAreSpaced(start, moves, interval);
    ApartAtLeast(Sends(Reached(Start(start, interval), moves, interval).grants), 0, k - 1, interval);
  }

  /** Any half-open window of any length holds at most ceil(length / interval) grants. */
  lemma WindowBound(start: real, moves: seq<Move>, interval: real, from: real, length: real)
    requires interval >= 0.0 && Possible(moves)
    ensures var n := CountIn(Sends(Reached(Start(start, interval), moves, interval).grants), from, length);
            n > 0 ==> Intervals(n - 1, interval) < length
  {
    GrantsAreSpaced(start, moves, interval);
    var sends := Sends(Reached(Start(start, interval), moves, interval).grants);
    if CountIn(sends, from, length) > 0 {
      CountFits(sends, interval, from, length);
    }
  }

  // ---- The next slot, exactly ----

  /** When the next slot was last set: at the start, or at the turn after a grant. */
  function LastRearmed(start: real, moves: seq<Move>, interval: real): real {
    if moves == [] then start
    else
      var s := Reached(Start(start, interval), moves[..|moves| - 1], interval);
      if moves[|moves| - 1].Turn? && s.loop.phase == Rearming then s.clock
      else LastRearmed(start, moves[..|moves| - 1], interval)
  }

  function Rearmings(start: real, moves: seq<Move>, interval: real): nat {
    if moves == [] then 0
    else
      var s := Reached(Start(start, interval), moves[..|moves| - 1], interval);
      Rearmings(start, moves[..|moves| - 1], interval) +
      if moves[|moves| - 1].Turn? && s.loop.phase == Rearming then 1 else 0
  }

  lemma MoveSetsSlot(s: State, m: Move, interval: real)
    ensures var v, rearms := After(s, m, interval), m.Turn? && s.loop.phase == Rearming;
            && v.loop.nextAt == (if rearms then s.clock + interval else s.loop.nextAt)
            && |v.grants| + (if s.loop.phase == Rearming then 1 else 0)
               == |s.grants| + (if rearms then 1 else 0) + (if v.loop.phase == Rearming then 1 else 0)
  {
  }

  /** The next slot is one interval after it was last set, and it is set once a grant;
      so a ticket skipped for a departed requester leaves it alone. */
  lemma {:induction false} NextSlotIsExact(start: real, moves: seq<Move>, interval: real)
    ensures var s := Reached(Start(start, interval), moves, interval);
            && s.loop.nextAt == LastRearmed(start, moves, interval) + interval
            && |s.grants| == Rearmings(start, moves, interval) + if s.loop.phase == Rearming then 1 else 0
  {
    if moves != [] {
      NextSlotIsExact(start, moves[..|moves| - 1], interval);
      MoveSetsSlot(Reached(Start(start, interval), moves[..|moves| - 1], interval), moves[|moves| - 1], interval);
    }
  }

  /** So many turns of the loop, one right after the other. */
  function Turns(s: State, n: nat, interval: real): State
    decreases n
  {
    if n == 0 then s else Turns(After(s, Move.Turn, interval), n - 1, interval)
  }

  /** The first waiting requester that is still there is granted the slot at once when
      it is due, whatever number of abandoned tickets precede it: each costs two turns
      of the loop and no time. */
  lemma {:induction false} ServedAtOnce(s: State, t: Ticket, interval: real)
    requires s.loop.phase == Waiting && s.loop.nextAt <= s.clock
    requires t in s.loop.heap && t !in s.gone && Smaller(s.loop.heap, t) <= s.gone
    ensures var v := Turns(s, 2 * |Smaller(s.loop.heap, t)| + 2, interval);
            && |v.grants| == |s.grants| + 1 && v.grants[..|s.grants|] == s.grants
            && v.grants[|s.grants|].ticket == t && v.grants[|s.grants|].at == s.clock
    decreases |Smaller(s.loop.heap, t)|
  {
    var one := After(s, Move.Turn, interval);
    var two := After(one, Move.Turn, interval);
    var first, n := Least(s.loop.heap), 2 * |Smaller(s.loop.heap, t)|;
    assert one.loop == s.loop.(phase := Getting);
    assert Turns(s, n + 2, interval) == Turns(one, n + 1, interval) == Turns(two, n, interval);
    LeastOrSmaller(s.loop.heap, t);
    if first == t {
      assert two.grants == s.grants + [Grant(t, s.clock, s.loop.heap, s.gone)];
    } else {
      assert two == s.(loop := s.loop.(heap := s.loop.heap - {first}), skipped := s.skipped + {first});
      ServedAtOnce(two, t, interval);
    }
  }

  /** On every run, then: whoever is first among those still there when the loop comes
      to its wait an interval or more after it last set the slot is granted it there
      and then. */
  lemma DueSlotIsServed(start: real, moves: seq<Move>, interval: real, t: Ticket)
    requires var s := Reached(Start(start, interval), moves, interval);
             && s.loop.phase == Waiting && s.clock >= LastRearmed(start, moves, interval) + interval
             && t in s.loop.heap && t !in s.gone && Smaller(s.loop.heap, t) <= s.gone
    ensures var s := Reached(Start(start, interval), moves, interval);
            var v := Turns(s, 2 * |Smaller(s.loop.heap, t)| + 2, interval);
            && |v.grants| == |s.grants| + 1
            && v.grants[|s.grants|].ticket == t && v.grants[|s.grants|].at == s.clock
  {
    NextSlotIsExact(start, moves, interval);
    ServedAtOnce(Reached(Start(start, interval), moves, interval), t, interval);
  }

  // ---- Order and conservation ----

  /** Every ticket issued is in exactly one place: queued, granted once to the least
      ticket then waiting, or skipped after being abandoned. */
  predicate Accounted(s: State) {
    && s.issued == s.loop.heap + TicketsOf(s.grants) + s.skipped
    && s.loop.heap !! TicketsOf(s.grants) !! s.skipped
    && (forall i, j | 0 <= i < j < |s.grants| :: s.grants[i].ticket != s.grants[j].ticket)
    && s.skipped <= s.gone
    && (forall t | t in s.issued :: t.arrival <= s.seqNo)
    && (forall g | g in s.grants :: IsLeast(g.waiting, g.ticket) && g.ticket !in g.gone)
  }

  lemma ServeKeepsAccounted(s: State, interval: real)
    requires Accounted(s) && s.loop.phase == Getting && s.loop.heap != {} && Least(s.loop.heap) !in s.gone
    ensures Accounted(After(s, Move.Turn, interval))
  {
    var next, t := After(s, Move.Turn, interval), Least(s.loop.heap);
    assert next.grants == s.grants + [Grant(t, s.clock, s.loop.heap, s.gone)];
    assert TicketsOf(next.grants) == TicketsOf(s.grants) + {t};
    assert t !in TicketsOf(s.grants);
    forall i | 0 <= i < |s.grants| ensures next.grants[i] == s.grants[i] && s.grants[i].ticket != t {
      assert s.grants[i].ticket in TicketsOf(s.grants);
    }
  }

  lemma SkipKeepsAccounted(s: State, interval: real)
    requires Accounted(s) && s.loop.phase == Getting && s.loop.heap != {} && Least(s.loop.heap) in s.gone
    ensures Accounted(After(s, Move.Turn, interval))
  {
    assert After(s, Move.Turn, interval).grants == s.grants;
  }

  lemma {:induction false} TicketsAreAccounted(start: real, moves: seq<Move>, interval: real)
    ensures Accounted(Reached(Start(start, interval), moves, interval))
  {
    if moves != [] {
      var init := moves[..|moves| - 1];
      var s := Reached(Start(start, interval), init, interval);
      TicketsAreAccounted(start, init, interval);
      if moves[|moves| - 1].Turn? && s.loop.phase == Getting && s.loop.heap != {} {
        if Least(s.loop.heap) in s.gone {
          SkipKeepsAccounted(s, interval);
        } else {
          ServeKeepsAccounted(s, interval);
        }
      }
    }
  }

  /** A request goes behind every earlier one of its rank or a better. */
  lemma NewestGoesLast(start: real, moves: seq<Move>, interval: real, rank: nat)
    ensures var s := Reached(Start(start, interval), moves, interval);
            var v := After(s, Acquire(rank), interval);
            && |v.issued| == |s.issued| + 1 && s.issued <= v.issued
            && forall t | t in v.issued - s.issued ::
                 t in v.loop.heap && t.rank == rank && forall x | x in s.issued && x.rank <= rank :: Before(x, t)
  {
    var s := Reached(Start(start, interval), moves, interval);
    TicketsAreAccounted(start, moves, interval);
    NewestIsLast(s.issued, Ticket(rank, s.seqNo + 1));
  }

  // ---- A cold start is served in order ----

  predicate Quiet(moves: seq<Move>) {
    forall m | m in moves :: m.Pass? || m.Turn?
  }

  predicate ServedInOrder(s: State, base: nat, all: set<Ticket>) {
    && base <= |s.grants| && Sorted(s.grants[base..])
    && TicketsOf(s.grants[base..]) + s.loop.heap == all
    && (forall g, t | g in s.grants[base..] && t in s.loop.heap :: Before(g.ticket, t))
  }

  lemma ServeInOrder(s: State, base: nat, all: set<Ticket>, interval: real)
    requires ServedInOrder(s, base, all) && all !! s.gone && s.loop.phase == Getting && s.loop.heap != {}
    ensures ServedInOrder(After(s, Move.Turn, interval), base, all)
  {
    var next, t, served := After(s, Move.Turn, interval), Least(s.loop.heap), s.grants[base..];
    var g := Grant(t, s.clock, s.loop.heap, s.gone);
    assert next.grants[base..] == served + [g];
    assert TicketsOf(next.grants[base..]) == TicketsOf(served) + {t};
    SortedAppend(served, g);
  }

  lemma QuietMoveServesInOrder(s: State, m: Move, base: nat, all: set<Ticket>, interval: real)
    requires ServedInOrder(s, base, all) && all !! s.gone && (m.Pass? || m.Turn?)
    ensures ServedInOrder(After(s, m, interval), base, all) && After(s, m, interval).gone == s.gone
  {
    if m.Turn? && s.loop.phase == Getting && s.loop.heap != {} {
      ServeInOrder(s, base, all, interval);
    }
  }

  /** Once no ticket arrives and none is abandoned, the slots go out in exact (rank,
      arrival) order: there is no channel in which a ticket could be overlooked. */
  lemma {:induction false} ColdStartIsSorted(s: State, moves: seq<Move>, interval: real)
    requires s.loop.heap !! s.gone && Quiet(moves)
    ensures ServedInOrder(Reached(s, moves, interval), |s.grants|, s.loop.heap)
    ensures Reached(s, moves, interval).gone == s.gone
  {
    if moves == [] {
      assert s.grants[|s.grants|..] == [];
    } else {
      var init, m := moves[..|moves| - 1], moves[|moves| - 1];
      assert m in moves;
      ColdStartIsSorted(s, init, interval);
      QuietMoveServesInOrder(Reached(s, init, interval), m, |s.grants|, s.loop.heap, interval);
    }
  }
}
