/** The Python book: plain dictionaries whose best prices are found with max and
    min, listings that are sorted when asked for, and a deque with a length bound. */
module PythonBook {
  import opened Levels
  import opened BookModel
  import opened Digests

  /** Appending to a full bounded deque discards its oldest element. */
  function DequeAppend(es: seq<Event>, e: Event): seq<Event> {
    var all := es + [e];
    if |all| > BUFFER_MAX then all[1..] else all
  }

  // ---- What the language does with an unordered dictionary ----

  /** The largest key, whatever order the keys are met in. */
  method MaxKey(s: Side) returns (p: Price)
    requires s != map[]
    ensures p == Best(Bid, s.Keys)
  {
    p :| p in s.Keys;
    var rest := s.Keys - {p};
    while rest != {}
      invariant p in s && rest <= s.Keys
      invariant forall q | q in s && q !in rest :: q.value <= p.value
      decreases |rest|
    {
      var q :| q in rest;
      if q.value > p.value {
        p := q;
      }
      rest := rest - {q};
    }
    BestIsTheBound(Bid, s.Keys, p);
  }

  /** The smallest key, whatever order the keys are met in. */
  method MinKey(s: Side) returns (p: Price)
    requires s != map[]
    ensures p == Best(Ask, s.Keys)
  {
    p :| p in s.Keys;
    var rest := s.Keys - {p};
    while rest != {}
      invariant p in s && rest <= s.Keys
      invariant forall q | q in s && q !in rest :: p.value <= q.value
      decreases |rest|
    {
      var q :| q in rest;
      if q.value < p.value {
        p := q;
      }
      rest := rest - {q};
    }
    BestIsTheBound(Ask, s.Keys, p);
  }

  lemma BestIsTheBound(k: Kind, s: set<Price>, p: Price)
    requires IsBest(k, s, p)
    ensures s != {} && Best(k, s) == p
  {
    assert IsBest(k, s, Best(k, s));
  }

  /** The items of a dictionary in best-first order, whatever order they are met in:
      each goes after the levels that beat it. */
  method SortedItems(k: Kind, s: Side) returns (items: seq<Level>)
    ensures items == Ranked(k, s)
  {
    items := [];
    var rest := s.Keys;
    while rest != {}
      invariant rest <= s.Keys && BestFirst(k, items)
      invariant forall l :: l in items <==> l.price in s && l.price !in rest && l.qty == s[l.price]
      decreases |rest|
    {
      var p :| p in rest;
      items := Placed(k, items, Level(p, s[p]));
      rest := rest - {p};
    }
    assert forall p | p in s :: Level(p, s[p]) in items;
    RankedIsUnique(k, s, items);
  }

  function Placed(k: Kind, items: seq<Level>, l: Level): (r: seq<Level>)
    requires BestFirst(k, items) && forall m | m in items :: m.price != l.price
    ensures BestFirst(k, r) && forall m :: m in r <==> m == l || m in items
  {
    if items == [] || Better(k, l.price, items[0].price) then [l] + items
    else
      assert items[0] in items && items == [items[0]] + items[1..];
      var tail := Placed(k, items[1..], l);
      assert forall j | 0 <= j < |tail| :: tail[j] in tail;
      [items[0]] + tail
  }

  /** The dictionary built from the listed levels with a positive quantity. */
  method PositiveLevels(ls: seq<Level>) returns (s: Side)
    ensures s == Listed(ls)
  {
    s := map[];
    for i := 0 to |ls|
      invariant s == Listed(ls[..i])
    {
      assert ls[..i + 1][..i] == ls[..i];
      if ls[i].qty > 0.0 {
        s := s[ls[i].price := ls[i].qty];
      }
    }
    assert ls[..|ls|] == ls;
  }

  class Book {
    var bids: Side
    var asks: Side
    var lastUpdateId: nat
    var mode: Mode
    var buffer: seq<Event>
    var snapshots: nat
    var gaps: nat
    var crossed: nat
    var dropped: nat
    var unverified: nat
    var needFirst: bool
    var tickerBid: Price
    var tickerAsk: Price
    var mismatches: nat

    ghost predicate Valid()
      reads this
    {
      |buffer| <= BUFFER_MAX
    }

    ghost function Value(): BookValue
      reads this
    {
      BookValue(mode, bids, asks, lastUpdateId, buffer, needFirst, tickerBid, tickerAsk,
                mismatches, snapshots, gaps, crossed, dropped, unverified)
    }

    constructor ()
      ensures Valid() && Value() == FRESH
    {
      bids, asks := map[], map[];
      lastUpdateId, mode, buffer, needFirst := 0, Uninitialized, [], false;
      snapshots, gaps, crossed, dropped, unverified, mismatches := 0, 0, 0, 0, 0, 0;
      tickerBid, tickerAsk := ZERO, ZERO;
    }

    method BufferPush(e: Event)
      requires Valid()
      modifies this
      ensures Valid() && Value() == Push(old(Value()), e)
    {
      if |buffer| >= BUFFER_MAX {
        dropped := dropped + 1;
      }
      assert buffer != [] ==> (buffer + [e])[1..] == buffer[1..] + [e];
      buffer := DequeAppend(buffer, e);
    }

    method ToBuffering(e: Event)
      requires Valid()
      modifies this
      ensures Valid() && Value() == FallBack(old(Value()), e)
    {
      mode := Buffering;
      buffer := [];
      BufferPush(e);
      mismatches := 0;
    }

    method ApplyDiff(newBids: seq<Level>, newAsks: seq<Level>, u: nat)
      modifies this`bids, this`asks, this`lastUpdateId
      ensures bids == Overlay(old(bids), newBids) && asks == Overlay(old(asks), newAsks)
      ensures lastUpdateId == u
    {
      for i := 0 to |newBids|
        invariant bids == Overlay(old(bids), newBids[..i]) && asks == old(asks)
      {
        assert newBids[..i + 1][..i] == newBids[..i];
        if newBids[i].qty == 0.0 {
          bids := bids - {newBids[i].price};
        } else {
          bids := bids[newBids[i].price := newBids[i].qty];
        }
      }
      assert newBids[..|newBids|] == newBids;
      for i := 0 to |newAsks|
        invariant bids == Overlay(old(bids), newBids) && asks == Overlay(old(asks), newAsks[..i])
      {
        assert newAsks[..i + 1][..i] == newAsks[..i];
        if newAsks[i].qty == 0.0 {
          asks := asks - {newAsks[i].price};
        } else {
          asks := asks[newAsks[i].price := newAsks[i].qty];
        }
      }
      assert newAsks[..|newAsks|] == newAsks;
      lastUpdateId := u;
    }

    method CheckIntegrity() returns (ok: bool)
      modifies this`crossed, this`mismatches
      ensures BookModel.CheckIntegrity(old(Value())) == Checked(Value(), ok)
    {
      if bids == map[] || asks == map[] {
        return true;
      }
      var bookBid := MaxKey(bids);
      var bookAsk := MinKey(asks);
      if bookBid.value >= bookAsk.value {
        crossed := crossed + 1;
        return false;
      }
      if tickerBid != ZERO && tickerAsk != ZERO {
        if bookBid != tickerBid || bookAsk != tickerAsk {
          mismatches := mismatches + 1;
          if mismatches >= MISMATCH_THRESHOLD {
            return false;
          }
        } else {
          mismatches := 0;
        }
      }
      return true;
    }

    method OnDepth(e: Event) returns (action: Action)
      requires Valid()
      modifies this
      ensures Valid() && BookModel.OnDepth(old(Value()), e) == Reacted(Value(), action)
    {
      if mode == Uninitialized {
        mode := Buffering;
        BufferPush(e);
        return NeedSnapshot;
      }
      if mode == Buffering {
        BufferPush(e);
        return NoAction;
      }
      if e.last <= lastUpdateId {
        return NoAction;
      }
      if needFirst {
        needFirst := false;
      } else if e.prev != lastUpdateId {
        gaps := gaps + 1;
        ToBuffering(e);
        return NeedSnapshot;
      }
      ApplyDiff(e.bids, e.asks, e.last);
      assert Value() == Apply(old(Value()).(needFirst := false), e);
      var ok := CheckIntegrity();
      if !ok {
        ToBuffering(e);
        return NeedSnapshot;
      }
      return Publish;
    }

    /** Replay the drained buffer in order, stopping at the first event that does
        not bridge or chain. */
    method ReplayBuffered(buffered: seq<Event>, id: nat) returns (ok: bool, appliedAny: bool)
      requires Valid()
      modifies this`bids, this`asks, this`lastUpdateId
      ensures Valid()
      ensures Replay(old(Value()), buffered, id) == Replayed(Value(), ok, appliedAny)
    {
      appliedAny := false;
      for i := 0 to |buffered|
        invariant Valid()
        invariant Replay(old(Value()), buffered[..i], id) == Replayed(Value(), true, appliedAny)
      {
        var e := buffered[i];
        assert buffered[..i + 1][..i] == buffered[..i];
        if e.last < id {
          continue;
        }
        if !appliedAny {
          if e.first > id {
            ReplayStuck(old(Value()), buffered, i + 1, id);
            return false, appliedAny;
          }
        } else if e.prev != lastUpdateId {
          ReplayStuck(old(Value()), buffered, i + 1, id);
          return false, appliedAny;
        }
        appliedAny := true;
        ApplyDiff(e.bids, e.asks, e.last);
      }
      assert buffered[..|buffered|] == buffered;
      return true, appliedAny;
    }

    /** Go live after a successful replay, unless the integrity check objects. */
    method FinishSync(appliedAny: bool) returns (live: bool)
      requires Valid()
      modifies this
      ensures Valid()
      ensures var c := BookModel.CheckIntegrity(GoLive(Replayed(old(Value()), true, appliedAny)));
              live == c.ok && Value() == if c.ok then c.book else c.book.(mode := Buffering)
    {
      EnterLive(appliedAny);
      live := CheckIntegrity();
      if !live {
        mode := Buffering;
      }
    }

    method EnterLive(appliedAny: bool)
      requires Valid()
      modifies this
      ensures Valid() && Value() == GoLive(Replayed(old(Value()), true, appliedAny))
    {
      mode := Live;
      needFirst := !appliedAny;
      if !appliedAny {
        unverified := unverified + 1;
      }
      mismatches := 0;
    }

    method OnSnapshot(s: Snapshot) returns (live: bool)
      requires Valid()
      modifies this
      ensures Valid() && BookModel.OnSnapshot(old(Value()), s) == Synced(Value(), live)
    {
      if mode != Buffering {
        return true;
      }
      bids := PositiveLevels(s.bids);
      asks := PositiveLevels(s.asks);
      lastUpdateId := s.id;
      snapshots := snapshots + 1;
      var buffered := buffer;
      buffer := [];
      ghost var loaded := Value();
      assert loaded == Loaded(old(Value()), s);
      var ok, appliedAny := ReplayBuffered(buffered, s.id);
      if !ok {
        return false;
      }
      live := FinishSync(appliedAny);
    }

    method SetTickerBbo(bid: Price, ask: Price)
      requires Valid()
      modifies this
      ensures Valid() && Value() == SetTicker(old(Value()), bid, ask)
    {
      tickerBid := bid;
      tickerAsk := ask;
    }

    method Reset()
      modifies this
      ensures Valid() && Value() == BookModel.Reset(old(Value()))
    {
      bids, asks := map[], map[];
      lastUpdateId := 0;
      mode := Uninitialized;
      buffer := [];
      ForgetChecks();
    }

    method ForgetChecks()
      modifies this`needFirst, this`tickerBid, this`tickerAsk, this`mismatches
      ensures !needFirst && tickerBid == tickerAsk == ZERO && mismatches == 0
    {
      needFirst := false;
      tickerBid, tickerAsk := ZERO, ZERO;
      mismatches := 0;
    }

    method MarkForResync()
      modifies this
      ensures Valid() && Value() == BookModel.MarkForResync(old(Value()))
    {
      Reset();
      mode := Buffering;
    }

    method TopLevels(n: nat) returns (topBids: seq<Level>, topAsks: seq<Level>)
      ensures topBids == Top(Bid, bids, n) && topAsks == Top(Ask, asks, n)
    {
      topBids := SortedItems(Bid, bids);
      topBids := if n <= |topBids| then topBids[..n] else topBids;
      topAsks := SortedItems(Ask, asks);
      topAsks := if n <= |topAsks| then topAsks[..n] else topAsks;
    }

    method Perform(op: Op) returns (d: Digest)
      requires Valid()
      modifies this
      ensures Valid()
      ensures var s := Step(old(Value()), op); Value() == s.book && d == DigestOf(s.reply, s.book)
    {
      var reply := Silent;
      match op {
        case Depth(e) => var action := OnDepth(e); reply := Did(action);
        case Sync(s) => var live := OnSnapshot(s); reply := WentLive(live);
        case Ticker(bid, ask) => SetTickerBbo(bid, ask);
        case Disconnect => Reset();
        case Resync => MarkForResync();
      }
      var topBids, topAsks := TopLevels(SHOWN);
      d := Digest(reply, mode, lastUpdateId, |bids|, |asks|, topBids, topAsks,
                  gaps, crossed, snapshots, unverified, dropped);
    }
  }

  method RunScript(ops: seq<Op>) returns (digests: seq<Digest>)
    ensures digests == Trace(ops)
  {
    var b := new Book();
    digests := [];
    assert ops[..0] == [];
    for i := 0 to |ops|
      invariant b.Valid() && fresh(b)
      invariant b.Value() == Run(ops[..i]) && digests == Trace(ops[..i])
    {
      assert ops[..i + 1][..i] == ops[..i];
      var d := b.Perform(ops[i]);
      digests := digests + [d];
    }
    assert ops[..|ops|] == ops;
  }
}
