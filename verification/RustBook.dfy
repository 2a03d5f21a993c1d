/** The Rust book: ordered maps updated in place, a double-ended buffer, and the
    same decisions taken by reading the ends of the maps. */
module RustBook {
  import opened Levels
  import opened BookModel
  import opened OrderedMap
  import opened Digests

  class Book {
    var bids: seq<Level>
    var asks: seq<Level>
    var lastUpdateId: nat
    var mode: Mode
    var snapshots: nat
    var gaps: nat
    var crossed: nat
    var dropped: nat
    var unverified: nat
    var buffer: seq<Event>
    var needFirst: bool
    var tickerBid: Price
    var tickerAsk: Price
    var mismatches: nat

    ghost predicate Valid()
      reads this
    {
      Ascending(bids) && Ascending(asks)
    }

    ghost function Value(): BookValue
      reads this
    {
      BookValue(mode, ToSide(bids), ToSide(asks), lastUpdateId, buffer, needFirst, tickerBid, tickerAsk,
                mismatches, snapshots, gaps, crossed, dropped, unverified)
    }

    constructor ()
      ensures Valid() && Value() == FRESH
    {
      bids, asks := [], [];
      lastUpdateId, mode, buffer, needFirst := 0, Uninitialized, [], false;
      snapshots, gaps, crossed, dropped, unverified, mismatches := 0, 0, 0, 0, 0, 0;
      tickerBid, tickerAsk := ZERO, ZERO;
    }

    method BufferPush(e: Event)
      requires Valid()
      modifies this
      ensures Valid() && Value() == Push(old(Value()), e)
    {
      if |buffer| >= BUFFER_MAX {
        buffer := buffer[1..];
        dropped := dropped + 1;
      }
      buffer := buffer + [e];
    }

    method FallBackToBuffering(e: Event)
      requires Valid()
      modifies this
      ensures Valid() && Value() == FallBack(old(Value()), e)
    {
      mode := Buffering;
      buffer := [];
      BufferPush(e);
      mismatches := 0;
    }

    method ApplyDiff(newBids: seq<Level>, newAsks: seq<Level>, u: nat)
      requires Valid()
      modifies this`bids, this`asks, this`lastUpdateId
      ensures Valid()
      ensures ToSide(bids) == Overlay(old(ToSide(bids)), newBids)
      ensures ToSide(asks) == Overlay(old(ToSide(asks)), newAsks)
      ensures lastUpdateId == u
    {
      for i := 0 to |newBids|
        invariant Valid() && asks == old(asks)
        invariant ToSide(bids) == Overlay(old(ToSide(bids)), newBids[..i])
      {
        assert newBids[..i + 1][..i] == newBids[..i];
        bids := Changed(bids, newBids[i]);
      }
      assert newBids[..|newBids|] == newBids;
      for i := 0 to |newAsks|
        invariant Valid() && ToSide(bids) == Overlay(old(ToSide(bids)), newBids)
        invariant ToSide(asks) == Overlay(old(ToSide(asks)), newAsks[..i])
      {
        assert newAsks[..i + 1][..i] == newAsks[..i];
        asks := Changed(asks, newAsks[i]);
      }
      assert newAsks[..|newAsks|] == newAsks;
      lastUpdateId := u;
    }

    method CheckIntegrity() returns (ok: bool)
      requires Valid()
      modifies this`crossed, this`mismatches
      ensures Valid()
      ensures BookModel.CheckIntegrity(old(Value())) == Checked(Value(), ok)
    {
      EmptyMeans(bids);
      EmptyMeans(asks);
      if bids == [] || asks == [] {
        return true;
      }
      EndsAreBest(bids);
      EndsAreBest(asks);
      var bookBid, bookAsk := bids[|bids| - 1].price, asks[0].price;
      if bookBid.value >= bookAsk.value {
        crossed := crossed + 1;
        return false;
      }
      if tickerBid != ZERO && tickerAsk != ZERO {
        if bookBid != tickerBid || bookAsk != tickerAsk {
          mismatches := mismatches + 1;
          if mismatches >= MISMATCH_THRESHOLD {
            return false;
          }
        } else {
          mismatches := 0;
        }
      }
      return true;
    }

    method OnDepth(e: Event) returns (action: Action)
      requires Valid()
      modifies this
      ensures Valid() && BookModel.OnDepth(old(Value()), e) == Reacted(Value(), action)
    {
      match mode {
        case Uninitialized =>
          mode := Buffering;
          BufferPush(e);
          return NeedSnapshot;
        case Buffering =>
          BufferPush(e);
          return NoAction;
        case Live =>
          action := OnLiveDepth(e);
      }
    }

    method OnLiveDepth(e: Event) returns (action: Action)
      requires Valid() && mode == Live
      modifies this
      ensures Valid() && BookModel.OnDepth(old(Value()), e) == Reacted(Value(), action)
    {
      if e.last <= lastUpdateId {
        return NoAction;
      }
      if needFirst {
        needFirst := false;
      } else if e.prev != lastUpdateId {
        gaps := gaps + 1;
        FallBackToBuffering(e);
        return NeedSnapshot;
      }
      action := Examine(e);
    }

    /** Apply the event and let the integrity check decide. */
    method Examine(e: Event) returns (action: Action)
      requires Valid()
      modifies this
      ensures Valid()
      ensures var c := BookModel.CheckIntegrity(Apply(old(Value()), e));
              Reacted(Value(), action) == if c.ok then Reacted(c.book, Publish) else Reacted(FallBack(c.book, e), NeedSnapshot)
    {
      ApplyDiff(e.bids, e.asks, e.last);
      assert Value() == Apply(old(Value()), e);
      var ok := CheckIntegrity();
      if !ok {
        FallBackToBuffering(e);
        return NeedSnapshot;
      }
      return Publish;
    }

    /** Replay the drained buffer in order, stopping at the first event that does
        not bridge or chain. */
    method ReplayBuffered(buffered: seq<Event>, id: nat) returns (ok: bool, appliedAny: bool)
      requires Valid()
      modifies this`bids, this`asks, this`lastUpdateId
      ensures Valid()
      ensures Replay(old(Value()), buffered, id) == Replayed(Value(), ok, appliedAny)
    {
      appliedAny := false;
      for i := 0 to |buffered|
        invariant Valid()
        invariant Replay(old(Value()), buffered[..i], id) == Replayed(Value(), true, appliedAny)
      {
        var e := buffered[i];
        assert buffered[..i + 1][..i] == buffered[..i];
        if e.last < id {
          continue;
        }
        if !appliedAny {
          if e.first > id {
            ReplayStuck(old(Value()), buffered, i + 1, id);
            return false, appliedAny;
          }
        } else if e.prev != lastUpdateId {
          ReplayStuck(old(Value()), buffered, i + 1, id);
          return false, appliedAny;
        }
        appliedAny := true;
        ApplyDiff(e.bids, e.asks, e.last);
      }
      assert buffered[..|buffered|] == buffered;
      return true, appliedAny;
    }

    /** Go live after a successful replay, unless the integrity check objects. */
    method FinishSync(appliedAny: bool) returns (live: bool)
      requires Valid()
      modifies this
      ensures Valid()
      ensures var c := BookModel.CheckIntegrity(GoLive(Replayed(old(Value()), true, appliedAny)));
              live == c.ok && Value() == if c.ok then c.book else c.book.(mode := Buffering)
    {
      EnterLive(appliedAny);
      live := CheckIntegrity();
      if !live {
        mode := Buffering;
      }
    }

    method EnterLive(appliedAny: bool)
      requires Valid()
      modifies this
      ensures Valid() && Value() == GoLive(Replayed(old(Value()), true, appliedAny))
    {
      mode := Live;
      needFirst := !appliedAny;
      if !appliedAny {
        unverified := unverified + 1;
      }
      mismatches := 0;
    }

    method OnSnapshot(s: Snapshot) returns (live: bool)
      requires Valid()
      modifies this
      ensures Valid() && BookModel.OnSnapshot(old(Value()), s) == Synced(Value(), live)
    {
      if mode != Buffering {
        return true;
      }
      Load(s);
      var buffered := buffer;
      buffer := [];
      ghost var loaded := Value();
      assert loaded == Loaded(old(Value()), s);
      var ok, appliedAny := ReplayBuffered(buffered, s.id);
      if !ok {
        return false;
      }
      live := FinishSync(appliedAny);
    }

    method Load(s: Snapshot)
      requires Valid()
      modifies this`bids, this`asks, this`lastUpdateId, this`snapshots
      ensures Valid() && ToSide(bids) == Listed(s.bids) && ToSide(asks) == Listed(s.asks)
      ensures lastUpdateId == s.id && snapshots == old(snapshots) + 1
    {
      bids := [];
      for i := 0 to |s.bids|
        invariant Valid() && ToSide(bids) == Listed(s.bids[..i]) && snapshots == old(snapshots)
      {
        assert s.bids[..i + 1][..i] == s.bids[..i];
        if s.bids[i].qty > 0.0 {
          InsertAscends(bids, s.bids[i]);
          InsertMeans(bids, s.bids[i]);
          bids := Insert(bids, s.bids[i]);
        }
      }
      assert s.bids[..|s.bids|] == s.bids;
      asks := [];
      for i := 0 to |s.asks|
        invariant Valid() && ToSide(bids) == Listed(s.bids) && ToSide(asks) == Listed(s.asks[..i])
        invariant snapshots == old(snapshots)
      {
        assert s.asks[..i + 1][..i] == s.asks[..i];
        if s.asks[i].qty > 0.0 {
          InsertAscends(asks, s.asks[i]);
          InsertMeans(asks, s.asks[i]);
          asks := Insert(asks, s.asks[i]);
        }
      }
      assert s.asks[..|s.asks|] == s.asks;
      lastUpdateId := s.id;
      snapshots := snapshots + 1;
    }

    method SetTickerBbo(bid: Price, ask: Price)
      requires Valid()
      modifies this
      ensures Valid() && Value() == SetTicker(old(Value()), bid, ask)
    {
      tickerBid := bid;
      tickerAsk := ask;
    }

    method Reset()
      requires Valid()
      modifies this
      ensures Valid() && Value() == BookModel.Reset(old(Value()))
    {
      bids, asks := [], [];
      lastUpdateId := 0;
      mode := Uninitialized;
      buffer := [];
      ForgetChecks();
    }

    method ForgetChecks()
      modifies this`needFirst, this`tickerBid, this`tickerAsk, this`mismatches
      ensures !needFirst && tickerBid == tickerAsk == ZERO && mismatches == 0
    {
      needFirst := false;
      tickerBid, tickerAsk := ZERO, ZERO;
      mismatches := 0;
    }

    method MarkForResync()
      requires Valid()
      modifies this
      ensures Valid() && Value() == BookModel.MarkForResync(old(Value()))
    {
      Reset();
      mode := Buffering;
    }

    /** Best bids from the back of the map, best asks from its front. */
    method TopLevels(n: nat) returns (topBids: seq<Level>, topAsks: seq<Level>)
      requires Valid()
      ensures topBids == Top(Bid, Value().bids, n) && topAsks == Top(Ask, Value().asks, n)
    {
      ReversedIsRanked(bids);
      ForwardIsRanked(asks);
      topBids := Reversed(bids);
      topBids := if n <= |topBids| then topBids[..n] else topBids;
      topAsks := if n <= |asks| then asks[..n] else asks;
    }

    method Perform(op: Op) returns (d: Digest)
      requires Valid()
      modifies this
      ensures Valid()
      ensures var s := Step(old(Value()), op); Value() == s.book && d == DigestOf(s.reply, s.book)
    {
      var reply := Silent;
      match op {
        case Depth(e) => var action := OnDepth(e); reply := Did(action);
        case Sync(s) => var live := OnSnapshot(s); reply := WentLive(live);
        case Ticker(bid, ask) => SetTickerBbo(bid, ask);
        case Disconnect => Reset();
        case Resync => MarkForResync();
      }
      var topBids, topAsks := TopLevels(SHOWN);
      ToSideShape(bids);
      ToSideShape(asks);
      d := Digest(reply, mode, lastUpdateId, |bids|, |asks|, topBids, topAsks,
                  gaps, crossed, snapshots, unverified, dropped);
    }
  }

  /** Remove the level if its new quantity is zero, else insert it. */
  function Changed(m: seq<Level>, l: Level): (r: seq<Level>)
    requires Ascending(m)
    ensures Ascending(r) && ToSide(r) == Put(ToSide(m), l)
  {
    InsertAscends(m, l);
    InsertMeans(m, l);
    RemoveAscends(m, l.price);
    RemoveMeans(m, l.price);
    if l.qty == 0.0 then Remove(m, l.price) else Insert(m, l)
  }

  method RunScript(ops: seq<Op>) returns (digests: seq<Digest>)
    ensures digests == Trace(ops)
  {
    var b := new Book();
    digests := [];
    assert ops[..0] == [];
    for i := 0 to |ops|
      invariant b.Valid() && fresh(b)
      invariant b.Value() == Run(ops[..i]) && digests == Trace(ops[..i])
    {
      assert ops[..i + 1][..i] == ops[..i];
      var d := b.Perform(ops[i]);
      digests := digests + [d];
    }
    assert ops[..|ops|] == ops;
  }
}
