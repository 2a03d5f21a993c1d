/** Price levels: one side of an order book as a finite map, the absolute-quantity
    diffs the venue sends, and the best-first listing both implementations publish. */
module Levels {

  datatype Option<+T> = None | Some(value: T)

  /** A decimal price: exact, ordered and compared by its numeric value. */
  datatype Price = Price(value: real)

  datatype Level = Level(price: Price, qty: real)

  type Side = map<Price, real>

  datatype Kind = Bid | Ask

  /** Higher bids and lower asks are better. */
  predicate Better(k: Kind, p: Price, q: Price) {
    if k.Bid? then p.value > q.value else p.value < q.value
  }

  /** The quantity resting at a price; an absent level holds nothing. */
  function Qty(s: Side, p: Price): real {
    if p in s then s[p] else 0.0
  }

  predicate Positive(s: Side) {
    forall p | p in s :: s[p] > 0.0
  }

  predicate NonNegative(ls: seq<Level>) {
    forall l | l in ls :: l.qty >= 0.0
  }

  // ---- Applying diffs and snapshots ----

  /** One diff entry: quantity zero deletes the level, anything else replaces it. */
  function Put(s: Side, l: Level): Side {
    if l.qty == 0.0 then s - {l.price} else s[l.price := l.qty]
  }

  function Overlay(s: Side, ls: seq<Level>): Side {
    if ls == [] then s else Put(Overlay(s, ls[..|ls| - 1]), ls[|ls| - 1])
  }

  /** A snapshot side: only strictly positive quantities are kept. */
  function Listed(ls: seq<Level>): Side {
    if ls == [] then map[]
    else
      var rest, l := Listed(ls[..|ls| - 1]), ls[|ls| - 1];
      if l.qty > 0.0 then rest[l.price := l.qty] else rest
  }

  /** The last quantity a diff reports for a price, if it mentions the price. */
  function Reported(ls: seq<Level>, p: Price): Option<real> {
    if ls == [] then None
    else if ls[|ls| - 1].price == p then Some(ls[|ls| - 1].qty)
    else Reported(ls[..|ls| - 1], p)
  }

  /** The meaning of a diff, price by price: a mentioned price takes its last
      reported quantity, every other price keeps what it had. */
  lemma {:induction false} OverlayAt(s: Side, ls: seq<Level>, p: Price)
    ensures Qty(Overlay(s, ls), p) == match Reported(ls, p) { case Some(q) => q case None => Qty(s, p) }
    ensures p in Overlay(s, ls) <==> match Reported(ls, p) { case Some(q) => q != 0.0 case None => p in s }
  {
    if ls != [] {
      OverlayAt(s, ls[..|ls| - 1], p);
    }
  }

  /** Diffs carry absolute quantities, so replaying one twice changes nothing. */
  lemma OverlayIdempotent(s: Side, ls: seq<Level>)
    ensures Overlay(Overlay(s, ls), ls) == Overlay(s, ls)
  {
    var once := Overlay(s, ls);
    var twice := Overlay(once, ls);
    forall p ensures (p in twice <==> p in once) && Qty(twice, p) == Qty(once, p) {
      OverlayAt(s, ls, p);
      OverlayAt(once, ls, p);
    }
    assert forall p :: p in twice <==> p in once;
    assert forall p | p in once :: Qty(twice, p) == Qty(once, p);
  }

  lemma {:induction false} OverlayPositive(s: Side, ls: seq<Level>)
    requires Positive(s) && NonNegative(ls)
    ensures Positive(Overlay(s, ls))
  {
    if ls != [] {
      OverlayPositive(s, ls[..|ls| - 1]);
    }
  }

  /** The last positive quantity listed for a price, if there is one. */
  function LastPositive(ls: seq<Level>, p: Price): Option<real> {
    if ls == [] then None
    else if ls[|ls| - 1].price == p && ls[|ls| - 1].qty > 0.0 then Some(ls[|ls| - 1].qty)
    else LastPositive(ls[..|ls| - 1], p)
  }

  /** A snapshot side holds each price listed with a positive quantity, and the last
      such quantity if the price is listed more than once. */
  lemma {:induction false} ListedAt(ls: seq<Level>, p: Price)
    ensures Positive(Listed(ls))
    ensures p in Listed(ls) <==> LastPositive(ls, p).Some?
    ensures p in Listed(ls) ==> Listed(ls)[p] == LastPositive(ls, p).value
    ensures p in Listed(ls) <==> exists l | l in ls :: l.price == p && l.qty > 0.0
    ensures p in Listed(ls) ==> Level(p, Listed(ls)[p]) in ls
  {
    if ls != [] {
      var rest, l := ls[..|ls| - 1], ls[|ls| - 1];
      ListedAt(rest, p);
      assert ls == rest + [l];
    }
  }

  lemma ListedOne(l: Level)
    requires l.qty > 0.0
    ensures Listed([l]) == map[l.price := l.qty] && Overlay(map[], [l]) == map[l.price := l.qty]
    ensures Overlay(map[l.price := l.qty], [l]) == map[l.price := l.qty]
  {
    assert [l][..0] == [];
  }

  // ---- Best price and best-first order ----

  predicate IsBest(k: Kind, s: set<Price>, p: Price) {
    p in s && forall q | q in s :: !Better(k, q, p)
  }

  lemma {:induction false} HasBest(k: Kind, s: set<Price>)
    requires s != {}
    ensures exists p :: IsBest(k, s, p)
  {
    var x :| x in s;
    var rest := s - {x};
    assert forall q | q in s :: q == x || q in rest;
    if rest == {} {
      assert IsBest(k, s, x);
    } else {
      HasBest(k, rest);
      var y :| IsBest(k, rest, y);
      assert IsBest(k, s, if Better(k, x, y) then x else y);
    }
  }

  function Best(k: Kind, s: set<Price>): (p: Price)
    requires s != {}
    ensures IsBest(k, s, p)
  {
    HasBest(k, s);
    var p :| p in s && IsBest(k, s, p);
    p
  }

  /** Every level of a side, best first. */
  function Ranked(k: Kind, s: Side): seq<Level>
    decreases s.Keys
  {
    if s == map[] then []
    else
      var p := Best(k, s.Keys);
      assert (s - {p}).Keys == s.Keys - {p};
      [Level(p, s[p])] + Ranked(k, s - {p})
  }

  /** The `n` best levels. */
  function Top(k: Kind, s: Side, n: nat): seq<Level> {
    var all := Ranked(k, s);
    if n <= |all| then all[..n] else all
  }

  predicate BestFirst(k: Kind, ls: seq<Level>) {
    forall i, j | 0 <= i < j < |ls| :: Better(k, ls[i].price, ls[j].price)
  }

  /** The listing holds each level of the side exactly once, in strict order. */
  lemma {:induction false} RankedShape(k: Kind, s: Side)
    ensures |Ranked(k, s)| == |s|
    ensures BestFirst(k, Ranked(k, s))
    ensures forall l :: l in Ranked(k, s) <==> l.price in s && l.qty == s[l.price]
    decreases s.Keys
  {
    if s != map[] {
      var p := Best(k, s.Keys);
      var rest := s - {p};
      assert rest.Keys == s.Keys - {p};
      RankedShape(k, rest);
      RankedStep(k, s, p, Ranked(k, rest));
    }
  }

  lemma RankedStep(k: Kind, s: Side, p: Price, tail: seq<Level>)
    requires IsBest(k, s.Keys, p)
    requires BestFirst(k, tail) && |tail| == |s - {p}|
    requires forall l :: l in tail <==> l.price in s - {p} && l.qty == s[l.price]
    ensures var all := [Level(p, s[p])] + tail;
            |all| == |s| && BestFirst(k, all) &&
            forall l :: l in all <==> l.price in s && l.qty == s[l.price]
  {
    assert (s - {p}).Keys == s.Keys - {p};
    forall i | 0 <= i < |tail| ensures Better(k, p, tail[i].price) {
      assert tail[i] in tail;
    }
  }

  /** The listing holds the side's levels and nothing else. */
  predicate Lists(ls: seq<Level>, s: Side) {
    && (forall l | l in ls :: l.price in s && l.qty == s[l.price])
    && (forall p | p in s :: Level(p, s[p]) in ls)
  }

  /** Only one strictly ordered listing does: however a side is sorted, the result is
      the same. */
  lemma {:induction false} RankedIsUnique(k: Kind, s: Side, ls: seq<Level>)
    requires BestFirst(k, ls) && Lists(ls, s)
    ensures ls == Ranked(k, s)
    decreases |ls|
  {
    if ls == [] {
      EmptyListsNothing(s);
    } else {
      var p := ls[0].price;
      FirstIsBest(k, s, ls);
      TailListsTheRest(k, s, ls);
      RankedIsUnique(k, s - {p}, ls[1..]);
      RankedCons(k, s);
      assert ls == [ls[0]] + ls[1..] && ls[0] == Level(p, s[p]);
    }
  }

  lemma RankedCons(k: Kind, s: Side)
    requires s != map[]
    ensures var p := Best(k, s.Keys); Ranked(k, s) == [Level(p, s[p])] + Ranked(k, s - {p})
  {
  }

  lemma EmptyListsNothing(s: Side)
    requires Lists([], s)
    ensures s == map[]
  {
    assert forall p :: p !in s;
  }

  lemma FirstIsBest(k: Kind, s: Side, ls: seq<Level>)
    requires BestFirst(k, ls) && ls != [] && Lists(ls, s)
    ensures s != map[] && Best(k, s.Keys) == ls[0].price
    ensures s[ls[0].price] == ls[0].qty
  {
    assert ls[0] in ls;
    var p, best := ls[0].price, Best(k, s.Keys);
    assert Level(best, s[best]) in ls;
    var i :| 0 <= i < |ls| && ls[i] == Level(best, s[best]);
    assert !Better(k, p, best);
  }

  lemma TailListsTheRest(k: Kind, s: Side, ls: seq<Level>)
    requires BestFirst(k, ls) && ls != [] && Lists(ls, s)
    ensures BestFirst(k, ls[1..]) && Lists(ls[1..], s - {ls[0].price})
  {
    assert ls == [ls[0]] + ls[1..];
    assert ls[0] in ls;
    forall l | l in ls[1..] ensures l.price != ls[0].price {
      var i :| 0 <= i < |ls[1..]| && ls[1..][i] == l;
      assert ls[i + 1] == l;
    }
  }

  /** What `Top` promises: as many levels as asked for and available, all of them
      real, strictly ordered, and none left out that beats one listed. */
  lemma TopShape(k: Kind, s: Side, n: nat)
    ensures |Top(k, s, n)| == if n <= |s| then n else |s|
    ensures BestFirst(k, Top(k, s, n))
    ensures forall l | l in Top(k, s, n) :: l.price in s && l.qty == s[l.price]
    ensures forall p, l | p in s && Level(p, s[p]) !in Top(k, s, n) && l in Top(k, s, n) :: Better(k, l.price, p)
  {
    RankedShape(k, s);
    var all, top := Ranked(k, s), Top(k, s, n);
    forall p, l | p in s && Level(p, s[p]) !in top && l in top ensures Better(k, l.price, p) {
      assert Level(p, s[p]) in all;
      var i :| 0 <= i < |all| && all[i] == Level(p, s[p]);
      var j :| 0 <= j < |top| && top[j] == l;
      assert top[j] == all[j];
    }
  }
}
