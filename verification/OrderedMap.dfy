/** The ordered map the Rust book keeps each side in, as its entries in ascending
    price order, and its meaning as a plain finite map. */
module OrderedMap {
  import opened Levels

  predicate Ascending(m: seq<Level>) {
    forall i, j | 0 <= i < j < |m| :: m[i].price.value < m[j].price.value
  }

  function ToSide(m: seq<Level>): Side {
    if m == [] then map[] else ToSide(m[..|m| - 1])[m[|m| - 1].price := m[|m| - 1].qty]
  }

  function Insert(m: seq<Level>, l: Level): seq<Level> {
    if m == [] then [l]
    else
      var init, last := m[..|m| - 1], m[|m| - 1];
      if last.price == l.price then init + [l]
      else if last.price.value < l.price.value then m + [l]
      else Insert(init, l) + [last]
  }

  function Remove(m: seq<Level>, p: Price): seq<Level> {
    if m == [] then []
    else
      var init, last := m[..|m| - 1], m[|m| - 1];
      if last.price == p then init else Remove(init, p) + [last]
  }

  /** Keys and size of the meaning. */
  lemma {:induction false} ToSideShape(m: seq<Level>)
    requires Ascending(m)
    ensures |ToSide(m)| == |m|
    ensures forall p :: p in ToSide(m) <==> exists i :: 0 <= i < |m| && m[i].price == p
  {
    if m != [] {
      var init, last := m[..|m| - 1], m[|m| - 1];
      ToSideShape(init);
      assert forall i | 0 <= i < |init| :: m[i] == init[i];
      assert last.price !in ToSide(init);
      assert ToSide(m).Keys == ToSide(init).Keys + {last.price};
    }
  }

  lemma ToSideSnoc(m: seq<Level>, l: Level)
    ensures ToSide(m + [l]) == ToSide(m)[l.price := l.qty]
  {
    assert (m + [l])[..|m|] == m;
  }

  predicate Below(m: seq<Level>, p: Price) {
    forall l | l in m :: l.price.value < p.value
  }

  lemma Append(m: seq<Level>, l: Level)
    requires Ascending(m) && Below(m, l.price)
    ensures Ascending(m + [l])
    ensures ToSide(m + [l]) == ToSide(m)[l.price := l.qty]
    ensures l.price !in ToSide(m)
  {
    ToSideShape(m);
    ToSideSnoc(m, l);
    forall i | 0 <= i < |m| ensures m[i].price.value < l.price.value {
      assert m[i] in m;
    }
  }

  lemma Unsnoc(m: seq<Level>)
    requires Ascending(m) && m != []
    ensures m == m[..|m| - 1] + [m[|m| - 1]]
    ensures Ascending(m[..|m| - 1]) && Below(m[..|m| - 1], m[|m| - 1].price)
  {
  }

  lemma {:induction false} InsertMembers(m: seq<Level>, l: Level)
    ensures forall x | x in Insert(m, l) :: x == l || x in m
  {
    if m != [] {
      InsertMembers(m[..|m| - 1], l);
    }
  }

  lemma {:induction false} RemoveMembers(m: seq<Level>, p: Price)
    ensures forall x | x in Remove(m, p) :: x in m
  {
    if m != [] {
      RemoveMembers(m[..|m| - 1], p);
    }
  }

  lemma BelowAll(m: seq<Level>, l: Level)
    requires Ascending(m) && m != [] && m[|m| - 1].price.value < l.price.value
    ensures Below(m, l.price)
  {
  }

  lemma {:induction false} InsertAscends(m: seq<Level>, l: Level)
    requires Ascending(m)
    ensures Ascending(Insert(m, l))
  {
    if m != [] {
      var init, last := m[..|m| - 1], m[|m| - 1];
      Unsnoc(m);
      if last.price == l.price {
        Append(init, l);
      } else if last.price.value < l.price.value {
        BelowAll(m, l);
        Append(m, l);
      } else {
        InsertAscends(init, l);
        InsertMembers(init, l);
        Append(Insert(init, l), last);
      }
    }
  }

  lemma {:induction false} InsertMeans(m: seq<Level>, l: Level)
    ensures ToSide(Insert(m, l)) == ToSide(m)[l.price := l.qty]
  {
    if m == [] {
      ToSideSnoc([], l);
    } else {
      var init, last := m[..|m| - 1], m[|m| - 1];
      ToSideSnoc(m, l);
      ToSideSnoc(init, l);
      if last.price != l.price && last.price.value >= l.price.value {
        InsertMeans(init, l);
        ToSideSnoc(Insert(init, l), last);
        assert Insert(m, l) == Insert(init, l) + [last];
      }
    }
  }

  lemma {:induction false} RemoveAscends(m: seq<Level>, p: Price)
    requires Ascending(m)
    ensures Ascending(Remove(m, p))
  {
    if m != [] {
      var init, last := m[..|m| - 1], m[|m| - 1];
      Unsnoc(m);
      if last.price != p {
        RemoveAscends(init, p);
        RemoveMembers(init, p);
        Append(Remove(init, p), last);
      }
    }
  }

  lemma LastKeyIsNew(m: seq<Level>)
    requires Ascending(m) && m != []
    ensures Ascending(m[..|m| - 1]) && m[|m| - 1].price !in ToSide(m[..|m| - 1])
  {
    ToSideShape(m[..|m| - 1]);
  }

  lemma PutThenDrop(s: Side, l: Level, p: Price)
    ensures l.price == p && p !in s ==> s[l.price := l.qty] - {p} == s
    ensures l.price != p ==> s[l.price := l.qty] - {p} == (s - {p})[l.price := l.qty]
  {
  }

  lemma {:induction false} RemoveMeans(m: seq<Level>, p: Price)
    requires Ascending(m)
    ensures ToSide(Remove(m, p)) == ToSide(m) - {p}
  {
    if m != [] {
      var init, last := m[..|m| - 1], m[|m| - 1];
      LastKeyIsNew(m);
      PutThenDrop(ToSide(init), last, p);
      RemoveMeans(init, p);
      ToSideSnoc(Remove(init, p), last);
    }
  }

  lemma EmptyMeans(m: seq<Level>)
    ensures m == [] <==> ToSide(m) == map[]
  {
    if m != [] {
      assert m[|m| - 1].price in ToSide(m);
    }
  }

  /** The last key is the best bid, the first the best ask. */
  lemma EndsAreBest(m: seq<Level>)
    requires Ascending(m) && m != []
    ensures ToSide(m) != map[]
    ensures Best(Bid, ToSide(m).Keys) == m[|m| - 1].price
    ensures Best(Ask, ToSide(m).Keys) == m[0].price
  {
    ToSideShape(m);
    var last, first := m[|m| - 1].price, m[0].price;
    assert last in ToSide(m) && first in ToSide(m);
    var bid, ask := Best(Bid, ToSide(m).Keys), Best(Ask, ToSide(m).Keys);
    assert bid in ToSide(m) && ask in ToSide(m);
    assert !Better(Bid, last, bid) && !Better(Ask, first, ask);
  }

  function Reversed(m: seq<Level>): seq<Level> {
    if m == [] then [] else [m[|m| - 1]] + Reversed(m[..|m| - 1])
  }

  /** Backward iteration lists bids best first. */
  lemma {:induction false} ReversedIsRanked(m: seq<Level>)
    requires Ascending(m)
    ensures Reversed(m) == Ranked(Bid, ToSide(m)) && |Reversed(m)| == |m|
  {
    if m != [] {
      var init, last := m[..|m| - 1], m[|m| - 1];
      EndsAreBest(m);
      ToSideShape(init);
      assert forall i | 0 <= i < |init| :: init[i] == m[i];
      assert ToSide(m) - {last.price} == ToSide(init);
      ReversedIsRanked(init);
    }
  }

  lemma {:induction false} ToSideFromFront(m: seq<Level>)
    requires Ascending(m) && m != []
    ensures ToSide(m) - {m[0].price} == ToSide(m[1..])
    ensures m[0].price in ToSide(m) && ToSide(m)[m[0].price] == m[0].qty
  {
    var init, last := m[..|m| - 1], m[|m| - 1];
    if init == [] {
      assert ToSide(init) == map[];
      assert m[1..] == [];
    } else {
      ToSideFromFront(init);
      assert m[1..][..|m| - 2] == init[1..];
      assert last.price != m[0].price;
    }
  }

  /** Forward iteration lists asks best first. */
  lemma {:induction false} ForwardIsRanked(m: seq<Level>)
    requires Ascending(m)
    ensures m == Ranked(Ask, ToSide(m))
  {
    if m != [] {
      EndsAreBest(m);
      ToSideFromFront(m);
      ForwardIsRanked(m[1..]);
    }
  }
}
