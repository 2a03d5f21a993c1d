/** Choosing and ranking the symbols to track by traded volume. */
module Universe {

  // ---- Symbol names ----

  /** Alphabetical order, which is how names are compared when volumes tie. */
  predicate NameBefore(a: string, b: string) {
    if b == [] then false
    else if a == [] then true
    else a[0] < b[0] || (a[0] == b[0] && NameBefore(a[1..], b[1..]))
  }

  lemma {:induction false} NamesConnected(a: string, b: string)
    ensures a == b || NameBefore(a, b) || NameBefore(b, a)
    ensures !(NameBefore(a, b) && NameBefore(b, a)) && !NameBefore(a, a)
  {
    if a != [] {
      NamesConnected(a[1..], a[1..]);
      if b != [] {
        NamesConnected(a[1..], b[1..]);
        assert a == [a[0]] + a[1..] && b == [b[0]] + b[1..];
      }
    }
  }

  lemma {:induction false} NamesTransitive(a: string, b: string, c: string)
    requires NameBefore(a, b) && NameBefore(b, c)
    ensures NameBefore(a, c)
  {
    if a != [] && a[0] == b[0] == c[0] {
      NamesTransitive(a[1..], b[1..], c[1..]);
    }
  }

  /** One name is a beginning of the other, or the first character in which they
      differ decides. */
  ghost predicate Alphabetical(a: string, b: string) {
    a < b || exists i: nat :: DiffersFirstAt(a, b, i) && a[i] < b[i]
  }

  predicate DiffersFirstAt(a: string, b: string, i: nat) {
    i < |a| && i < |b| && (forall k | 0 <= k < i :: a[k] == b[k]) && a[i] != b[i]
  }

  lemma {:induction false} NameBeforeIff(a: string, b: string)
    ensures NameBefore(a, b) <==> Alphabetical(a, b)
  {
    if a != [] && b != [] {
      if a[0] == b[0] {
        NameBeforeIff(a[1..], b[1..]);
        TailsDiffer(a, b);
      } else {
        assert DiffersFirstAt(a, b, 0);
      }
    }
  }

  lemma TailsDiffer(a: string, b: string)
    requires a != [] && b != [] && a[0] == b[0]
    ensures Alphabetical(a, b) <==> Alphabetical(a[1..], b[1..])
  {
    var x, y := a[1..], b[1..];
    assert a == [a[0]] + x && b == [b[0]] + y;
    if Alphabetical(x, y) && !(x < y) {
      var i: nat :| DiffersFirstAt(x, y, i) && x[i] < y[i];
      assert DiffersFirstAt(a, b, i + 1);
    }
    if Alphabetical(a, b) && !(a < b) {
      var i: nat :| DiffersFirstAt(a, b, i) && a[i] < b[i];
      assert DiffersFirstAt(x, y, i - 1);
    }
  }

  // ---- Sorting by a strict total order ----

  ghost predicate StrictOrder(less: (string, string) -> bool) {
    && (forall a, b :: a == b || less(a, b) || less(b, a))
    && (forall a, b :: !(less(a, b) && less(b, a)))
    && (forall a, b, c :: less(a, b) && less(b, c) ==> less(a, c))
  }

  predicate Distinct(s: seq<string>) {
    forall i, j | 0 <= i < j < |s| :: s[i] != s[j]
  }

  predicate SortedBy(less: (string, string) -> bool, s: seq<string>) {
    forall i, j | 0 <= i < j < |s| :: less(s[i], s[j])
  }

  function Insert(less: (string, string) -> bool, s: seq<string>, x: string): seq<string> {
    if s == [] || less(x, s[0]) then [x] + s else [s[0]] + Insert(less, s[1..], x)
  }

  function Sort(less: (string, string) -> bool, s: seq<string>): seq<string> {
    if s == [] then [] else Insert(less, Sort(less, s[..|s| - 1]), s[|s| - 1])
  }

  lemma {:induction false} InsertMembers(less: (string, string) -> bool, s: seq<string>, x: string)
    ensures |Insert(less, s, x)| == |s| + 1
    ensures forall y :: y in Insert(less, s, x) <==> y == x || y in s
  {
    if s != [] && !less(x, s[0]) {
      InsertMembers(less, s[1..], x);
      assert s == [s[0]] + s[1..];
    }
  }

  lemma {:induction false} InsertSorts(less: (string, string) -> bool, s: seq<string>, x: string)
    requires StrictOrder(less) && SortedBy(less, s) && x !in s
    ensures SortedBy(less, Insert(less, s, x))
  {
    if s != [] && !less(x, s[0]) {
      InsertSorts(less, s[1..], x);
      InsertMembers(less, s[1..], x);
      var rest := Insert(less, s[1..], x);
      forall j | 0 <= j < |rest| ensures less(s[0], rest[j]) {
        assert rest[j] in rest;
      }
    }
  }

  lemma {:induction false} SortSorts(less: (string, string) -> bool, s: seq<string>)
    requires StrictOrder(less) && Distinct(s)
    ensures SortedBy(less, Sort(less, s)) && |Sort(less, s)| == |s|
    ensures forall y :: y in Sort(less, s) <==> y in s
  {
    if s != [] {
      var init, x := s[..|s| - 1], s[|s| - 1];
      SortSorts(less, init);
      assert s == init + [x] && x !in init;
      InsertSorts(less, Sort(less, init), x);
      InsertMembers(less, Sort(less, init), x);
    }
  }

  lemma TailIsTheRest(less: (string, string) -> bool, s: seq<string>)
    requires StrictOrder(less) && SortedBy(less, s) && s != []
    ensures forall y :: y in s[1..] <==> y in s && y != s[0]
  {
    assert !less(s[0], s[0]);
    assert s == [s[0]] + s[1..];
  }

  /** A set of names has only one sorted listing. */
  lemma {:induction false} SortedIsUnique(less: (string, string) -> bool, a: seq<string>, b: seq<string>)
    requires StrictOrder(less) && SortedBy(less, a) && SortedBy(less, b)
    requires forall y :: y in a <==> y in b
    ensures a == b
  {
    assert (a == [] || a[0] in a) && (b == [] || b[0] in b);
    if a != [] {
      assert a[0] == b[0];
      TailIsTheRest(less, a);
      TailIsTheRest(less, b);
      SortedIsUnique(less, a[1..], b[1..]);
    }
  }

  function Members(s: seq<string>): set<string> {
    set x | x in s
  }

  lemma SortedIsDistinct(less: (string, string) -> bool, s: seq<string>)
    requires StrictOrder(less) && SortedBy(less, s)
    ensures Distinct(s)
  {
  }

  lemma {:induction false} DistinctSize(s: seq<string>)
    requires Distinct(s)
    ensures |Members(s)| == |s|
  {
    if s != [] {
      var init, x := s[..|s| - 1], s[|s| - 1];
      DistinctSize(init);
      assert s == init + [x] && x !in init;
      assert Members(s) == Members(init) + {x};
    }
  }

  /** In a sorted listing a name's position is the number of names before it. */
  lemma PositionCounts(less: (string, string) -> bool, s: seq<string>, i: nat)
    requires StrictOrder(less) && SortedBy(less, s) && i < |s|
    ensures |set x | x in s && less(x, s[i])| == i
  {
    SortedIsDistinct(less, s);
    DistinctSize(s[..i]);
    assert (set x | x in s && less(x, s[i])) == Members(s[..i]);
  }

  // ---- Ranking by volume ----

  type Volumes = map<string, real>

  function Volume(v: Volumes, s: string): real {
    if s in v then v[s] else 0.0
  }

  /** More volume first; a name missing from the table has none; ties by name. */
  predicate Beats(v: Volumes, a: string, b: string) {
    Volume(v, a) > Volume(v, b) || (Volume(v, a) == Volume(v, b) && NameBefore(a, b))
  }

  function ByVolume(v: Volumes): (string, string) -> bool {
    (a, b) => Beats(v, a, b)
  }

  function ByName(): (string, string) -> bool {
    (a, b) => NameBefore(a, b)
  }

  lemma NameOrderIsStrict()
    ensures StrictOrder(ByName())
  {
    forall a, b ensures (a == b || NameBefore(a, b) || NameBefore(b, a)) && !(NameBefore(a, b) && NameBefore(b, a)) {
      NamesConnected(a, b);
    }
    forall a, b, c | NameBefore(a, b) && NameBefore(b, c) ensures NameBefore(a, c) {
      NamesTransitive(a, b, c);
    }
  }

  lemma VolumeOrderIsStrict(v: Volumes)
    ensures StrictOrder(ByVolume(v))
  {
    NameOrderIsStrict();
    var less, names := ByVolume(v), ByName();
    forall a, b ensures (a == b || less(a, b) || less(b, a)) && !(less(a, b) && less(b, a)) {
      assert (a == b || names(a, b) || names(b, a)) && !(names(a, b) && names(b, a));
    }
    forall a, b, c | less(a, b) && less(b, c) ensures less(a, c) {
      assert names(a, b) && names(b, c) ==> names(a, c);
    }
  }

  function IndexOf(s: seq<string>, x: string): (i: nat)
    requires x in s
    ensures i < |s| && s[i] == x
  {
    if s[0] == x then 0 else 1 + IndexOf(s[1..], x)
  }

  /** Sort, then number from zero. */
  function RankByVolume(symbols: seq<string>, v: Volumes): map<string, nat> {
    var ranked := Sort(ByVolume(v), symbols);
    map s | s in ranked :: IndexOf(ranked, s)
  }

  lemma RankOf(symbols: seq<string>, v: Volumes, s: string)
    requires Distinct(symbols) && s in symbols
    ensures s in RankByVolume(symbols, v)
    ensures RankByVolume(symbols, v)[s] == |set x | x in symbols && Beats(v, x, s)| < |symbols|
  {
    var less := ByVolume(v);
    var ranked := Sort(less, symbols);
    VolumeOrderIsStrict(v);
    SortSorts(less, symbols);
    PositionCounts(less, ranked, IndexOf(ranked, s));
    SameBeaten(symbols, ranked, v, s);
  }

  lemma SameBeaten(symbols: seq<string>, ranked: seq<string>, v: Volumes, s: string)
    requires forall x :: x in ranked <==> x in symbols
    ensures (set x | x in ranked && ByVolume(v)(x, s)) == (set x | x in symbols && Beats(v, x, s))
  {
  }

  lemma RankedAreAll(symbols: seq<string>, v: Volumes)
    requires Distinct(symbols)
    ensures RankByVolume(symbols, v).Keys == Members(symbols)
  {
    VolumeOrderIsStrict(v);
    SortSorts(ByVolume(v), symbols);
  }

  /** A symbol's rank is the number of tracked symbols that beat it. */
  lemma RankCountsBetter(symbols: seq<string>, v: Volumes)
    requires Distinct(symbols)
    ensures RankByVolume(symbols, v).Keys == Members(symbols)
    ensures forall s | s in symbols ::
              RankByVolume(symbols, v)[s] == |set x | x in symbols && Beats(v, x, s)| < |symbols|
  {
    RankedAreAll(symbols, v);
    forall s | s in symbols
      ensures RankByVolume(symbols, v)[s] == |set x | x in symbols && Beats(v, x, s)| < |symbols|
    {
      RankOf(symbols, v, s);
    }
  }

  lemma RankIsPosition(symbols: seq<string>, v: Volumes)
    requires Distinct(symbols)
    ensures var ranked, r := Sort(ByVolume(v), symbols), RankByVolume(symbols, v);
            && SortedBy(ByVolume(v), ranked) && |ranked| == |symbols| && r.Keys == Members(symbols)
            && (forall s | s in r :: r[s] < |ranked| && ranked[r[s]] == s)
            && (forall k | 0 <= k < |ranked| :: ranked[k] in r && r[ranked[k]] == k)
  {
    VolumeOrderIsStrict(v);
    SortSorts(ByVolume(v), symbols);
    SortedIsDistinct(ByVolume(v), Sort(ByVolume(v), symbols));
  }

  /** Ranks are a bijection onto 0..n-1 that follows the order exactly. */
  lemma RanksAreABijection(symbols: seq<string>, v: Volumes)
    requires Distinct(symbols)
    ensures var r := RankByVolume(symbols, v);
            && r.Keys == Members(symbols)
            && (forall a, b | a in r && b in r :: r[a] < r[b] <==> Beats(v, a, b))
            && (forall a, b | a in r && b in r && r[a] == r[b] :: a == b)
            && (forall k: nat :: k in r.Values <==> k < |symbols|)
  {
    RankIsPosition(symbols, v);
    VolumeOrderIsStrict(v);
    var less, ranked, r := ByVolume(v), Sort(ByVolume(v), symbols), RankByVolume(symbols, v);
    forall a, b | a in r && b in r ensures r[a] < r[b] <==> Beats(v, a, b) {
      assert r[a] < r[b] ==> less(a, b);
      assert r[b] < r[a] ==> less(b, a);
      assert !(less(a, b) && less(b, a));
      assert a == b || less(a, b) || less(b, a);
    }
    forall k: nat ensures k in r.Values <==> k < |symbols| {
      if k < |symbols| {
        assert ranked[k] in r.Keys && r[ranked[k]] == k;
      }
    }
  }

  function Keep(symbols: seq<string>, ranks: map<string, nat>, n: nat): seq<string> {
    if symbols == [] then []
    else
      var rest, s := Keep(symbols[..|symbols| - 1], ranks, n), symbols[|symbols| - 1];
      if s in ranks && ranks[s] < n then rest + [s] else rest
  }

  function PickTopByVolume(symbols: seq<string>, v: Volumes, n: nat): seq<string> {
    Sort(ByName(), Keep(symbols, RankByVolume(symbols, v), n))
  }

  lemma {:induction false} KeepMembers(symbols: seq<string>, ranks: map<string, nat>, n: nat)
    requires Distinct(symbols)
    ensures forall s :: s in Keep(symbols, ranks, n) <==> s in symbols && s in ranks && ranks[s] < n
    ensures Distinct(Keep(symbols, ranks, n))
  {
    if symbols != [] {
      var init, s := symbols[..|symbols| - 1], symbols[|symbols| - 1];
      assert symbols == init + [s];
      KeepMembers(init, ranks, n);
      assert s !in init;
    }
  }

  /** Of two symbols in the table the one with more volume ranks ahead, of equals the
      one that comes first in the alphabet; one that is missing ranks behind every
      positive volume, and two missing ones by name. */
  lemma RanksFollowTheTable(symbols: seq<string>, v: Volumes, a: string, b: string)
    requires Distinct(symbols) && a in symbols && b in symbols && a != b
    ensures var r := RankByVolume(symbols, v);
            && a in r && b in r
            && (a in v && b in v && v[a] > v[b] ==> r[a] < r[b])
            && (a in v && b in v && v[a] == v[b] ==> (r[a] < r[b] <==> Alphabetical(a, b)))
            && (a in v && b !in v && v[a] > 0.0 ==> r[a] < r[b])
            && (a !in v && b !in v ==> (r[a] < r[b] <==> Alphabetical(a, b)))
  {
    RanksAreABijection(symbols, v);
    NameBeforeIff(a, b);
  }

  /** The picked list is in that order of names, and no symbol left out has more
      volume than one picked. */
  lemma PickFollowsTheTable(symbols: seq<string>, v: Volumes, n: nat)
    requires Distinct(symbols)
    ensures var top := PickTopByVolume(symbols, v, n);
            && (forall i, j | 0 <= i < j < |top| :: Alphabetical(top[i], top[j]))
            && (forall a, b | a in top && b in symbols && b !in top && b in v :: (a in v && v[a] >= v[b]) || v[b] <= 0.0)
  {
    PickIsTheTop(symbols, v, n);
    var top := PickTopByVolume(symbols, v, n);
    forall i, j | 0 <= i < j < |top| ensures Alphabetical(top[i], top[j]) {
      assert ByName()(top[i], top[j]);
      NameBeforeIff(top[i], top[j]);
    }
    forall a, b | a in top && b in symbols && b !in top && b in v ensures (a in v && v[a] >= v[b]) || v[b] <= 0.0 {
      assert Beats(v, a, b);
    }
  }

  /** The picked symbols: as many as asked for and available, alphabetical, and each
      of them ahead of every symbol left out. */
  lemma PickIsTheTop(symbols: seq<string>, v: Volumes, n: nat)
    requires Distinct(symbols)
    ensures var top := PickTopByVolume(symbols, v, n);
            && |top| == (if n <= |symbols| then n else |symbols|)
            && SortedBy(ByName(), top)
            && (forall s | s in top :: s in symbols)
            && (forall a, b | a in top && b in symbols && b !in top :: Beats(v, a, b))
  {
    var ranks := RankByVolume(symbols, v);
    var kept := Keep(symbols, ranks, n);
    KeepMembers(symbols, ranks, n);
    NameOrderIsStrict();
    SortSorts(ByName(), kept);
    RanksAreABijection(symbols, v);
    KeptSize(symbols, v, n);
  }

  lemma KeptSize(symbols: seq<string>, v: Volumes, n: nat)
    requires Distinct(symbols)
    ensures |Keep(symbols, RankByVolume(symbols, v), n)| == if n <= |symbols| then n else |symbols|
  {
    var ranked, ranks := Sort(ByVolume(v), symbols), RankByVolume(symbols, v);
    var kept := Keep(symbols, ranks, n);
    KeepMembers(symbols, ranks, n);
    DistinctSize(kept);
    RankIsPosition(symbols, v);
    var best := ranked[..if n <= |symbols| then n else |symbols|];
    VolumeOrderIsStrict(v);
    SortedIsDistinct(ByVolume(v), best);
    DistinctSize(best);
    forall s ensures s in kept <==> s in best {
      assert s in ranks ==> ranked[ranks[s]] == s;
    }
    assert Members(kept) == Members(best);
  }

  /** Neither the ranks nor the pick depends on the order the symbols came in. */
  lemma OrderOfInputIsIrrelevant(a: seq<string>, b: seq<string>, v: Volumes, n: nat)
    requires Distinct(a) && Distinct(b) && forall s :: s in a <==> s in b
    ensures RankByVolume(a, v) == RankByVolume(b, v)
    ensures PickTopByVolume(a, v, n) == PickTopByVolume(b, v, n)
  {
    VolumeOrderIsStrict(v);
    SortSorts(ByVolume(v), a);
    SortSorts(ByVolume(v), b);
    SortedIsUnique(ByVolume(v), Sort(ByVolume(v), a), Sort(ByVolume(v), b));
    var ranks := RankByVolume(a, v);
    assert ranks == RankByVolume(b, v);
    KeepMembers(a, ranks, n);
    KeepMembers(b, ranks, n);
    NameOrderIsStrict();
    SortSorts(ByName(), Keep(a, ranks, n));
    SortSorts(ByName(), Keep(b, ranks, n));
    SortedIsUnique(ByName(), PickTopByVolume(a, v, n), PickTopByVolume(b, v, n));
  }
}
