/** The pieces together: what a shard publishes, under every interleaving of the
    tasks around the book, is the venue's book. */
module EndToEnd {
  import opened Levels
  import opened BookModel
  import opened Venue
  import opened TruthAgreement
  import opened Delivery
  import opened SyncTasks
  import PublishedStream

  const PUBLISHED_LEVELS: nat := 20

  /** Shard `i` is about to read and publish a book that no late sweep has taken since
      it was validated, as none can have within the stale threshold. */
  predicate AboutToPublish(w: World, moves: seq<SyncTasks.Move>, i: nat) {
    && Initial(w) && Possible(w, moves) && Enabled(Reached(w, moves), PublishBook(i))
    && !SweptLate(w, moves, i)
  }

  /** The script the interleaving has run on the book about to be published. */
  function ScriptOfPublished(w: World, moves: seq<SyncTasks.Move>, i: nat): seq<Op>
    requires AboutToPublish(w, moves, i)
  {
    ScriptOf(w, moves, Reached(w, moves).shards[i].duty.symbol)
  }

  /** For any interleaving, and genuine input for the symbol: the book the shard
      reads is live and agrees with the venue at its own last update id, unless its
      unchecked event began after its snapshot. */
  lemma PublishedBookIsTrue(T: Truth, w: World, moves: seq<SyncTasks.Move>, i: nat)
    requires AboutToPublish(w, moves, i)
    requires Sound(T) && forall op | op in ScriptOfPublished(w, moves, i) :: Genuine(T, op)
    ensures var v, seen := Reached(w, moves), Watch(ScriptOfPublished(w, moves, i));
            && v.shards[i].duty.symbol in v.books
            && v.books[v.shards[i].duty.symbol].book == seen.book && seen.book.mode == Live
            && (!seen.suspect ==> Truthful(seen.book, T, seen.covers))
  {
    var sym := Reached(w, moves).shards[i].duty.symbol;
    PublishedIsValidated(w, moves, i);
    GuardedThroughout(w, moves);
    SymbolsAreFixed(w, moves);
    BookIsARun(w, moves, sym);
    LiveBookIsTrue(T, ScriptOf(w, moves, sym));
  }

  /** The side answers for every venue level that would be in the published list. */
  ghost predicate AnswersForTop(k: Kind, side: Side, truth: Side, c: Cover) {
    forall p | p in truth && Reaches(k, Top(k, side, PUBLISHED_LEVELS), PUBLISHED_LEVELS, p) :: Answers(k, c, p)
  }

  /** The list is full and lies in the snapshot's window. */
  predicate WithinWindow(k: Kind, side: Side, c: Cover) {
    var top := Top(k, side, PUBLISHED_LEVELS);
    |top| == PUBLISHED_LEVELS && InWindow(k, c.window, top[PUBLISHED_LEVELS - 1].price)
  }

  lemma WithinWindowAnswers(k: Kind, side: Side, truth: Side, c: Cover)
    requires WithinWindow(k, side, c)
    ensures AnswersForTop(k, side, truth, c)
  {
    var top := Top(k, side, PUBLISHED_LEVELS);
    forall p | p in truth && Reaches(k, top, PUBLISHED_LEVELS, p) ensures InWindow(k, c.window, p) {
      assert !Better(k, top[PUBLISHED_LEVELS - 1].price, p);
    }
  }

  /** The list is the venue's own exactly when the side misses no venue level that
      would be in it; it misses none it answers for, in particular when the list is
      full and in the window; and a side loaded from a listing cut short by no limit
      is the venue's whole side. */
  ghost predicate ListIsTrue(k: Kind, side: Side, truth: Side, c: Cover) {
    var same := Top(k, side, PUBLISHED_LEVELS) == Top(k, truth, PUBLISHED_LEVELS);
    && (same <==> NoneMissed(k, side, truth, PUBLISHED_LEVELS))
    && (AnswersForTop(k, side, truth, c) ==> same)
    && (WithinWindow(k, side, c) ==> same)
    && (c.window.Whole? ==> side == truth)
  }

  lemma FaithfulListIsTrue(k: Kind, side: Side, truth: Side, c: Cover)
    requires Faithful(k, side, truth, c)
    ensures ListIsTrue(k, side, truth, c)
  {
    TopIsTrueIff(k, side, truth, PUBLISHED_LEVELS);
    if WithinWindow(k, side, c) {
      WithinWindowAnswers(k, side, truth, c);
    }
    if c.window.Whole? {
      WholeWindowMeansEqual(k, side, truth, c);
    }
  }

  /** Unless the book's unchecked event began after its snapshot, and whatever was
      lost, reordered or stale before: both published lists are true. */
  lemma PublishedListsAreTrue(T: Truth, w: World, moves: seq<SyncTasks.Move>, i: nat)
    requires AboutToPublish(w, moves, i)
    requires Sound(T) && forall op | op in ScriptOfPublished(w, moves, i) :: Genuine(T, op)
    requires !Watch(ScriptOfPublished(w, moves, i)).suspect
    ensures var seen := Watch(ScriptOfPublished(w, moves, i));
            && ListIsTrue(Bid, seen.book.bids, T(seen.book.lastUpdateId).bids, seen.covers.bids)
            && ListIsTrue(Ask, seen.book.asks, T(seen.book.lastUpdateId).asks, seen.covers.asks)
  {
    PublishedBookIsTrue(T, w, moves, i);
    var seen := Watch(ScriptOfPublished(w, moves, i));
    FaithfulListIsTrue(Bid, seen.book.bids, T(seen.book.lastUpdateId).bids, seen.covers.bids);
    FaithfulListIsTrue(Ask, seen.book.asks, T(seen.book.lastUpdateId).asks, seen.covers.asks);
  }

  /** With lossless delivery and timely snapshots there is no exception. */
  lemma PublishedListsAreTrueInOrder(T: Truth, w: World, moves: seq<SyncTasks.Move>, i: nat)
    requires AboutToPublish(w, moves, i)
    requires Sound(T) && forall op | op in ScriptOfPublished(w, moves, i) :: Genuine(T, op)
    requires Along(LosslessTimely, ScriptOfPublished(w, moves, i))
    ensures var seen := Watch(ScriptOfPublished(w, moves, i));
            && ListIsTrue(Bid, seen.book.bids, T(seen.book.lastUpdateId).bids, seen.covers.bids)
            && ListIsTrue(Ask, seen.book.asks, T(seen.book.lastUpdateId).asks, seen.covers.asks)
  {
    NeverSuspect(ScriptOfPublished(w, moves, i));
    PublishedListsAreTrue(T, w, moves, i);
  }

  // ---- Published ids rise ----

  /** The symbol's book has been live in every state since the first `n` moves. */
  predicate LiveSince(w: World, moves: seq<SyncTasks.Move>, n: nat, sym: string)
    requires Possible(w, moves)
  {
    && n <= |moves|
    && sym in Reached(w, moves).books && Reached(w, moves).books[sym].book.mode == Live
    && (n < |moves| ==> LiveSince(w, moves[..|moves| - 1], n, sym))
  }

  lemma {:induction false} LiveThen(w: World, moves: seq<SyncTasks.Move>, n: nat, sym: string)
    requires Possible(w, moves) && LiveSince(w, moves, n, sym)
    ensures Possible(w, moves[..n]) && LiveSince(w, moves[..n], n, sym)
  {
    if n == |moves| {
      assert moves[..n] == moves;
    } else {
      var init := moves[..|moves| - 1];
      LiveThen(w, init, n, sym);
      assert init[..n] == moves[..n];
    }
  }

  predicate PublishesNext(v: World, i: nat, sym: string) {
    i < |v.shards| && v.shards[i].duty.Publishing? && v.shards[i].duty.symbol == sym
  }

  lemma MoveRaisesId(w: World, m: SyncTasks.Move, i: nat, sym: string)
    requires Enabled(w, m) && sym in w.books && w.books[sym].book.mode == Live
    requires sym in After(w, m).books && After(w, m).books[sym].book.mode == Live
    ensures After(w, m).books[sym].book.lastUpdateId >= w.books[sym].book.lastUpdateId
    ensures PublishesNext(After(w, m), i, sym) && !PublishesNext(w, i, sym) ==>
              After(w, m).books[sym].book.lastUpdateId > w.books[sym].book.lastUpdateId
  {
    MoveIsOps(w, m, sym);
    var ops := OpsOf(w, m, sym);
    if ops != [] {
      PublishedStream.LiveIdNeverFalls(w.books[sym].book, ops[0]);
    }
  }

  /** After the shard has published, the book's id never falls while it stays live,
      and it has risen by the time the shard is about to publish it again. */
  lemma {:induction false} IdRisesAfter(w: World, moves: seq<SyncTasks.Move>, n: nat, i: nat, sym: string)
    requires Possible(w, moves) && n < |moves| && moves[n] == PublishBook(i) && LiveSince(w, moves, n, sym)
    ensures Possible(w, moves[..n]) && LiveSince(w, moves[..n], n, sym)
    ensures var was, now := Reached(w, moves[..n]).books[sym].book, Reached(w, moves);
            now.books[sym].book.lastUpdateId >= was.lastUpdateId &&
            (PublishesNext(now, i, sym) ==> now.books[sym].book.lastUpdateId > was.lastUpdateId)
  {
    var init, m := moves[..|moves| - 1], moves[|moves| - 1];
    LiveThen(w, moves, n, sym);
    MoveRaisesId(Reached(w, init), m, i, sym);
    if n == |init| {
      assert init == moves[..n];
    } else {
      assert init[..n] == moves[..n];
      IdRisesAfter(w, init, n, i, sym);
    }
  }

  /** A symbol is published by its one shard only. */
  lemma OneShardPublishes(w: World, earlier: seq<SyncTasks.Move>, later: seq<SyncTasks.Move>, i: nat, j: nat)
    requires Initial(w) && Possible(w, earlier) && Possible(w, later)
    requires Enabled(Reached(w, earlier), PublishBook(i)) && Enabled(Reached(w, later), PublishBook(j))
    requires Reached(w, earlier).shards[i].duty.symbol == Reached(w, later).shards[j].duty.symbol
    ensures i == j
  {
    NoBookIsStranded(w, earlier);
    NoBookIsStranded(w, later);
    ShardsAreFixed(w, earlier);
    ShardsAreFixed(w, later);
    var u, v := Reached(w, earlier), Reached(w, later);
    assert ShardOk(u, u.shards[i]) && ShardOk(v, v.shards[j]);
    var sym := v.shards[j].duty.symbol;
    assert sym in w.shards[i].symbols && sym in w.shards[j].symbols;
  }

  /** Under every interleaving: of two ids published for a symbol, by whichever
      shards, the later is greater unless its book has ceased to be live between. */
  lemma PublishedIdsRise(w: World, moves: seq<SyncTasks.Move>, n: nat, i: nat, j: nat)
    requires Initial(w) && Possible(w, moves) && n < |moves| && moves[n] == PublishBook(i)
    requires Possible(w, moves[..n]) && Enabled(Reached(w, moves[..n]), PublishBook(i))
    requires Enabled(Reached(w, moves), PublishBook(j))
    requires var sym := Reached(w, moves).shards[j].duty.symbol;
             Reached(w, moves[..n]).shards[i].duty.symbol == sym && LiveSince(w, moves, n, sym)
    ensures i == j
    ensures var sym := Reached(w, moves).shards[j].duty.symbol;
            && sym in Reached(w, moves[..n]).books && sym in Reached(w, moves).books
            && Reached(w, moves[..n]).books[sym].book.lastUpdateId < Reached(w, moves).books[sym].book.lastUpdateId
  {
    var sym := Reached(w, moves).shards[j].duty.symbol;
    OneShardPublishes(w, moves[..n], moves, i, j);
    IdRisesAfter(w, moves, n, i, sym);
  }
}
