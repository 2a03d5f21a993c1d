/** When the sweeper takes a symbol: exactly when its book is live and nothing has
    touched it for longer than the threshold, as told by the moves alone. */
module Sweeping {
  import opened Levels
  import opened BookModel
  import opened StaleSweep
  import opened SyncTasks

  /** The clock at the symbol's last depth event, whatever the book made of it, or at
      its last sweep if that was later; zero before either. */
  function LastTouched(w: World, moves: seq<Move>, sym: string): real
    requires Possible(w, moves)
    decreases |moves|, 0
  {
    if moves == [] then 0.0
    else
      var init, m := moves[..|moves| - 1], moves[|moves| - 1];
      if (m.DepthArrives? && m.symbol == sym) || (m.Sweep? && Overdue(w, init, sym)) then Reached(w, init).clock
      else LastTouched(w, init, sym)
  }

  predicate Overdue(w: World, moves: seq<Move>, sym: string)
    requires Possible(w, moves)
    decreases |moves|, 1
  {
    && sym in Reached(w, moves).books && Reached(w, moves).books[sym].book.mode == Live
    && Reached(w, moves).clock - LastTouched(w, moves, sym) > 30.0
  }

  lemma MoveTouches(w: World, m: Move, sym: string)
    requires Enabled(w, m) && sym in w.books
    ensures sym in After(w, m).books
    ensures var s := w.books[sym];
            After(w, m).books[sym].touched ==
              if (m.DepthArrives? && m.symbol == sym) || (m.Sweep? && s.book.mode == Live && w.clock - s.touched > 30.0)
              then w.clock else s.touched
  {
  }

  /** Over every interleaving the stamp on a book is that moment. */
  lemma {:induction false} StampIsLastTouched(w: World, moves: seq<Move>, sym: string)
    requires Initial(w) && Possible(w, moves) && sym in w.books
    ensures sym in Reached(w, moves).books && Reached(w, moves).books[sym].touched == LastTouched(w, moves, sym)
  {
    if moves != [] {
      var init := moves[..|moves| - 1];
      StampIsLastTouched(w, init, sym);
      MoveTouches(Reached(w, init), moves[|moves| - 1], sym);
    }
  }

  lemma SweepTakes(w: World, sym: string)
    requires Enabled(w, Sweep) && sym in w.books
    ensures var s, v := w.books[sym], After(w, Sweep);
            var taken := s.book.mode == Live && w.clock - s.touched > 30.0;
            && sym in v.books && (sym in v.toSpawn <==> taken)
            && v.books[sym].book == if taken then MarkForResync(s.book) else s.book
  {
  }

  /** In every reachable state a sweep takes a symbol, to fetch its snapshot afresh, if
      and only if its book is live and was last touched more than thirty seconds ago,
      and it leaves every other book as it is. */
  lemma SweepTakesTheOverdue(w: World, moves: seq<Move>, sym: string)
    requires Initial(w) && Possible(w, moves) && Enabled(Reached(w, moves), Sweep) && sym in w.books
    ensures var v, after := Reached(w, moves), After(Reached(w, moves), Sweep);
            && sym in v.books && sym in after.books
            && (sym in after.toSpawn <==> Overdue(w, moves, sym))
            && after.books[sym].book == if Overdue(w, moves, sym) then MarkForResync(v.books[sym].book) else v.books[sym].book
  {
    StampIsLastTouched(w, moves, sym);
    SweepTakes(Reached(w, moves), sym);
  }

  /** The clock at the symbol's last depth event. */
  function LastDepth(w: World, moves: seq<Move>, sym: string): real
    requires Possible(w, moves)
  {
    if moves == [] then 0.0
    else
      var init, m := moves[..|moves| - 1], moves[|moves| - 1];
      if m.DepthArrives? && m.symbol == sym then Reached(w, init).clock else LastDepth(w, init, sym)
  }

  lemma {:induction false} DepthTouches(w: World, moves: seq<Move>, sym: string)
    requires Initial(w) && Possible(w, moves)
    ensures LastDepth(w, moves, sym) <= LastTouched(w, moves, sym) <= Reached(w, moves).clock
  {
    if moves != [] {
      DepthTouches(w, moves[..|moves| - 1], sym);
    }
  }

  /** So a symbol taken has had no depth event of any kind for longer than that. */
  lemma TakenHasBeenSilent(w: World, moves: seq<Move>, sym: string)
    requires Initial(w) && Possible(w, moves) && Enabled(Reached(w, moves), Sweep)
    requires sym in After(Reached(w, moves), Sweep).toSpawn
    ensures Reached(w, moves).clock - LastDepth(w, moves, sym) > 30.0
  {
    SymbolsAreFixed(w, moves);
    SweepTakesTheOverdue(w, moves, sym);
    DepthTouches(w, moves, sym);
  }
}
