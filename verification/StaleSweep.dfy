/** The staleness sweep over the book table. */
module StaleSweep {
  import opened Levels
  import opened BookModel

  /** A book and the time its last depth event arrived. */
  datatype Slot = Slot(book: BookValue, touched: real)

  type Books = map<string, Slot>

  predicate Stale(s: Slot, now: real, threshold: real) {
    s.book.mode == Live && now - s.touched > threshold
  }

  function StaleSet(books: Books, now: real, threshold: real): set<string> {
    set sym | sym in books && Stale(books[sym], now, threshold)
  }

  /** Every stale book re-enters buffering with its clock pushed forward; no other
      book changes. */
  function Swept(books: Books, now: real, threshold: real): Books {
    map sym | sym in books ::
      if Stale(books[sym], now, threshold) then Slot(MarkForResync(books[sym].book), now) else books[sym]
  }

  /** After a sweep nothing is stale and every swept book is ready for a snapshot. */
  lemma SweepIsComplete(books: Books, now: real, threshold: real)
    requires threshold >= 0.0
    ensures StaleSet(Swept(books, now, threshold), now, threshold) == {}
    ensures forall sym | sym in StaleSet(books, now, threshold) ::
              Swept(books, now, threshold)[sym].book.mode == Buffering
  {
    var after := Swept(books, now, threshold);
    forall sym | sym in after ensures !Stale(after[sym], now, threshold) {
      assert sym in books;
    }
  }

  class BookTable {
    var books: Books

    constructor (books: Books)
      ensures this.books == books
    {
      this.books := books;
    }

    /** Sweeps in whatever order the table yields its books. */
    method TakeStale(now: real, threshold: real) returns (stale: seq<string>)
      modifies this
      ensures books == Swept(old(books), now, threshold)
      ensures forall sym :: sym in stale <==> sym in StaleSet(old(books), now, threshold)
      ensures forall i, j | 0 <= i < j < |stale| :: stale[i] != stale[j]
    {
      stale := [];
      var todo := books.Keys;
      ghost var done: set<string> := {};
      while todo != {}
        invariant todo + done == old(books).Keys && todo !! done
        invariant books.Keys == old(books).Keys
        invariant forall sym | sym in todo :: books[sym] == old(books)[sym]
        invariant forall sym | sym in done :: books[sym] == Swept(old(books), now, threshold)[sym]
        invariant forall sym :: sym in stale <==> sym in done && Stale(old(books)[sym], now, threshold)
        invariant forall i, j | 0 <= i < j < |stale| :: stale[i] != stale[j]
        decreases todo
      {
        var sym :| sym in todo;
        var slot := books[sym];
        if slot.book.mode == Live && now - slot.touched > threshold {
          books := books[sym := Slot(MarkForResync(slot.book), now)];
          stale := stale + [sym];
        }
        todo, done := todo - {sym}, done + {sym};
      }
    }
  }
}
