/** The snapshot tasks: what ends one, what makes one fetch, and that a shard never has
    two of them after the same symbol. */
module Fetching {
  import opened Levels
  import opened BookModel
  import opened SyncTasks
  import opened Reactions

  // ---- The life of one task ----

  /** A task nobody has aborted stops exactly when it finds, by its check or by the
      answer to its snapshot, that its book does not wait for a snapshot any more. */
  lemma TaskStopsIff(w: World, m: Move, t: nat)
    requires Consistent(w) && Enabled(w, m) && t in w.tasks && !w.tasks[t].aborted
    ensures t !in After(w, m).tasks <==>
              && (m == TaskChecks(t) || (m.TaskGetsSnapshot? && m.task == t))
              && w.tasks[t].symbol in After(w, m).books
              && After(w, m).books[w.tasks[t].symbol].book.mode != Buffering
  {
    assert w.tasks[t].symbol in w.books;
    if m.TaskGetsSnapshot? {
      AnswerTellsWaiting(w.books[w.tasks[m.task].symbol].book, m.snapshot);
    }
  }

  /** A task starts to fetch only on having found its book waiting, and after a fetch
      that came to nothing it sleeps before it looks again. */
  lemma TaskFetchesIff(w: World, m: Move, t: nat)
    requires Consistent(w) && Enabled(w, m) && t in w.tasks && t in After(w, m).tasks
    ensures var was, now := w.tasks[t].phase, After(w, m).tasks[t].phase;
            && (was != Fetching && now == Fetching <==>
                  m == TaskChecks(t) && w.tasks[t].symbol in w.books && w.books[w.tasks[t].symbol].book.mode == Buffering)
            && (was != Sleeping && now == Sleeping <==> m == TaskFails(t) || (m.TaskGetsSnapshot? && m.task == t))
            && (was != Checking && now == Checking <==> m == TaskWakes(t))
  {
    if !IsTaskMove(m) {
      OthersLeavePhases(w, m, t);
    }
  }

  predicate IsTaskMove(m: Move) {
    m.TaskChecks? || m.TaskGetsSnapshot? || m.TaskFails? || m.TaskWakes?
  }

  lemma OthersLeavePhases(w: World, m: Move, t: nat)
    requires Consistent(w) && Enabled(w, m) && t in w.tasks && t in After(w, m).tasks && !IsTaskMove(m)
    ensures After(w, m).tasks[t].phase == w.tasks[t].phase
  {
  }

  /** A new task begins with the check, and is for the symbol a shard was asked a
      snapshot of or the sweeper has taken. */
  lemma NewTaskChecksFirst(w: World, m: Move, t: nat)
    requires Consistent(w) && Enabled(w, m) && t !in w.tasks && t in After(w, m).tasks
    ensures After(w, m).tasks[t].phase == Checking && !After(w, m).tasks[t].aborted
    ensures (m.RequestSync? && After(w, m).tasks[t].symbol == w.shards[m.shard].duty.symbol)
         || (m.SpawnSwept? && After(w, m).tasks[t].symbol == m.symbol)
  {
  }

  /** What a depth event is answered is what its shard does next: it asks for the
      snapshot, or publishes, or goes on receiving, and until then receives nothing. */
  lemma AnswerIsActedOn(w: World, i: nat, sym: string, e: Event)
    requires Enabled(w, DepthArrives(i, sym, e))
    ensures var v, action := After(w, DepthArrives(i, sym, e)), OnDepth(w.books[sym].book, e).action;
            && (Enabled(v, RequestSync(i)) <==> action == NeedSnapshot)
            && (Enabled(v, PublishBook(i)) <==> action == Publish)
            && (Enabled(v, LoseConnection(i)) <==> action == NoAction)
            && (action != NoAction ==> i < |v.shards| && v.shards[i].duty.symbol == sym)
            && (forall s, f | action != NoAction :: !Enabled(v, DepthArrives(i, s, f)))
  {
  }

  /** Having done it the shard receives again; and nobody else changes what a shard is
      about to do, but for the sweeper's mark on a book it is about to publish. */
  lemma ThenReceivesAgain(w: World, m: Move, i: nat)
    requires Enabled(w, m) && i < |w.shards|
    ensures |After(w, m).shards| == |w.shards|
    ensures m == RequestSync(i) || m == PublishBook(i) || m == DropHandles(i) ==> After(w, m).shards[i].duty == Receiving
    ensures !((m.DepthArrives? && m.shard == i) || m == LoseConnection(i) || m == RequestSync(i)
              || m == PublishBook(i) || m == DropHandles(i)) ==>
              var was, now := w.shards[i].duty, After(w, m).shards[i].duty;
              now == was || (m.Sweep? && was.Publishing? && now == was.(swept := true))
  {
  }

  // ---- One task a symbol ----

  /** The tasks a shard has started, as opposed to the sweeper. */
  function StartedByShards(w: World, moves: seq<Move>): set<nat>
    requires Possible(w, moves)
  {
    if moves == [] then {}
    else
      var init := moves[..|moves| - 1];
      StartedByShards(w, init) + if moves[|moves| - 1].RequestSync? then {Reached(w, init).nextTask} else {}
  }

  predicate Runs(w: World, t: nat) {
    t in w.tasks && !w.tasks[t].aborted
  }

  predicate HeldBy(w: World, i: nat, t: nat) {
    && i < |w.shards| && t in w.tasks
    && w.tasks[t].symbol in w.shards[i].handles && w.shards[i].handles[w.tasks[t].symbol] == t
  }

  /** Every running task that a shard has started is the one it holds for its symbol. */
  ghost predicate AllHeld(w: World, requested: set<nat>) {
    forall t | t in requested :: t < w.nextTask && (Runs(w, t) ==> exists i: nat :: HeldBy(w, i, t))
  }

  lemma RequestKeepsHeld(w: World, m: Move, requested: set<nat>)
    requires Consistent(w) && Enabled(w, m) && m.RequestSync? && AllHeld(w, requested)
    ensures AllHeld(After(w, m), requested + {w.nextTask})
  {
    var v := After(w, m);
    assert HeldBy(v, m.shard, w.nextTask);
    forall t | t in requested ensures t < v.nextTask && (Runs(v, t) ==> exists i: nat :: HeldBy(v, i, t)) {
      if Runs(v, t) {
        assert Runs(w, t);
        var i: nat :| HeldBy(w, i, t);
        assert HeldBy(v, i, t);
      }
    }
  }

  lemma HeldIsDropped(w: World, i: nat, t: nat)
    requires Enabled(w, DropHandles(i)) && HeldBy(w, i, t)
    ensures !Runs(After(w, DropHandles(i)), t)
  {
    assert t in w.shards[i].handles.Values;
  }

  lemma DropKeepsHeld(w: World, m: Move, requested: set<nat>)
    requires Consistent(w) && Enabled(w, m) && m.DropHandles? && AllHeld(w, requested)
    ensures AllHeld(After(w, m), requested)
  {
    var v := After(w, m);
    forall t | t in requested ensures t < v.nextTask && (Runs(v, t) ==> exists i: nat :: HeldBy(v, i, t)) {
      if Runs(v, t) {
        assert Runs(w, t);
        var i: nat :| HeldBy(w, i, t);
        if i == m.shard {
          HeldIsDropped(w, i, t);
        }
        assert HeldBy(v, i, t);
      }
    }
  }

  /** Handles as they were, and no task but new ones that was not there before. */
  predicate SameHandles(w: World, v: World) {
    && |v.shards| == |w.shards| && w.nextTask <= v.nextTask
    && (forall i | 0 <= i < |w.shards| :: v.shards[i].handles == w.shards[i].handles)
    && (forall t | t in v.tasks && t < w.nextTask ::
          t in w.tasks && v.tasks[t].symbol == w.tasks[t].symbol && (w.tasks[t].aborted ==> v.tasks[t].aborted))
  }

  lemma OtherMoveKeepsHandles(w: World, m: Move)
    requires Enabled(w, m) && !m.RequestSync? && !m.DropHandles?
    ensures SameHandles(w, After(w, m))
  {
  }

  lemma SameHandlesKeepHeld(w: World, v: World, requested: set<nat>)
    requires AllHeld(w, requested) && SameHandles(w, v)
    ensures AllHeld(v, requested)
  {
    forall t | t in requested ensures t < v.nextTask && (Runs(v, t) ==> exists i: nat :: HeldBy(v, i, t)) {
      if Runs(v, t) {
        assert Runs(w, t);
        var i: nat :| HeldBy(w, i, t);
        assert HeldBy(v, i, t);
      }
    }
  }

  lemma {:induction false} RequestedAreHeld(w: World, moves: seq<Move>)
    requires Initial(w) && Possible(w, moves)
    ensures AllHeld(Reached(w, moves), StartedByShards(w, moves))
  {
    if moves != [] {
      var init, m := moves[..|moves| - 1], moves[|moves| - 1];
      RequestedAreHeld(w, init);
      NoBookIsStranded(w, init);
      if m.RequestSync? {
        RequestKeepsHeld(Reached(w, init), m, StartedByShards(w, init));
      } else if m.DropHandles? {
        DropKeepsHeld(Reached(w, init), m, StartedByShards(w, init));
      } else {
        OtherMoveKeepsHandles(Reached(w, init), m);
        SameHandlesKeepHeld(Reached(w, init), Reached(w, moves), StartedByShards(w, init));
      }
    }
  }

  lemma HolderOwns(w: World, i: nat, t: nat)
    requires Consistent(w) && HeldBy(w, i, t)
    ensures w.tasks[t].symbol in w.shards[i].symbols
  {
    assert ShardOk(w, w.shards[i]);
  }

  lemma OneHolder(w: World, i: nat, j: nat, t: nat, u: nat)
    requires Consistent(w) && HeldBy(w, i, t) && HeldBy(w, j, u) && w.tasks[t].symbol == w.tasks[u].symbol
    ensures i == j && t == u
  {
    HolderOwns(w, i, t);
    HolderOwns(w, j, u);
  }

  /** In every reachable state at most one running task that a shard has started is
      after a symbol: a new request takes the place of the one before it. */
  lemma OneRequestASymbol(w: World, moves: seq<Move>, t: nat, u: nat)
    requires Initial(w) && Possible(w, moves)
    requires t in StartedByShards(w, moves) && u in StartedByShards(w, moves)
    requires Runs(Reached(w, moves), t) && Runs(Reached(w, moves), u)
    requires Reached(w, moves).tasks[t].symbol == Reached(w, moves).tasks[u].symbol
    ensures t == u
  {
    var v := Reached(w, moves);
    RequestedAreHeld(w, moves);
    NoBookIsStranded(w, moves);
    var i: nat :| HeldBy(v, i, t);
    var j: nat :| HeldBy(v, j, u);
    OneHolder(v, i, j, t, u);
  }

  lemma DropLeavesNone(w: World, i: nat, t: nat, requested: set<nat>)
    requires Consistent(w) && Enabled(w, DropHandles(i)) && AllHeld(w, requested)
    requires t in requested && Runs(After(w, DropHandles(i)), t)
    ensures Consistent(After(w, DropHandles(i)))
    ensures After(w, DropHandles(i)).tasks[t].symbol !in w.shards[i].symbols
  {
    var after := After(w, DropHandles(i));
    DropKeepsHeld(w, DropHandles(i), requested);
    KeepsConsistent(w, DropHandles(i));
    var j: nat :| HeldBy(after, j, t);
    HolderOwns(after, j, t);
    OthersOwnOthers(after, i, j, after.tasks[t].symbol);
  }

  lemma OthersOwnOthers(w: World, i: nat, j: nat, sym: string)
    requires Consistent(w) && i < |w.shards| && j < |w.shards| && i != j && sym in w.shards[j].symbols
    ensures sym !in w.shards[i].symbols
  {
  }

  /** And once a shard has dropped its connection none is after any of its symbols. */
  lemma DropStopsRequests(w: World, moves: seq<Move>, i: nat, t: nat)
    requires Initial(w) && Possible(w, moves) && Enabled(Reached(w, moves), DropHandles(i))
    requires t in StartedByShards(w, moves) && Runs(After(Reached(w, moves), DropHandles(i)), t)
    ensures After(Reached(w, moves), DropHandles(i)).tasks[t].symbol !in Reached(w, moves).shards[i].symbols
  {
    RequestedAreHeld(w, moves);
    NoBookIsStranded(w, moves);
    DropLeavesNone(Reached(w, moves), i, t, StartedByShards(w, moves));
  }

  /** The symbols a shard has asked snapshots of since it last dropped its tasks. */
  function AskedSince(w: World, moves: seq<Move>, i: nat): set<string>
    requires Possible(w, moves)
  {
    if moves == [] then {}
    else
      var init, m := moves[..|moves| - 1], moves[|moves| - 1];
      if m == DropHandles(i) then {}
      else if m == RequestSync(i) then AskedSince(w, init, i) + {Reached(w, init).shards[i].duty.symbol}
      else AskedSince(w, init, i)
  }

  /** In every reachable state a shard holds tasks for exactly those. */
  lemma {:induction false} HoldsWhatItAsked(w: World, moves: seq<Move>, i: nat)
    requires Initial(w) && Possible(w, moves) && i < |w.shards|
    ensures |Reached(w, moves).shards| == |w.shards|
    ensures Reached(w, moves).shards[i].handles.Keys == AskedSince(w, moves, i)
  {
    if moves != [] {
      var init := moves[..|moves| - 1];
      HoldsWhatItAsked(w, init, i);
      MoveChangesHandles(Reached(w, init), moves[|moves| - 1], i);
    }
  }

  lemma MoveChangesHandles(w: World, m: Move, i: nat)
    requires Enabled(w, m) && i < |w.shards|
    ensures |After(w, m).shards| == |w.shards|
    ensures After(w, m).shards[i].handles.Keys ==
              if m == DropHandles(i) then {}
              else if m == RequestSync(i) then w.shards[i].handles.Keys + {w.shards[i].duty.symbol}
              else w.shards[i].handles.Keys
  {
  }
}
