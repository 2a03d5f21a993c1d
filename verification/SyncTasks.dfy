/** The tasks that share the book table, one move per section run under its lock:
    shards reading their connections, snapshot tasks, and the staleness sweeper. */
module SyncTasks {
  import opened Levels
  import opened BookModel
  import opened StaleSweep

  const STALE_THRESHOLD: real := 30.0

  /** Where a snapshot task is in its loop. */
  datatype Phase = Checking | Fetching | Sleeping

  /** An aborted task may still finish what it is doing before it vanishes. */
  datatype Task = Task(symbol: string, phase: Phase, aborted: bool)

  /** What a shard is about to do with the lock it has just released. A shard about
      to publish remembers the book it validated, when, and whether the sweeper has
      taken that book since. */
  datatype Duty =
    | Receiving
    | Requesting(symbol: string)
    | Publishing(symbol: string, validated: BookValue, since: real, swept: bool)
    | Dropping

  datatype Shard = Shard(symbols: set<string>, duty: Duty, handles: map<string, nat>)

  datatype World = World(
    books: Books,
    tasks: map<nat, Task>,
    nextTask: nat,
    shards: seq<Shard>,
    toSpawn: set<string>,
    clock: real)

  datatype Move =
    | Elapse(seconds: real)
    | DepthArrives(shard: nat, symbol: string, event: Event)
    | TickerArrives(shard: nat, symbol: string, bid: Price, ask: Price)
    | RequestSync(shard: nat)
    | PublishBook(shard: nat)
    | LoseConnection(shard: nat)
    | DropHandles(shard: nat)
    | TaskChecks(task: nat)
    | TaskGetsSnapshot(task: nat, snapshot: Snapshot)
    | TaskFails(task: nat)
    | TaskWakes(task: nat)
    | TaskVanishes(task: nat)
    | Sweep
    | SpawnSwept(symbol: string)

  // ---- Moves ----

  function Spawn(w: World, sym: string): World {
    w.(tasks := w.tasks[w.nextTask := Task(sym, Checking, false)], nextTask := w.nextTask + 1)
  }

  function Abort(tasks: map<nat, Task>, ids: set<nat>): map<nat, Task> {
    map t | t in tasks :: if t in ids then tasks[t].(aborted := true) else tasks[t]
  }

  function WithDuty(w: World, i: nat, d: Duty): World
    requires i < |w.shards|
  {
    w.(shards := w.shards[i := w.shards[i].(duty := d)])
  }

  function WithBook(w: World, sym: string, s: Slot): World {
    w.(books := w.books[sym := s])
  }

  function DutyAfter(sym: string, r: Reacted, now: real): Duty {
    match r.action
    case NeedSnapshot => Requesting(sym)
    case Publish => Publishing(sym, r.book, now, false)
    case NoAction => Receiving
  }

  predicate ShardIs(w: World, i: nat, receiving: bool) {
    i < |w.shards| && (w.shards[i].duty == Receiving) == receiving
  }

  predicate TaskIs(w: World, t: nat, p: Phase) {
    t in w.tasks && w.tasks[t].phase == p && w.tasks[t].symbol in w.books
  }

  predicate Enabled(w: World, m: Move) {
    match m
    case Elapse(dt) => dt >= 0.0
    case DepthArrives(i, sym, _) => ShardIs(w, i, true) && sym in w.shards[i].symbols && sym in w.books
    case TickerArrives(i, sym, _, _) => ShardIs(w, i, true) && sym in w.shards[i].symbols && sym in w.books
    case RequestSync(i) => ShardIs(w, i, false) && w.shards[i].duty.Requesting?
    case PublishBook(i) => ShardIs(w, i, false) && w.shards[i].duty.Publishing?
    case LoseConnection(i) => ShardIs(w, i, true)
    case DropHandles(i) => ShardIs(w, i, false) && w.shards[i].duty.Dropping?
    case TaskChecks(t) => TaskIs(w, t, Checking)
    case TaskGetsSnapshot(t, _) => TaskIs(w, t, Fetching)
    case TaskFails(t) => TaskIs(w, t, Fetching)
    case TaskWakes(t) => TaskIs(w, t, Sleeping)
    case TaskVanishes(t) => t in w.tasks && w.tasks[t].aborted
    case Sweep => w.toSpawn == {}
    case SpawnSwept(sym) => sym in w.toSpawn
  }

  function WithPhase(w: World, t: nat, p: Phase): World
    requires t in w.tasks
  {
    w.(tasks := w.tasks[t := w.tasks[t].(phase := p)])
  }

  function WithoutTask(w: World, t: nat): World {
    w.(tasks := map x | x in w.tasks && x != t :: w.tasks[x])
  }

  function MarkSwept(s: Shard, swept: set<string>): Shard {
    if s.duty.Publishing? && s.duty.symbol in swept then s.(duty := s.duty.(swept := true)) else s
  }

  /** Abort the symbol's previous task, if any, and start another. */
  function Requested(w: World, i: nat, sym: string): World
    requires i < |w.shards|
  {
    var s := w.shards[i];
    var tasks := if sym in s.handles then Abort(w.tasks, {s.handles[sym]}) else w.tasks;
    Spawn(w.(tasks := tasks, shards := w.shards[i := Shard(s.symbols, Receiving, s.handles[sym := w.nextTask])]), sym)
  }

  function After(w: World, m: Move): World
    requires Enabled(w, m)
  {
    match m
    case Elapse(dt) => w.(clock := w.clock + dt)
    case DepthArrives(i, sym, e) =>
      var r := OnDepth(w.books[sym].book, e);
      WithDuty(WithBook(w, sym, Slot(r.book, w.clock)), i, DutyAfter(sym, r, w.clock))
    case TickerArrives(_, sym, bid, ask) =>
      WithBook(w, sym, w.books[sym].(book := SetTicker(w.books[sym].book, bid, ask)))
    case RequestSync(i) => Requested(w, i, w.shards[i].duty.symbol)
    case PublishBook(i) => WithDuty(w, i, Receiving)
    case LoseConnection(i) =>
      var lost := w.shards[i].symbols;
      WithDuty(w, i, Dropping).(books := map sym | sym in w.books ::
        if sym in lost then w.books[sym].(book := Reset(w.books[sym].book)) else w.books[sym])
    case DropHandles(i) =>
      var s := w.shards[i];
      w.(tasks := Abort(w.tasks, s.handles.Values), shards := w.shards[i := Shard(s.symbols, Receiving, map[])])
    case TaskChecks(t) =>
      if w.books[w.tasks[t].symbol].book.mode == Buffering then WithPhase(w, t, Fetching) else WithoutTask(w, t)
    case TaskGetsSnapshot(t, s) =>
      var sym := w.tasks[t].symbol;
      var r := OnSnapshot(w.books[sym].book, s);
      var loaded := WithBook(w, sym, w.books[sym].(book := r.book));
      if r.live then WithoutTask(loaded, t) else WithPhase(loaded, t, Sleeping)
    case TaskFails(t) => WithPhase(w, t, Sleeping)
    case TaskWakes(t) => WithPhase(w, t, Checking)
    case TaskVanishes(t) => WithoutTask(w, t)
    case Sweep =>
      var stale := StaleSet(w.books, w.clock, STALE_THRESHOLD);
      w.(books := Swept(w.books, w.clock, STALE_THRESHOLD), toSpawn := stale,
         shards := seq(|w.shards|, i requires 0 <= i < |w.shards| => MarkSwept(w.shards[i], stale)))
    case SpawnSwept(sym) => Spawn(w.(toSpawn := w.toSpawn - {sym}), sym)
  }

  // ---- Runs ----

  /** At the start every book is new, no task runs, and the shards divide the
      symbols among themselves. */
  predicate Initial(w: World) {
    && (forall sym | sym in w.books :: w.books[sym] == Slot(FRESH, 0.0))
    && w.tasks == map[] && w.nextTask == 0 && w.toSpawn == {} && w.clock >= 0.0
    && (forall i | 0 <= i < |w.shards| ::
          w.shards[i].symbols <= w.books.Keys && w.shards[i].duty == Receiving && w.shards[i].handles == map[])
    && (forall i, j | 0 <= i < j < |w.shards| :: w.shards[i].symbols !! w.shards[j].symbols)
  }

  predicate Possible(w: World, moves: seq<Move>)
    decreases |moves|, 0
  {
    moves == [] || (Possible(w, moves[..|moves| - 1]) &&
                    Enabled(Reached(w, moves[..|moves| - 1]), moves[|moves| - 1]))
  }

  function Reached(w: World, moves: seq<Move>): World
    requires Possible(w, moves)
    decreases |moves|, 1
  {
    if moves == [] then w else After(Reached(w, moves[..|moves| - 1]), moves[|moves| - 1])
  }

  lemma ReachedAppend(w: World, moves: seq<Move>, m: Move)
    requires Possible(w, moves) && Enabled(Reached(w, moves), m)
    ensures Possible(w, moves + [m]) && Reached(w, moves + [m]) == After(Reached(w, moves), m)
  {
    assert (moves + [m])[..|moves|] == moves;
  }

  // ---- What every move keeps ----

  predicate HandlesOwn(w: World, s: Shard) {
    forall sym | sym in s.handles ::
      && sym in s.symbols && s.handles[sym] < w.nextTask
      && (s.handles[sym] in w.tasks ==> w.tasks[s.handles[sym]].symbol == sym)
  }

  predicate ShardOk(w: World, s: Shard) {
    && s.symbols <= w.books.Keys
    && (s.duty.Requesting? || s.duty.Publishing? ==> s.duty.symbol in s.symbols)
    && (s.duty.Dropping? ==> forall sym | sym in s.symbols :: w.books[sym].book.mode == Uninitialized)
    && HandlesOwn(w, s)
  }

  predicate Consistent(w: World) {
    && (forall t | t in w.tasks :: t < w.nextTask && w.tasks[t].symbol in w.books)
    && (forall i | 0 <= i < |w.shards| :: ShardOk(w, w.shards[i]))
    && (forall i, j | 0 <= i < j < |w.shards| :: w.shards[i].symbols !! w.shards[j].symbols)
    && w.toSpawn <= w.books.Keys
    && (forall sym | sym in w.books :: w.books[sym].touched <= w.clock)
  }

  /** Tasks and books of the later world that a shard's record depends on. */
  predicate Extends(w: World, v: World) {
    && v.books.Keys == w.books.Keys && w.nextTask <= v.nextTask
    && (forall t | t in v.tasks :: t >= w.nextTask || (t in w.tasks && v.tasks[t].symbol == w.tasks[t].symbol))
  }

  lemma ShardStaysOk(w: World, v: World, s: Shard)
    requires ShardOk(w, s) && Extends(w, v)
    requires s.duty.Dropping? ==> forall sym | sym in s.symbols ::
               v.books[sym] == w.books[sym] || v.books[sym].book.mode == Uninitialized
    ensures ShardOk(v, s)
  {
  }

  lemma TaskMoveKeepsConsistent(w: World, m: Move)
    requires Consistent(w) && Enabled(w, m)
    requires m.TaskChecks? || m.TaskFails? || m.TaskWakes? || m.TaskVanishes? || m.SpawnSwept? || m.Elapse?
    ensures Consistent(After(w, m))
  {
    var v := After(w, m);
    assert Extends(w, v) && v.shards == w.shards;
    forall i | 0 <= i < |v.shards| ensures ShardOk(v, v.shards[i]) {
      ShardStaysOk(w, v, w.shards[i]);
    }
  }

  /** A new book in the same slot, with tasks moved on or finished. */
  lemma RebookKeepsConsistent(w: World, v: World, sym: string, b: BookValue)
    requires Consistent(w) && sym in w.books
    requires w.books[sym].book.mode == Uninitialized ==> b == w.books[sym].book
    requires v == w.(books := w.books[sym := w.books[sym].(book := b)], tasks := v.tasks)
    requires forall t | t in v.tasks :: t in w.tasks && v.tasks[t].symbol == w.tasks[t].symbol
    ensures Consistent(v)
  {
    assert Extends(w, v);
    forall i | 0 <= i < |v.shards| ensures ShardOk(v, v.shards[i]) {
      ShardStaysOk(w, v, w.shards[i]);
    }
  }

  lemma SnapshotMoveKeepsConsistent(w: World, m: Move)
    requires Consistent(w) && Enabled(w, m) && m.TaskGetsSnapshot?
    ensures Consistent(After(w, m))
  {
    var sym := w.tasks[m.task].symbol;
    RebookKeepsConsistent(w, After(w, m), sym, OnSnapshot(w.books[sym].book, m.snapshot).book);
  }

  lemma MessageKeepsConsistent(w: World, m: Move)
    requires Consistent(w) && Enabled(w, m) && (m.DepthArrives? || m.TickerArrives?)
    ensures Consistent(After(w, m))
  {
    var v := After(w, m);
    assert Extends(w, v);
    forall j | 0 <= j < |v.shards| ensures ShardOk(v, v.shards[j]) {
      assert j != m.shard ==> w.shards[j].symbols !! w.shards[m.shard].symbols;
      ShardStaysOk(w, v, w.shards[j]);
    }
  }

  lemma RequestKeepsConsistent(w: World, m: Move)
    requires Consistent(w) && Enabled(w, m) && m.RequestSync?
    ensures Consistent(After(w, m))
  {
    var v := After(w, m);
    assert Extends(w, v);
    forall j | 0 <= j < |v.shards| ensures ShardOk(v, v.shards[j]) {
      ShardStaysOk(w, v, if j == m.shard then w.shards[j].(duty := Receiving) else w.shards[j]);
    }
  }

  lemma ShardMoveKeepsConsistent(w: World, m: Move)
    requires Consistent(w) && Enabled(w, m) && (m.PublishBook? || m.LoseConnection? || m.DropHandles? || m.RequestSync?)
    ensures Consistent(After(w, m))
  {
    if m.RequestSync? {
      RequestKeepsConsistent(w, m);
    } else {
      var v := After(w, m);
      assert Extends(w, v);
      forall j | 0 <= j < |v.shards| ensures ShardOk(v, v.shards[j]) {
        ShardStaysOk(w, v, if j == m.shard then w.shards[j].(duty := Receiving) else w.shards[j]);
      }
    }
  }

  lemma SweepKeepsConsistent(w: World)
    requires Consistent(w) && Enabled(w, Sweep)
    ensures Consistent(After(w, Sweep))
  {
    var v := After(w, Sweep);
    assert Extends(w, v);
    forall j | 0 <= j < |v.shards| ensures ShardOk(v, v.shards[j]) {
      ShardStaysOk(w, v, w.shards[j]);
    }
  }

  lemma KeepsConsistent(w: World, m: Move)
    requires Consistent(w) && Enabled(w, m)
    ensures Consistent(After(w, m))
  {
    if m.Sweep? {
      SweepKeepsConsistent(w);
    } else if m.TaskGetsSnapshot? {
      SnapshotMoveKeepsConsistent(w, m);
    } else if m.DepthArrives? || m.TickerArrives? {
      MessageKeepsConsistent(w, m);
    } else if m.PublishBook? || m.LoseConnection? || m.DropHandles? || m.RequestSync? {
      ShardMoveKeepsConsistent(w, m);
    } else {
      TaskMoveKeepsConsistent(w, m);
    }
  }

  // ---- No book is stranded ----

  ghost predicate AwaitsRequest(w: World, sym: string) {
    exists i :: 0 <= i < |w.shards| && w.shards[i].duty == Requesting(sym)
  }

  predicate Works(w: World, t: nat, sym: string) {
    t in w.tasks && !w.tasks[t].aborted && w.tasks[t].symbol == sym
  }

  /** Somebody is bound to ask for the symbol's snapshot: the sweeper is about to
      start a task for it, its shard is, or a task nobody has aborted is running. */
  ghost predicate Covered(w: World, sym: string) {
    sym in w.toSpawn || AwaitsRequest(w, sym) || exists t :: Works(w, t, sym)
  }

  ghost predicate NoneStranded(w: World) {
    forall sym | sym in w.books && w.books[sym].book.mode == Buffering :: Covered(w, sym)
  }

  lemma CoverStays(w: World, v: World, sym: string)
    requires Covered(w, sym)
    requires sym in w.toSpawn ==> sym in v.toSpawn
    requires |v.shards| == |w.shards|
    requires forall i | 0 <= i < |w.shards| && w.shards[i].duty == Requesting(sym) :: v.shards[i].duty == Requesting(sym)
    requires forall t | Works(w, t, sym) :: Works(v, t, sym)
    ensures Covered(v, sym)
  {
  }

  lemma TaskMoveKeepsCover(w: World, m: Move)
    requires Consistent(w) && NoneStranded(w) && Enabled(w, m)
    requires m.TaskChecks? || m.TaskFails? || m.TaskWakes? || m.TaskVanishes? || m.TaskGetsSnapshot? || m.Elapse?
    ensures NoneStranded(After(w, m))
  {
    var v := After(w, m);
    forall sym | sym in v.books && v.books[sym].book.mode == Buffering ensures Covered(v, sym) {
      CoverStays(w, v, sym);
    }
  }

  lemma MessageKeepsCover(w: World, m: Move)
    requires Consistent(w) && NoneStranded(w) && Enabled(w, m) && (m.DepthArrives? || m.TickerArrives?)
    ensures NoneStranded(After(w, m))
  {
    var v := After(w, m);
    forall sym | sym in v.books && v.books[sym].book.mode == Buffering ensures Covered(v, sym) {
      if sym == m.symbol && w.books[sym].book.mode != Buffering {
        assert v.shards[m.shard].duty == Requesting(sym);
      } else {
        CoverStays(w, v, sym);
      }
    }
  }

  lemma ShardMoveKeepsCover(w: World, m: Move)
    requires Consistent(w) && NoneStranded(w) && Enabled(w, m) && (m.PublishBook? || m.LoseConnection?)
    ensures NoneStranded(After(w, m))
  {
    var v := After(w, m);
    forall sym | sym in v.books && v.books[sym].book.mode == Buffering ensures Covered(v, sym) {
      CoverStays(w, v, sym);
    }
  }

  lemma AbortingMoveKeepsCover(w: World, m: Move)
    requires Consistent(w) && NoneStranded(w) && Enabled(w, m) && (m.RequestSync? || m.DropHandles?)
    ensures NoneStranded(After(w, m))
  {
    var v := After(w, m);
    assert ShardOk(w, w.shards[m.shard]);
    forall sym | sym in v.books && v.books[sym].book.mode == Buffering ensures Covered(v, sym) {
      if m.RequestSync? && sym == w.shards[m.shard].duty.symbol {
        assert Works(v, w.nextTask, sym);
      } else {
        CoverStays(w, v, sym);
      }
    }
  }

  lemma SweeperKeepsCover(w: World, m: Move)
    requires Consistent(w) && NoneStranded(w) && Enabled(w, m) && (m.Sweep? || m.SpawnSwept?)
    ensures NoneStranded(After(w, m))
  {
    var v := After(w, m);
    forall sym | sym in v.books && v.books[sym].book.mode == Buffering ensures Covered(v, sym) {
      if m.SpawnSwept? && sym == m.symbol {
        assert Works(v, w.nextTask, sym);
      } else if m.Sweep? && Stale(w.books[sym], w.clock, STALE_THRESHOLD) {
        assert sym in v.toSpawn;
      } else {
        CoverStays(w, v, sym);
      }
    }
  }

  lemma KeepsNoneStranded(w: World, m: Move)
    requires Consistent(w) && NoneStranded(w) && Enabled(w, m)
    ensures NoneStranded(After(w, m))
  {
    if m.Sweep? || m.SpawnSwept? {
      SweeperKeepsCover(w, m);
    } else if m.DepthArrives? || m.TickerArrives? {
      MessageKeepsCover(w, m);
    } else if m.PublishBook? || m.LoseConnection? {
      ShardMoveKeepsCover(w, m);
    } else if m.RequestSync? || m.DropHandles? {
      AbortingMoveKeepsCover(w, m);
    } else {
      TaskMoveKeepsCover(w, m);
    }
  }

  /** In every reachable state, however shards, snapshot tasks, aborts, failures,
      disconnects and sweeps interleave, every book waiting for a snapshot has
      somebody bound to fetch one. */
  lemma {:induction false} NoBookIsStranded(w: World, moves: seq<Move>)
    requires Initial(w) && Possible(w, moves)
    ensures Consistent(Reached(w, moves)) && NoneStranded(Reached(w, moves))
  {
    if moves != [] {
      var init, m := moves[..|moves| - 1], moves[|moves| - 1];
      NoBookIsStranded(w, init);
      KeepsConsistent(Reached(w, init), m);
      KeepsNoneStranded(Reached(w, init), m);
    }
  }

  lemma {:induction false} SymbolsAreFixed(w: World, moves: seq<Move>)
    requires Possible(w, moves)
    ensures Reached(w, moves).books.Keys == w.books.Keys
  {
    if moves != [] {
      SymbolsAreFixed(w, moves[..|moves| - 1]);
    }
  }

  // ---- What is published is what was validated ----

  /** Until the sweeper takes it, the book about to be published is exactly the one
      the depth event left live; the sweeper takes it only after the threshold. */
  predicate Guarded(w: World, s: Shard) {
    s.duty.Publishing? ==>
      var d := s.duty;
      && d.symbol in w.books && d.validated.mode == Live
      && (!d.swept ==> w.books[d.symbol] == Slot(d.validated, d.since))
      && (d.swept ==>
            && w.clock - d.since > STALE_THRESHOLD
            && var b := w.books[d.symbol].book;
               b.snapshots > d.validated.snapshots || (b.snapshots == d.validated.snapshots && b.mode == Buffering))
  }

  predicate AllGuarded(w: World) {
    forall i | 0 <= i < |w.shards| :: Guarded(w, w.shards[i])
  }

  lemma SnapshotCounts(b: BookValue, s: Snapshot)
    ensures b.mode != Buffering ==> OnSnapshot(b, s) == Synced(b, true)
    ensures b.mode == Buffering ==> OnSnapshot(b, s).book.snapshots == b.snapshots + 1
  {
  }

  lemma BookMoveKeepsGuarded(w: World, m: Move)
    requires Consistent(w) && AllGuarded(w) && Enabled(w, m)
    requires m.DepthArrives? || m.TickerArrives? || m.LoseConnection?
    ensures AllGuarded(After(w, m))
  {
    var v := After(w, m);
    forall i | 0 <= i < |v.shards| ensures Guarded(v, v.shards[i]) {
      assert ShardOk(w, w.shards[i]) && Guarded(w, w.shards[i]);
      assert i != m.shard ==> w.shards[i].symbols !! w.shards[m.shard].symbols;
    }
  }

  lemma SnapshotKeepsGuarded(w: World, m: Move)
    requires AllGuarded(w) && Enabled(w, m) && m.TaskGetsSnapshot?
    ensures AllGuarded(After(w, m))
  {
    var v := After(w, m);
    SnapshotCounts(w.books[w.tasks[m.task].symbol].book, m.snapshot);
    forall i | 0 <= i < |v.shards| ensures Guarded(v, v.shards[i]) {
      assert Guarded(w, w.shards[i]);
    }
  }

  lemma SweepKeepsGuarded(w: World)
    requires AllGuarded(w) && Enabled(w, Sweep)
    ensures AllGuarded(After(w, Sweep))
  {
    var v := After(w, Sweep);
    forall i | 0 <= i < |v.shards| ensures Guarded(v, v.shards[i]) {
      assert Guarded(w, w.shards[i]);
    }
  }

  /** Nothing that a record depends on changes but, perhaps, the clock. */
  lemma SameBooksKeepGuarded(w: World, v: World, i: nat)
    requires AllGuarded(w) && v.books == w.books && v.clock >= w.clock && |v.shards| == |w.shards| && i < |v.shards|
    requires v.shards[i].duty == w.shards[i].duty || !v.shards[i].duty.Publishing?
    ensures Guarded(v, v.shards[i])
  {
    assert Guarded(w, w.shards[i]);
  }

  lemma KeepsGuarded(w: World, m: Move)
    requires Consistent(w) && AllGuarded(w) && Enabled(w, m)
    ensures AllGuarded(After(w, m))
  {
    if m.DepthArrives? || m.TickerArrives? || m.LoseConnection? {
      BookMoveKeepsGuarded(w, m);
    } else if m.TaskGetsSnapshot? {
      SnapshotKeepsGuarded(w, m);
    } else if m.Sweep? {
      SweepKeepsGuarded(w);
    } else {
      var v := After(w, m);
      forall i | 0 <= i < |v.shards| ensures Guarded(v, v.shards[i]) {
        SameBooksKeepGuarded(w, v, i);
      }
    }
  }

  lemma {:induction false} GuardedThroughout(w: World, moves: seq<Move>)
    requires Initial(w) && Possible(w, moves)
    ensures AllGuarded(Reached(w, moves))
  {
    if moves != [] {
      var init, m := moves[..|moves| - 1], moves[|moves| - 1];
      NoBookIsStranded(w, init);
      GuardedThroughout(w, init);
      KeepsGuarded(Reached(w, init), m);
    }
  }

  /** When the shard last took a depth event. */
  function ValidatedAt(w: World, moves: seq<Move>, i: nat): real
    requires Possible(w, moves)
  {
    if moves == [] then w.clock
    else
      var init, m := moves[..|moves| - 1], moves[|moves| - 1];
      if m.DepthArrives? && m.shard == i then Reached(w, init).clock else ValidatedAt(w, init, i)
  }

  /** Since then some sweep ran later than the threshold. */
  predicate SweptLate(w: World, moves: seq<Move>, i: nat)
    requires Possible(w, moves)
  {
    && moves != []
    && var init, m := moves[..|moves| - 1], moves[|moves| - 1];
       && !(m.DepthArrives? && m.shard == i)
       && (SweptLate(w, init, i) ||
           (m.Sweep? && Reached(w, init).clock - ValidatedAt(w, init, i) > STALE_THRESHOLD))
  }

  lemma MoveTracksSweeps(w: World, m: Move, i: nat, at: real, late: bool)
    requires Consistent(w) && AllGuarded(w) && Enabled(w, m) && i < |w.shards|
    requires w.shards[i].duty.Publishing? ==> w.shards[i].duty.since == at && w.shards[i].duty.swept == late
    ensures |After(w, m).shards| == |w.shards|
    ensures var d := After(w, m).shards[i].duty;
            d.Publishing? ==>
              if m.DepthArrives? && m.shard == i then d.since == w.clock && !d.swept
              else d.since == at && (d.swept <==> late || (m.Sweep? && w.clock - at > STALE_THRESHOLD))
  {
    assert Guarded(w, w.shards[i]);
  }

  /** What the shard's record says about sweeps is what happened. */
  lemma {:induction false} SweptIffLate(w: World, moves: seq<Move>, i: nat)
    requires Initial(w) && Possible(w, moves) && i < |w.shards|
    ensures |Reached(w, moves).shards| == |w.shards|
    ensures var d := Reached(w, moves).shards[i].duty;
            d.Publishing? ==> d.since == ValidatedAt(w, moves, i) && (d.swept <==> SweptLate(w, moves, i))
  {
    if moves != [] {
      var init := moves[..|moves| - 1];
      SweptIffLate(w, init, i);
      NoBookIsStranded(w, init);
      GuardedThroughout(w, init);
      MoveTracksSweeps(Reached(w, init), moves[|moves| - 1], i, ValidatedAt(w, init, i), SweptLate(w, init, i));
    }
  }

  lemma {:induction false} ShardsAreFixed(w: World, moves: seq<Move>)
    requires Possible(w, moves)
    ensures |Reached(w, moves).shards| == |w.shards|
    ensures forall i | 0 <= i < |w.shards| :: Reached(w, moves).shards[i].symbols == w.shards[i].symbols
  {
    if moves != [] {
      ShardsAreFixed(w, moves[..|moves| - 1]);
    }
  }

  /** The book read under the second lock is the one validated under the first if
      and only if no sweep has run since then later than the stale threshold, and
      none can have while no more than the threshold has passed. */
  lemma PublishedIsValidated(w: World, moves: seq<Move>, i: nat)
    requires Initial(w) && Possible(w, moves) && Enabled(Reached(w, moves), PublishBook(i))
    ensures var v := Reached(w, moves);
            var d := v.shards[i].duty;
            && d.symbol in v.books && d.validated.mode == Live && d.since == ValidatedAt(w, moves, i)
            && (v.books[d.symbol].book == d.validated <==> !SweptLate(w, moves, i))
            && (v.clock - d.since <= STALE_THRESHOLD ==> !SweptLate(w, moves, i))
            && (d.swept <==> SweptLate(w, moves, i))
  {
    ShardsAreFixed(w, moves);
    GuardedThroughout(w, moves);
    SweptIffLate(w, moves, i);
  }

  /** And it can have once the threshold has passed: the sweep then empties the book
      the shard is about to read, and the shard publishes no levels and id zero. */
  lemma LatePublishIsEmpty(w: World, moves: seq<Move>, i: nat)
    requires Initial(w) && Possible(w, moves) && Enabled(Reached(w, moves), PublishBook(i))
    requires var v := Reached(w, moves);
             !v.shards[i].duty.swept && v.clock - v.shards[i].duty.since > STALE_THRESHOLD && v.toSpawn == {}
    ensures Possible(w, moves + [Sweep])
    ensures var v := Reached(w, moves + [Sweep]);
            && Enabled(v, PublishBook(i)) && v.shards[i].duty.symbol in v.books
            && var b := v.books[v.shards[i].duty.symbol].book;
               b.bids == map[] && b.asks == map[] && b.lastUpdateId == 0
  {
    GuardedThroughout(w, moves);
    assert (moves + [Sweep])[..|moves|] == moves;
  }

  // ---- Sweeps are spaced ----

  /** Each symbol's book has been touched since it was last swept. */
  function LastSweep(w: World, moves: seq<Move>, sym: string): Option<real>
    requires Possible(w, moves)
  {
    if moves == [] then None
    else
      var init := moves[..|moves| - 1];
      var v := Reached(w, init);
      if moves[|moves| - 1] == Sweep && sym in StaleSet(v.books, v.clock, STALE_THRESHOLD) then Some(v.clock)
      else LastSweep(w, init, sym)
  }

  lemma TouchedNeverFalls(w: World, m: Move, sym: string)
    requires Consistent(w) && Enabled(w, m) && sym in w.books
    ensures sym in After(w, m).books && After(w, m).books[sym].touched >= w.books[sym].touched
    ensures m == Sweep && sym in StaleSet(w.books, w.clock, STALE_THRESHOLD) ==> After(w, m).books[sym].touched == w.clock
  {
  }

  lemma {:induction false} TouchedSinceSweep(w: World, moves: seq<Move>, sym: string)
    requires Initial(w) && Possible(w, moves) && sym in w.books
    ensures sym in Reached(w, moves).books
    ensures LastSweep(w, moves, sym).Some? ==> Reached(w, moves).books[sym].touched >= LastSweep(w, moves, sym).value
  {
    if moves != [] {
      var init := moves[..|moves| - 1];
      TouchedSinceSweep(w, init, sym);
      NoBookIsStranded(w, init);
      TouchedNeverFalls(Reached(w, init), moves[|moves| - 1], sym);
    }
  }

  /** Two sweeps of one symbol, in any run, are more than the threshold apart. */
  lemma SweepsAreSpaced(w: World, moves: seq<Move>, sym: string)
    requires Initial(w) && Possible(w, moves) && sym in w.books
    requires sym in StaleSet(Reached(w, moves).books, Reached(w, moves).clock, STALE_THRESHOLD)
    ensures LastSweep(w, moves, sym).Some? ==>
              Reached(w, moves).clock - LastSweep(w, moves, sym).value > STALE_THRESHOLD
  {
    TouchedSinceSweep(w, moves, sym);
  }

  // ---- Every interleaving gives each book an ordinary run ----

  /** What one move does to one symbol's book. */
  function OpsOf(w: World, m: Move, sym: string): seq<Op>
    requires Enabled(w, m)
  {
    match m
    case DepthArrives(_, s, e) => if s == sym then [Depth(e)] else []
    case TickerArrives(_, s, bid, ask) => if s == sym then [Ticker(bid, ask)] else []
    case LoseConnection(i) => if sym in w.shards[i].symbols then [Disconnect] else []
    case TaskGetsSnapshot(t, s) => if w.tasks[t].symbol == sym then [Sync(s)] else []
    case Sweep => if sym in StaleSet(w.books, w.clock, STALE_THRESHOLD) then [Resync] else []
    case _ => []
  }

  function ScriptOf(w: World, moves: seq<Move>, sym: string): seq<Op>
    requires Possible(w, moves)
  {
    if moves == [] then []
    else
      var init := moves[..|moves| - 1];
      ScriptOf(w, init, sym) + OpsOf(Reached(w, init), moves[|moves| - 1], sym)
  }

  lemma MoveIsOps(w: World, m: Move, sym: string)
    requires Enabled(w, m) && sym in w.books
    ensures var ops := OpsOf(w, m, sym);
            && |ops| <= 1 && sym in After(w, m).books
            && After(w, m).books[sym].book == (if ops == [] then w.books[sym].book else Step(w.books[sym].book, ops[0]).book)
            && (ops == [Resync] ==> w.books[sym].book.mode == Live)
  {
  }

  predicate ResyncsLiveOnly(ops: seq<Op>) {
    forall k | 0 <= k < |ops| && ops[k] == Resync :: Run(ops[..k]).mode == Live
  }

  lemma ResyncsLiveOnlyMore(ops: seq<Op>, op: Op)
    requires ResyncsLiveOnly(ops) && (op == Resync ==> Run(ops).mode == Live)
    ensures ResyncsLiveOnly(ops + [op])
  {
    var more := ops + [op];
    forall k | 0 <= k < |more| && more[k] == Resync ensures Run(more[..k]).mode == Live {
      assert more[..k] == ops[..k];
      assert ops[..|ops|] == ops;
    }
  }

  /** Whatever the interleaving, each book is the result of a plain script of
      operations, in which only live books are marked for resync; so everything
      proved about runs of one book holds of it. */
  lemma {:induction false} BookIsARun(w: World, moves: seq<Move>, sym: string)
    requires Initial(w) && Possible(w, moves) && sym in w.books
    ensures sym in Reached(w, moves).books
    ensures Reached(w, moves).books[sym].book == Run(ScriptOf(w, moves, sym))
    ensures ResyncsLiveOnly(ScriptOf(w, moves, sym))
  {
    if moves != [] {
      var init, m := moves[..|moves| - 1], moves[|moves| - 1];
      BookIsARun(w, init, sym);
      MoveIsOps(Reached(w, init), m, sym);
      var before, more := ScriptOf(w, init, sym), OpsOf(Reached(w, init), m, sym);
      if more == [] {
        assert before + more == before;
      } else {
        assert more == [more[0]];
        RunAppend(before, more[0]);
        ResyncsLiveOnlyMore(before, more[0]);
      }
    }
  }
}
