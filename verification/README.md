# Order-book synchronisation, verified

A Dafny model of the Binance USD-M feed handler's logic: the per-symbol order-book
machine in its Rust and Python forms, the tasks that share the book table, the
snapshot pacer, the subscriber queues and the symbol ranking.

## What is modelled

- `BookModel` is the book machine on values: Uninitialized, Buffering and Live; the
  bounded resync buffer; snapshot loading, bridging and replay; the sequence check;
  the crossed-book and ticker checks; the counters.
- `RustBook` and `PythonBook` are the two implementations as classes that change their
  fields in place, the first over ordered maps read at their ends (`OrderedMap`), the
  second over plain dictionaries met in any order, whose best prices are found by loops
  and whose listings are sorted when asked for, and a length-bounded deque. Every method
  is proved to do what the machine does, and `Differential` drives both through an
  arbitrary script.
- `Venue` gives the venue's own book as a function of the update id and says when a diff
  and a snapshot are genuine. A REST answer lists 500 levels at most, so a book answers
  for the prices its snapshot speaks for and for every price mentioned since; there it
  is to be exactly the venue's book, and it shows nothing elsewhere.
- `Reactions` ties what the book answers to the state it is left in, over every run.
- `TruthAgreement`, `Delivery`, `FalseAlarms`, `Exactness`, `Eviction`, `Divergence`,
  `Counters` and `PublishedStream` prove properties of whole runs of the machine;
  `Holes` gives the two runs that show its one exception.
- `SyncTasks` runs shards, snapshot tasks and the staleness sweeper as interleaved
  moves, one per section executed under the table's lock; an aborted task may go on for
  a while before it vanishes. `StaleSweep` is the sweep itself, `Sweeping` when it takes
  a symbol, `Fetching` the life of the tasks, `LatePublish` a run in which a sweep
  spoils a publication, and `EndToEnd` combines the interleavings with the venue.
- `Pacer` and `PythonPacer` are the two rate limiters, `PacerRuns` runs of the first,
  `Fanout` the subscriber queues with `Accounts` over them, and `Universe` the volume
  ranking.

Clocks, snapshot answers, arrival orders, cancellations and fetch failures are
parameters of the moves, so every theorem quantifies over all of them.

## Where the code falls short of its documentation

- README.md:88 of the repository says the event accepted without a sequence check "is
  not a hole". That needs a condition the code does not test.
  `Holes.RejectedThenStaleSnapshotLeavesAHole` gives genuine input, delivered in
  order without loss, after which a live book misses a level: a first snapshot is
  refused because it cannot bridge to the one buffered event, which empties the buffer,
  and a second one, newer but still older than that event, then goes live unchecked.
  `Exactness.ExceptionIsExact` gives the exact condition over all scripts of ids in which
  no integrity check has failed since the last disconnect or resync, that the unchecked
  event's pu is at most the snapshot's id, and
  `Exactness.SafeWithoutBridgeIff` what it comes to over lossless delivery, that the
  snapshot is no older than the last delivery. `Delivery.LiveBookIsTrueInOrder` proves
  the claim under it.
- The same situation raises a false alarm. In `Holes.StaleSnapshotRaisesAFalseAlarm` the
  venue never crosses, no ticker is set and nothing is lost, and the live book crosses
  and asks for a snapshot. Snapshots are refused and gaps counted rightly even then
  (`FalseAlarms.NoFalseAlarms`), and `Exactness.AlarmIff` gives the exact condition for
  the alarm: it can happen if and only if the epoch's unchecked event began after its
  snapshot.
- The book is read again under a second lock after it was validated.
  `SyncTasks.PublishedIsValidated` proves both reads equal exactly when no sweep in
  between ran more than the stale threshold after the depth event, and
  `LatePublish.ValidatedThenPublishedEmpty` is a run in which one did and an empty book
  with id zero is about to be published.
- The Rust pacer drains its channel and then pops without looking again, so a ticket
  sent in between is overtaken even by a larger one: `PacerRuns.LateTicketIsOvertaken` is
  such a run. `Pacer.ColdStartIsSorted` says when that cannot happen and
  `Pacer.LateTicketsSortedIff` when it does no harm.
- The Rust pacer counts the next slot from the clock as it was read before the permit was
  sent. If the loop is held up in between, two permits can go out at the same moment
  (`PacerRuns.PermitsCanCoincide`) and a minute at four a second can cost 2410 weight
  (`PacerRuns.MinuteCanExceedBudget`). `Pacer.WindowBound` proves one permit too many is
  the most there can be, and only when the first in the window was put off from before
  it; `PacerRuns.SendBoundIsMet` that this bound is exact. The Python pacer reads the
  clock again after the grant and has neither defect.

## Model

| member | source | states |
|---|---|---|
| Levels.OverlayAt | rust/src/book.rs:278-294 | applying a diff sets each mentioned price to its last reported quantity, deletes it on zero, and leaves every other price alone |
| Levels.OverlayIdempotent | rust/src/book.rs:278-294 | diffs carry absolute quantities: replaying one twice changes nothing |
| Levels.ListedAt | rust/src/book.rs:162-174 | a loaded snapshot side holds exactly the prices listed with a positive quantity, each with the last positive quantity listed for it |
| Levels.RankedShape | python/book.py:167-170 | the sorted listing holds each level of a side exactly once, strictly best first |
| Levels.RankedIsUnique | python/book.py:167-170 | only one strictly best-first listing holds exactly the levels of a side, so every way of sorting its items gives the same one |
| Levels.TopShape | rust/src/book.rs:261-276 | the top n levels: as many as asked for and available, real, strictly ordered, and better than every level left out |
| BookModel.ReplayMeans | rust/src/book.rs:181-205 | a replay succeeds exactly when the events the snapshot does not already contain start no later than it and chain, and then the book is the snapshot with all of those and nothing else applied in order, and an event was used exactly when there was one |
| BookModel.ReplayStuck | rust/src/book.rs:187-202 | a replay that has met a broken bridge or chain has its final result, so returning at once is right |
| Reactions.AnswersTellModes | rust/src/book.rs:97-149 | a depth event asks for a snapshot exactly when it takes the book into buffering, never while it is there; announces an update exactly when a live book takes it in and stays live; and any other event leaves a live book as it was |
| Reactions.OneRequestPerEntry | rust/src/book.rs:97-149 | over every run exactly one snapshot is asked for per entry into buffering by a depth event |
| Reactions.AnswerTellsWaiting | rust/src/book.rs:152-231 | a snapshot is answered "live" exactly when the book does not wait for one any more: a book not waiting is left alone, one that was goes live exactly when the kept events bridge and chain and the rebuilt book is not crossed, and otherwise stays in buffering |
| Reactions.LiveIsUncrossed | rust/src/book.rs:297-336 | over every run, whatever the input, a live book shows every bid below every ask |
| Venue.TopListingIsGenuine | rust/src/feed_handler.rs:403-408 | the best 500 levels of the venue's book are a genuine listing: true, and complete down to their worst price |
| Venue.OverlayFaithful | rust/src/book.rs:278-294 | overlaying a genuine diff from any id it covers keeps a side exactly the venue's at the prices it answers for and empty elsewhere, and it then answers for the prices of the diff too |
| Venue.ListedFaithful | rust/src/book.rs:162-174 | loading a genuine snapshot gives exactly the venue's levels at the snapshot's id at every price listed or inside its window, and nothing elsewhere |
| Venue.ReplayTruthful | rust/src/book.rs:179-205 | replaying any genuine buffered events over a loaded snapshot, in whatever order they were buffered, keeps the book true at its last update id, at the window and at every price replayed |
| TruthAgreement.DepthKeepsTruth | rust/src/book.rs:97-149 | a genuine depth event keeps a live book true, and true at the event's prices as well, unless it is accepted unchecked and began after the book's id |
| TruthAgreement.SyncKeepsTruth | rust/src/book.rs:152-231 | a genuine snapshot of any age, over a buffer with any losses, goes live only with a true book, at its window and at every price listed or replayed |
| TruthAgreement.LiveBookIsTrue | rust/src/book.rs:97-361 | over every run of genuine input with loss, duplication, reordering, stale snapshots, resets and resyncs, a live book shows exactly the venue's levels at its last update id at every price inside its snapshot's window or touched since, and no level elsewhere, unless its one unchecked event began after its snapshot |
| TruthAgreement.TopIsTrueIff | rust/src/book.rs:261-276 | the top n of a side that is nowhere wrong are the venue's own top n exactly when it misses no venue level that would be among them |
| TruthAgreement.TopIsTrue | rust/src/book.rs:261-276 | so they are whenever the book answers for each such level, in particular when n are listed and the worst lies inside the snapshot's window |
| TruthAgreement.UncheckedHole | rust/src/book.rs:120-128 | after an unchecked event that began after the book's id, some venue with the same past up to that id that could have sent this event is not shown correctly |
| TruthAgreement.UncheckedEventSafeIff | rust/src/book.rs:120-128 | for one event by itself: the unchecked event is safe for every venue the book is true of that could have sent it if and only if its pu is at most the book's last update id |
| Delivery.ReplayReachesEnd | rust/src/book.rs:182-205 | a buffer with rising u is replayed to its last event or refused, or is entirely older than the snapshot |
| Delivery.GapCountIsExact | rust/src/book.rs:116-137 | with rising u per connection the gap counter equals the number of deliveries to a live checked book that did not continue their predecessor, at most one per loss and none for a reconnect |
| Delivery.StepKeepsLinked | rust/src/book.rs:97-361 | lossless delivery keeps the buffer an unbroken chain ending at the last delivery and counts no gap, whatever the age of the snapshots |
| Delivery.StepKeepsUpToDate | rust/src/book.rs:115-147 | under lossless delivery and timely snapshots each event accepted unchecked has pu at most lastUpdateId and u above it |
| Delivery.NeverSuspect | README.md:88 | over every such run the unchecked event never begins after the snapshot |
| Delivery.LiveBookIsTrueInOrder | README.md:88 | so over every such run of genuine input a live book is the venue's book without exception |
| Exactness.RunSameControl | rust/src/book.rs:97-361 | as long as no integrity check has failed since the last disconnect or resync, two runs over the same ids take the same decisions since: mode, last update id, buffered ids and suspicion agree, whatever the contents |
| Exactness.ExceptionIsExact | rust/src/book.rs:120-128 | for every script of ids, with any loss, duplication, reordering or staleness, in which no integrity check has failed since the last disconnect or resync: the live book is right for every venue and every content for which the whole run is genuine and as quiet, if and only if the event it accepted unchecked did not begin after its snapshot |
| Exactness.SafeWithoutBridgeIff | README.md:88 | over lossless delivery with no integrity check failed since the last disconnect or resync, the book after an unbridged snapshot and the next delivery is right for every venue and every content under these ids for which the whole run is genuine and as quiet, if and only if the snapshot was no older than the last delivery |
| Holes.RejectedThenStaleSnapshotLeavesAHole | README.md:88 | a concrete lossless in-order script of genuine input after which a live book misses one of the venue's levels |
| Holes.StaleSnapshotRaisesAFalseAlarm | README.md:88 | the same ids with other contents: a venue that never crosses, no ticker, nothing lost, and the live book crosses and asks for a snapshot |
| FalseAlarms.ReplayOkIff | rust/src/book.rs:186-202 | over a chained buffer the replay succeeds exactly when the first event not older than the snapshot starts no later than it, or there is none |
| FalseAlarms.NoFalseAlarms | rust/src/book.rs:115-230 | with lossless delivery, snapshots of any age, a venue that never crosses and no ticker: a snapshot is refused exactly when it cannot be bridged, no gap is ever counted, and a live book asks for another only if its unchecked event began after its snapshot |
| FalseAlarms.NoFalseAlarmsInTime | rust/src/book.rs:97-149 | when snapshots are timely too a live book never asks for another |
| Exactness.AlarmIff | rust/src/book.rs:139-146 | for every script of ids in which no integrity check has failed since the last disconnect or resync: some never-crossing venue and content under them makes the next examined event raise an alarm if and only if the unchecked event, this one or an earlier one of the epoch, began after the snapshot |
| Eviction.DeliverKeepsNewest | rust/src/book.rs:355-361 | after any log of buffered events the buffer is the newest 5000 and every other one is counted as dropped |
| Eviction.SuffixReplaysSameOrFails | rust/src/book.rs:181-205 | losing the oldest buffered events leaves a replay exactly as it was or makes it fail |
| Eviction.EvictionIsSafe | rust/src/book.rs:355-361 | a book with the bounded buffer answers a snapshot exactly as one with an unbounded buffer, or refuses it; up to the bound it always answers alike |
| Eviction.BufferIsNewestOfLog | rust/src/book.rs:355-361 | on every run with ascending ranges per connection the buffer is the newest 5000 of all events delivered since buffering began, and exactly the others are counted as dropped since |
| Eviction.EvictionIsSafeOnRuns | rust/src/book.rs:152-231 | in every reachable buffering state a snapshot is answered exactly as by a book that kept every event since it began to buffer, or it is refused; the buffer holds the newest five thousand |
| Eviction.EvictionIsSafeInOrder | README.md:88 | in particular over lossless delivery, whatever the age of the snapshots |
| Divergence.TickerIsLast | rust/src/book.rs:234-236 | over every run the book remembers the bid and ask of the last ticker delivered since the last disconnect or resync, or none |
| Divergence.CounterIsStreak | rust/src/book.rs:297-336 | on every run the mismatch counter is the number of disagreements, between the book's best prices and the ticker last delivered, since the last agreement, fallback, going live or reset, where only uncrossed two-sided books and tickers with both prices are compared; and it stays below ten |
| Divergence.DemotedExactlyOnTheTenth | README.md:112 | an uncrossed, unbroken live book is demoted exactly by the tenth consecutive disagreement with the ticker last delivered |
| Divergence.AgreementPublishes | rust/src/book.rs:316-331 | an event after which the best bid and ask are the last ticker's is published |
| Counters.ReplayUsesNothingIff | rust/src/book.rs:179-215 | a replay succeeds without using any event exactly when every buffered event is older than the snapshot |
| Counters.CountersAreTallies | rust/src/book.rs:53-62 | on every run the snapshot, unproven-bridge, crossed, gap and dropped counters are exact tallies of what happened, including snapshots later refused |
| Counters.UncheckedEventsAreCounted | README.md:88 | at most one event is accepted unchecked per counted unproven bridge, on every run |
| Counters.DisconnectForgets | rust/src/book.rs:248-258 | after a reset a book answers everything exactly as a new book would, counters aside, and the counters influence nothing |
| PublishedStream.PublishedIdsRise | rust/src/book.rs:116-118 | within one live epoch every published id exceeds every earlier one |
| PublishedStream.RunPositive | rust/src/book.rs:162-174 | with non-negative input no level of any book ever has a quantity of zero or less |
| PublishedStream.PublishedShape | rust/src/book.rs:139-146 | every published event lists the best levels in strict order, all positive, every bid below every ask |
| OrderedMap.InsertMeans | rust/src/book.rs:283-289 | inserting into the ordered map is updating the finite map it stands for |
| OrderedMap.RemoveMeans | rust/src/book.rs:281-287 | removing from the ordered map is removing from the finite map it stands for |
| OrderedMap.EndsAreBest | rust/src/book.rs:302-304 | the map's last key is the best bid and its first key the best ask |
| OrderedMap.ReversedIsRanked | rust/src/book.rs:263-269 | backward iteration is the best-first listing of bids |
| OrderedMap.ForwardIsRanked | rust/src/book.rs:272-273 | forward iteration is the best-first listing of asks |
| RustBook.Book.BufferPush | rust/src/book.rs:355-361 | pushes as the machine does, shedding and counting the oldest when full |
| RustBook.Book.ApplyDiff | rust/src/book.rs:278-294 | both loops leave the overlay of the diff on the old sides and move the id |
| RustBook.Book.CheckIntegrity | rust/src/book.rs:297-336 | reading the ends of the ordered maps gives the machine's verdict and counter changes |
| RustBook.Book.OnDepth | rust/src/book.rs:97-149 | reacts to every depth event with the machine's new book and action |
| RustBook.Book.ReplayBuffered | rust/src/book.rs:182-205 | the loop with its early returns computes the machine's replay |
| RustBook.Book.OnSnapshot | rust/src/book.rs:152-231 | takes up every snapshot with the machine's new book and result |
| RustBook.Book.Reset | rust/src/book.rs:248-258 | forgets exactly what the machine's reset forgets |
| RustBook.Book.MarkForResync | rust/src/book.rs:243-246 | resets and waits in buffering |
| RustBook.Book.TopLevels | rust/src/book.rs:261-276 | returns the best n bids and asks of the finite maps the book stands for |
| RustBook.RunScript | tests/cross_language_comparison.py:259-304 | the Rust book's digests over any script are the machine's |
| PythonBook.Book.BufferPush | python/book.py:172-178 | counting and then appending to a length-bounded deque is the machine's push |
| PythonBook.Book.ApplyDiff | python/book.py:180-191 | both loops over dictionaries leave the overlay of the diff |
| PythonBook.MaxKey | python/book.py:198 | a maximum over the keys in any order is the best bid |
| PythonBook.MinKey | python/book.py:199 | a minimum over the keys in any order is the best ask |
| PythonBook.SortedItems | python/book.py:167-170 | sorting the items, met in any order, gives the best-first listing of the side |
| PythonBook.PositiveLevels | python/book.py:98-99 | the comprehension keeps, per price, the last positive quantity listed |
| PythonBook.Book.CheckIntegrity | python/book.py:193-219 | max and min over the dictionaries give the machine's verdict and counter changes |
| PythonBook.Book.OnDepth | python/book.py:46-89 | reacts to every depth event with the machine's new book and action |
| PythonBook.Book.OnSnapshot | python/book.py:91-141 | takes up every snapshot with the machine's new book and result |
| PythonBook.Book.Reset | python/book.py:156-165 | forgets exactly what the machine's reset forgets |
| PythonBook.Book.TopLevels | python/book.py:167-170 | sorting each dictionary and cutting gives the best n bids and asks |
| PythonBook.RunScript | tests/cross_language_comparison.py:259-304 | the Python book's digests over any script, with its own sorting, are the machine's |
| Differential.Agree | tests/cross_language_comparison.py:239-256 | for every script, of any length, the two books give equal digests after every operation, and the digest shows the answer, the state, the counters and the three best levels a side |
| StaleSweep.BookTable.TakeStale | rust/src/feed_handler.rs:999-1018 | in any iteration order: exactly the live books silent for longer than the threshold are marked and returned, once each, and no other book changes |
| StaleSweep.SweepIsComplete | rust/src/feed_handler.rs:999-1018 | after a sweep nothing is stale and every swept book is ready for a snapshot |
| SyncTasks.KeepsConsistent | rust/src/feed_handler.rs:429-731 | every move keeps task handles with their symbol, symbols with one shard, and a shard's books uninitialized from its disconnect until its tasks are aborted |
| SyncTasks.KeepsNoneStranded | rust/src/feed_handler.rs:429-731 | no move leaves a buffering book without a task, a pending request or a place in the sweeper's list |
| SyncTasks.NoBookIsStranded | rust/src/feed_handler.rs:429-1050 | in every reachable state of every interleaving each buffering book has somebody bound to fetch its snapshot |
| SyncTasks.GuardedThroughout | rust/src/feed_handler.rs:626-662 | in every reachable state a book awaiting publication is exactly the one its depth event left live, unless the sweeper has taken it after the threshold |
| SyncTasks.SweptIffLate | rust/src/feed_handler.rs:626-662 | in every reachable state a book awaiting publication has been swept exactly when some sweep since its depth event ran more than the threshold after it |
| SyncTasks.PublishedIsValidated | rust/src/feed_handler.rs:626-662 | the book read for publication equals the one validated if and only if no sweep has run since more than the threshold after the depth event, and none can have while no more than the threshold has passed |
| SyncTasks.LatePublishIsEmpty | rust/src/feed_handler.rs:640-662 | wherever a publication has been pending past the threshold and the sweeper is idle, a sweep makes the shard publish no levels and id zero |
| LatePublish.ValidatedThenPublishedEmpty | rust/src/feed_handler.rs:640-662 | a concrete run of one shard that reaches this: a book validated with levels on both sides and id 20 is about to be published with none and id zero |
| SyncTasks.SweepsAreSpaced | rust/src/feed_handler.rs:999-1018 | two sweeps of one symbol are more than the threshold apart in every run |
| Sweeping.StampIsLastTouched | rust/src/feed_handler.rs:626-635 | over every interleaving a book's stamp is the clock at its last depth event of any kind, or at its last sweep if later, or zero |
| Sweeping.SweepTakesTheOverdue | rust/src/feed_handler.rs:999-1018 | in every reachable state a sweep takes a symbol if and only if its book is live and was last touched more than thirty seconds ago, and leaves every other book as it is |
| Sweeping.TakenHasBeenSilent | rust/src/feed_handler.rs:999-1018 | a symbol taken has had no depth event of any kind for more than thirty seconds |
| Fetching.TaskStopsIff | rust/src/feed_handler.rs:429-466 | a running snapshot task stops exactly when its check or the answer to its snapshot finds that the book does not wait any more |
| Fetching.TaskFetchesIff | rust/src/feed_handler.rs:438-466 | a task fetches only after having found its book waiting, and sleeps after every fetch that came to nothing before it looks again |
| Fetching.NewTaskChecksFirst | rust/src/feed_handler.rs:438-444 | a new task begins with the check, for the symbol a shard was asked a snapshot of or the sweeper has taken |
| Fetching.AnswerIsActedOn | rust/src/feed_handler.rs:626-662 | what a depth event is answered is what its shard does next, and before it receives anything more: ask for the snapshot, publish, or go on |
| Fetching.ThenReceivesAgain | rust/src/feed_handler.rs:636-662 | having asked, published or dropped its tasks a shard receives again, and nobody else changes what a shard is about to do |
| Fetching.OneRequestASymbol | rust/src/feed_handler.rs:488-503 | in every reachable state at most one unaborted task started by a shard is after a symbol |
| Fetching.DropStopsRequests | rust/src/feed_handler.rs:718-720 | once a shard has dropped its connection no unaborted task it started is after any of its symbols |
| Fetching.HoldsWhatItAsked | rust/src/feed_handler.rs:488-503 | in every reachable state a shard holds tasks for exactly the symbols it has asked snapshots of since it last dropped them |
| SyncTasks.BookIsARun | rust/src/feed_handler.rs:429-1050 | whatever the interleaving, each book is the result of a plain script of operations in which only live books are marked for resync |
| EndToEnd.PublishedBookIsTrue | rust/src/feed_handler.rs:626-662 | under every interleaving of genuine input a published book that no late sweep has taken is live and agrees with the venue, up to the one exception |
| EndToEnd.PublishedListsAreTrue | rust/src/feed_handler.rs:640-662 | unless the book's unchecked event began after its snapshot, and whatever was lost, reordered or stale: each published list of 20 is the venue's own at the published id exactly when the book misses no venue level that would be in it; it misses none inside its snapshot's window or touched since; and a side loaded from fewer than 500 levels is the venue's whole side |
| EndToEnd.PublishedListsAreTrueInOrder | README.md:88 | with lossless timely delivery this holds without exception |
| EndToEnd.PublishedIdsRise | rust/src/feed_handler.rs:640-662 | under every interleaving, of two ids read for publication of a symbol the later is greater unless its book has ceased to be live in between, and one shard only publishes it |
| Pacer.PaceLoop.constructor | rust/src/feed_handler.rs:192-197 | the first slot is one interval after the start |
| Pacer.PaceLoop.Drain | rust/src/feed_handler.rs:200-202 | everything in the channel reaches the heap |
| Pacer.PaceLoop.Look | rust/src/feed_handler.rs:203-215 | the first half of one iteration: receive, wait, or find a slot due at the clock as read |
| Pacer.PaceLoop.Pop | rust/src/feed_handler.rs:216-221 | the second half: pop the heap's maximum, grant or discard it, and count the next slot from that earlier reading |
| Pacer.GrantsAreSpaced | rust/src/feed_handler.rs:187-223 | in every run the clock readings slots are granted for are an interval apart, each permit is sent between its own reading and the next, and the next slot is exactly one interval after the last reading, so tickets discarded for a departed requester cost no slot |
| Pacer.KthGrantNotBefore | rust/src/feed_handler.rs:192-197 | the k-th permit is sent no earlier than k intervals after the start |
| Pacer.WindowBound | rust/src/feed_handler.rs:187-223 | any window of any length holds at most ceil(length / interval) readings, idle or not, and at most one more permit sent, and that only if the first of them was put off from before the window |
| PacerRuns.SendBoundIsMet | rust/src/feed_handler.rs:208-221 | two or more permits can be sent in some window of a length in some run if and only if two fewer intervals than permits fit in it: the bound is exact |
| PacerRuns.PermitsCanCoincide | rust/src/feed_handler.rs:208-221 | a run in which two permits are sent at the same moment, whatever the interval |
| Pacer.MinuteWithinBudget | rust/src/feed_handler.rs:121-125 | at four slots a second the slots of any sixty seconds, as read, cost at most 2400 weight; so do the permits sent unless the first of them was put off from before, and then at most 2410 |
| PacerRuns.MinuteCanExceedBudget | rust/src/feed_handler.rs:121-125 | a run with 241 permits sent in a minute, 2410 weight |
| Pacer.GreatestIsLeast | rust/src/feed_handler.rs:146-161 | under the inverted comparison the heap's maximum is the ticket with the lowest rank, first come first within it, and no other |
| Pacer.GrantsGoToLeast | rust/src/feed_handler.rs:210-221 | every grant went to the least (rank, arrival) among the tickets then waiting, and its requester was still there |
| Pacer.TicketsArePatient | rust/src/feed_handler.rs:199-222 | a ticket once seen waiting waits at every later grant until it is granted or discarded |
| Pacer.OvertakenOnlyBySmaller | rust/src/feed_handler.rs:210-217 | from when a ticket is first seen waiting until it is granted every slot goes to a smaller ticket |
| Pacer.TicketsAreAccounted | rust/src/feed_handler.rs:174-223 | every ticket is in exactly one place: with its requester, in the channel, in the heap, granted once, or discarded after being abandoned |
| Pacer.NewestGoesLast | rust/src/feed_handler.rs:174-184 | a request goes behind every earlier one of its rank or a better |
| Pacer.ServedAtOnce | rust/src/feed_handler.rs:199-222 | the first waiting requester still there, drained or not, is granted a due slot in no time, each abandoned ticket before it costing one round of the loop |
| Pacer.DueSlotIsServed | rust/src/feed_handler.rs:199-222 | on every run a slot is due an interval after the last reading one was granted for, or after the start, and is then served at once |
| Pacer.ColdStartIsSorted | rust/src/feed_handler.rs:127-131 | on any run from the start, once no ticket arrives or is abandoned, and unless the loop has just drained and is about to pop with a ticket sent since, the grants are the full sort by (rank, arrival) of all that waited |
| Pacer.LateTicketsSortedIff | rust/src/feed_handler.rs:199-221 | in that remaining case, with a slot due, the order is exact if and only if no ticket sent since the drain should precede the one about to be popped |
| PacerRuns.LateTicketIsOvertaken | rust/src/feed_handler.rs:199-217 | a run in which rank 0 is sent after the drain and before the clock is read, and rank 5 gets the slot |
| PythonPacer.SnapshotPacer.constructor | python/feed_handler.py:78-99 | the first slot is one interval after the start |
| PythonPacer.SnapshotPacer.Acquire | python/feed_handler.py:86-91 | a request is queued under the next sequence number |
| PythonPacer.SnapshotPacer.Turn | python/feed_handler.py:93-111 | the loop from one pause to the next matches the step used by the run theorems |
| PythonPacer.GrantsAreSpaced | python/feed_handler.py:93-111 | waiting before taking a ticket, blocking for one as long as it takes and reading the clock again afterwards still spaces consecutive grants by at least an interval |
| PythonPacer.KthGrantNotBefore | python/feed_handler.py:95-99 | the k-th grant comes no earlier than k intervals after the start |
| PythonPacer.WindowBound | python/feed_handler.py:93-111 | any window of any length holds at most ceil(length / interval) grants |
| PythonPacer.TicketsAreAccounted | python/feed_handler.py:86-111 | every ticket is queued, granted once to the least then waiting, or skipped after being abandoned |
| PythonPacer.NewestGoesLast | python/feed_handler.py:86-91 | a request goes behind every earlier one of its rank or a better |
| PythonPacer.NextSlotIsExact | python/feed_handler.py:93-111 | on every run the next slot is exactly one interval after it was last set, which is at the start and once per grant, so skipped tickets leave it alone |
| PythonPacer.ServedAtOnce | python/feed_handler.py:99-111 | the first waiting requester still there is granted a due slot in no time, each abandoned ticket before it costing two turns of the loop |
| PythonPacer.DueSlotIsServed | python/feed_handler.py:99-111 | on every run that requester is served at the first wait whose clock has reached one interval after the slot was last set |
| PythonPacer.ColdStartIsSorted | python/feed_handler.py:72-111 | once no ticket arrives or is abandoned the grants are the full sort by (rank, arrival), without exception |
| Fanout.PythonFilter | python/publisher.py:56-70 | an empty symbol set means every symbol |
| Fanout.RustFilter | rust/src/publisher.rs:52-57 | an empty symbol list means no symbol, and an unknown stream name every stream |
| Fanout.PythonPublisher.Subscribe | python/publisher.py:56-70 | adds one subscriber with a new empty queue |
| Fanout.PythonPublisher.Unsubscribe | python/publisher.py:73-78 | removes exactly the subscribers with that queue, and the publisher stays usable |
| Fanout.PythonPublisher.Publish | python/publisher.py:81-112 | every matching queue gets the message, a full one losing its oldest, each loss is counted, and the publisher stays usable |
| Fanout.PythonPublisher.Act | python/publisher.py:56-137 | whatever happens next, subscribing, unsubscribing, publishing or a subscriber reading, the publisher moves as the dispatcher step does |
| Fanout.RustPublisher.Subscribe | rust/src/publisher.rs:47-66 | adds one subscriber with a new empty queue |
| Fanout.RustPublisher.Unsubscribe | rust/src/publisher.rs:68-72 | removes exactly the subscribers with that queue, and the publisher stays usable |
| Fanout.RustPublisher.Publish | rust/src/publisher.rs:90-107 | closed subscribers are reaped, every matching queue with room gets the message, each refusal is counted, and the publisher stays usable |
| Fanout.RustPublisher.Act | rust/src/publisher.rs:47-107 | whatever happens next, a receiver going away included, the publisher moves as the dispatcher step does |
| Accounts.LedgerFollows | rust/src/publisher.rs:90-107 | the ledger's queues, counter and ids move exactly as the dispatcher's do |
| Accounts.NothingGoesMissing | README.md:98 | for every interleaving of subscribing, unsubscribing, closing, publishing and reading, for each subscriber present or gone: matched equals received plus queued plus shed; in Python the queue is the newest run of what matched, in Rust received then queued is the subsequence accepted; received is what that subscriber read; the global counter is the sum of sheds |
| Accounts.ShedsAtTenThousand | rust/src/publisher.rs:78-82 | a subscriber loses a message exactly when ten thousand that matched and were not shed are still unread |
| Accounts.NothingShedEarly | python/publisher.py:81-103 | over every script nothing is shed for a subscriber that no more than ten thousand messages have matched |
| Accounts.RunPython | python/publisher.py:56-137 | the Python publisher run through any such script ends with the ledger's queues and counter and has handed out exactly what the ledger says was read |
| Accounts.RunRust | rust/src/publisher.rs:47-107 | the Rust publisher run through any such script ends with the ledger's queues and counter and has handed out exactly what the ledger says was read |
| Universe.RankCountsBetter | rust/src/feed_handler.rs:280-295 | a symbol's rank is the number of symbols with more volume, or as much and an earlier name |
| Universe.RanksAreABijection | rust/src/feed_handler.rs:280-295 | ranks are a bijection onto 0..n-1 that follows that order exactly |
| Universe.RanksFollowTheTable | rust/src/feed_handler.rs:280-295 | of two symbols the one with more volume in the table ranks ahead, of equals the one first in the alphabet; one missing from the table ranks behind every positive volume, and two missing ones by name |
| Universe.PickIsTheTop | rust/src/feed_handler.rs:302-315 | the pick has min(n, size) symbols, sorted by name, each beating every symbol left out |
| Universe.PickFollowsTheTable | rust/src/feed_handler.rs:302-315 | the picked list is alphabetical and no symbol left out has more volume in the table than one picked |
| Universe.OrderOfInputIsIrrelevant | rust/src/feed_handler.rs:277-315 | neither ranks nor pick depends on the order of the input |

## Left out

- WebSocket, HTTP, JSON, command line, health, metrics and log text: library calls and formatting around the logic modelled here.
- Decimal parsing and its panics: prices and quantities are exact reals compared by value, and input is well formed; a task that panics on malformed input is not modelled.
- Machine widths: ids and counters are unbounded naturals, so wrap-around of 64-bit counters is not modelled.
- Timer resolution: a sleep lasts at least as long as asked.
- Pacer interval rounding: the interval is an exact real, while the source rounds 1/rate to whole nanoseconds.
- The dispatcher queues of the feed handlers: the same two shedding policies as the subscriber queues with another capacity.
- A consumer's own queue object after it has unsubscribed, and a receiver that closes between the reaping and the send of one publish.
- The Python shard's disconnect path, which resets books only when an exception ends the connection: `SyncTasks` follows the Rust shard.
- Reconnect backoff, retry delays, 429 handling and latency gauges: they decide when moves happen, and every timing is allowed here.
- That a snapshot eventually arrives: only the existence of somebody bound to fetch one is decided by this code.
- A book's symbol field, and counts of messages, requests and published events; a book's last update time is kept beside it in the book table, where the shard and the sweeper set it.
- NaN volumes: volumes are reals; ranking with duplicate symbols is not modelled.
