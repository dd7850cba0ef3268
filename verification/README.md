# Inventory ledger and session hooks, verified in Dafny

The system keeps an inventory as an append-only log of movements. Stock is never stored: it is the
signed sum of the log, read directly, up to a date, through a materialized view that a job refreshes
now and then, and through a left-join/having query for low stock. A movement is recorded by a session
that checks the stock twice: once against the view, outside any transaction, and once against the log,
after locking the product's row inside a unit of work. Beside the service, the repository ships a hook
script that hides marked blocks of source files from an editing session and puts them back.

The project models and proves, file by file:

- `Ledger.dfy` - movements, signed stock, stock at a date, independence of the row order.
- `Protocol.dfy` - the recording sessions as a transition system: one step is one SQL statement, and
  each statement sees everything committed before it. The state holds the committed log, the view, row
  locks, pool connections and any number of sessions; refreshes, clock ticks, new products and a
  failure at any database call may come between any two statements. The wiring is a parameter: `Bound`
  repositories share the unit of work's connection, as the documentation of the unit of work asks for;
  `Unbound` repositories know the pool only, which is what the factories build.
- `Invariants.dfy`, `BoundSafety.dfy`, `CommitTrace.dfy`, `PoolProgress.dfy` - what Bound guarantees: no
  oversold stock, exact accounting of the log, conservation of the pool, progress and termination.
- `UnboundTrace.dfy`, `UnboundWindow.dfy`, `Oversell.dfy`, `UnboundPool.dfy`, `Deadlock.dfy` - what Unbound
  keeps: what is in its log, exactly when it can oversell and exactly when it can deadlock, in terms of the requests, the
  stock and the size of the pool.
- `History.dfy`, `CommitOrder.dfy`, `MaterializedView.dfy` - the date query and the view over whole runs.
- `RecordMovement.dfy`, `SoloRun.dfy` - the use case and the unit of work as classes with faults, their
  refinement of the one-check rule, and their agreement with a session that runs alone.
- `StockQueries.dfy` - the SQL queries as relational operators, equal to the signed sums.
- `Text.dfy`, `SimplifyIgnore.dfy`, `RoundTrip.dfy`, `HookSession.dfy` - the filter and expansion loops
  against a description by chunks, their round trip, and sessions of Read, Edit or Write, and Stop.
- `Markers.dfy`, `Placeholders.dfy`, `HookEffects.dfy` - the same with the marker and placeholder texts
  written out: which lines are hidden behind which placeholder, what an altered placeholder expands to, and
  what each hook leaves on disk.
- `Color.dfy` - the RGB/HSL conversions over the reals, exact and with the roundings.
- `Wrappers.dfy`, `Reals.dfy` - what several of them share.
- `Migrations.dfy`, `Retry.dfy` - the migration runner over sequences of interrupted runs, and the
  bounded-backoff retry loop.

What a maintainer may want to know, each of it proved here:

- The factories build the repositories without a connection. Lock, sum and insert then run on three
  connections: the row lock ends with its statement, decreases that fit the stock one by one but not
  together can oversell it, a failed commit leaves its row, and as many sessions inside the unit of work
  as the pool has connections deadlock. A pool with more connections than sessions cannot.
- `created_at` is fixed before the row lock is taken, so commit order and date order can differ; the
  stock at a past date can then be negative although no committed stock ever was. It cannot when no
  delivery commits while an earlier-dated decrease of the same product is in flight that commits later.
- The stock check on floats decides as on integers for every INTEGER quantity, whatever the stock.
- `list_below_threshold` has a LIMIT and no ORDER BY: beyond the limit, which products it returns is open.
- When `start()` fails after `acquire()`, the connection is never released. A Bound pool stops only when
  all its connections are lost that way.
- A non-transactional migration is executed but never recorded, so every run executes it again.
- After an edit removes the last protected block of a file, later edits are not copied to the backup,
  and Stop overwrites them. The same holds for an edit that leaves the file empty: the expansion loop
  then writes no file and the script ends at line 287 of `hooks/simplify-ignore.sh`, before line 291.
- A negative `max_retries` never calls the function and ends in `raise None`.

## Model

| member | source | states |
|---|---|---|
| `BoundSafety.StockNeverNegative` | src/application/use_cases/record_movement.py:92-133 | Bound, any number of sessions, any view, any interleaving with refreshes and faults: committed stock is never negative, and the locked check of a session about to insert or commit a decrease still covers its quantity |
| `BoundSafety.InvStep` | src/infrastructure/repositories/stock_query_repository.py:126-144 | the inductive invariant: a session past its locked check holds the row lock of its product and its quantity is at most the committed stock, although IN and ADJUSTMENT commit without the lock |
| `BoundSafety.LocksOkStep` | src/infrastructure/repositories/stock_query_repository.py:74-76 | row locks belong to the transaction that took them, for its own product, until it ends |
| `BoundSafety.CommitKeepsChecks` | src/infrastructure/repositories/movement_repository.py:69-80 | a commit by one session keeps every other session's passed check good and every stock non-negative |
| `CommitTrace.LogGrowsByTheSuccesses` | src/infrastructure/db/uow.py:73-111 | over every Bound run with failures anywhere: the log only grows, by exactly the multiset of movements returned to callers, and stock is initial stock plus the deltas of the successes |
| `CommitTrace.SessionCommitsWhatItReturns` | src/application/use_cases/record_movement.py:115-133 | one session action appends the session's movement exactly when it makes the session return it; a failing session leaves no row |
| `Invariants.PoolIsConserved` | src/infrastructure/db/uow.py:65-111 | either wiring: in every reachable state each connection is free, or held by exactly one session or the refresh, and none is lost from the partition |
| `Invariants.SessionsOkStep` | src/domain/entities/movement.py:58-68 | every step keeps: only validated movements reach the transaction, and they are the request's own |
| `PoolProgress.ProgressUnlessAllLeaked` | src/infrastructure/db/uow.py:65-71 | Bound: in an unfinished state some statement can run without raising or waiting for a row lock, those taken by foreign keys included, if and only if some connection is not leaked by a failed start(), or a session is at its one local step |
| `PoolProgress.MeasureDecreases` | src/application/use_cases/record_movement.py:65-133 | every step of a session or of a running refresh lowers the measure, under either wiring |
| `PoolProgress.CanFinish` | src/infrastructure/db/uow.py:65-111 | Bound: with one connection not leaked, all sessions can be driven to their end without any fault or wait, within the measure |
| `PoolProgress.EveryRunCanFinish` | src/infrastructure/db/uow.py:65-111 | every Bound run in which start() raised fewer times than the pool has connections can be continued without a fault or wait until every session has ended and no row lock is left |
| `PoolProgress.LeaksAreCounted` | src/infrastructure/db/uow.py:67-69 | connections are lost only to a start() that raises, one each time |
| `PoolProgress.OneLockPerSession` | src/infrastructure/repositories/stock_query_repository.py:141-142 | no session ever holds two row locks |
| `PoolProgress.AnyCallCanFail` | src/infrastructure/db/uow.py:87-111 | Bound: whatever call an unfinished session is at, it can raise, and then the session ends without a trace: log, view, products and the other sessions are as before, its connection is free and its row lock gone |
| `UnboundTrace.LogGrowsByTheInserts` | src/infrastructure/repositories/movement_repository.py:69-80 | over every Unbound run with failures anywhere: the log grows by exactly one row for each of a set of sessions that contains every one that returned or is about to commit, and otherwise only failed ones; stock is initial stock plus their deltas |
| `UnboundTrace.FailedSessionLeavesItsRow` | src/infrastructure/db/uow.py:87-105 | Unbound: whenever a session is at its insert, a run exists in which it fails and its row is committed |
| `UnboundWindow.OversellsExactly` | src/infrastructure/repositories/base_repository.py:42-44 | Unbound, any state with a free connection: the decreases that have passed their locked check can make the stock negative if and only if together they exceed it |
| `UnboundWindow.FitsExactly` | src/application/use_cases/record_movement.py:120-131 | Unbound: the decreases between check and insert fit the stock in every state of a run if and only if each check that passes leaves room for those before it |
| `UnboundWindow.SafeWhileAdmissionsFit` | src/application/use_cases/record_movement.py:120-131 | Unbound: as long as each check that passes leaves that room, stock is never negative; overlaps that fit are allowed |
| `UnboundWindow.SafeWithoutOverlap` | src/application/use_cases/record_movement.py:120-131 | Unbound: in particular when no two decreases of one product are between locked check and insert together |
| `UnboundWindow.SerialRunsAreSafe` | src/adapters/api/dependencies.py:61-109 | Unbound: runs whose sessions do not overlap keep stock non-negative |
| `Oversell.OversellReachableExactly` | src/adapters/api/dependencies.py:61-109 | Unbound, for every start, view and pool size: some run makes the stock of a product negative if and only if, after some deliveries and some decreases served in turn, fewer decreases than there are connections, each of which fits what is left, exceed it together |
| `Oversell.NeverOversold` | src/application/use_cases/record_movement.py:120-131 | Unbound: a start that is not oversubscribed in that sense stays non-negative in every run, with faults, refreshes and any view |
| `Oversell.CarryOut` | src/adapters/api/dependencies.py:61-109 | Unbound: such a set of decreases can be committed by a run, and the stock ends at exactly the difference, whatever the view held |
| `Oversell.EnoughStockIsSafe` | src/adapters/api/dependencies.py:61-109 | Unbound: when everything requested fits the initial stock, every run is safe |
| `Oversell.TinyPoolIsSafe` | src/infrastructure/repositories/base_repository.py:42-44 | Unbound: with at most two connections no run oversells, because a second session never gets to its check |
| `Oversell.OverlapOversells` | src/adapters/api/dependencies.py:61-109 | for every stock and every two quantities that fit it singly but not together, an Unbound run ends at the stock less both |
| `UnboundPool.LargePoolNeverDeadlocks` | src/infrastructure/repositories/base_repository.py:42-44 | Unbound: no run deadlocks while the pool has more connections than there are requests with a valid quantity and metadata |
| `UnboundPool.OneConnectionWritesNothing` | src/infrastructure/repositories/base_repository.py:42-44 | Unbound: with one connection no run ever writes a row |
| `Deadlock.DeadlockReachableExactly` | src/infrastructure/db/uow.py:65-71 | Unbound, for every start, view and pool: some run deadlocks if and only if there are at least as many acceptable requests as connections, each passing the first check at the start or after deliveries by other sessions, of which there are none with a single connection |
| `Deadlock.DeadlockIsPlan` | src/infrastructure/repositories/base_repository.py:42-44 | in a deadlocked state the sessions that hold a connection are such requests, and those that have inserted are the deliveries |
| `Deadlock.CarryOutDeadlock` | src/adapters/api/dependencies.py:61-109 | from every such start, the run that fills the pool with sessions inside the unit of work, each waiting for a second connection |
| `Deadlock.DeadlockBySize` | src/adapters/api/dependencies.py:61-109 | Unbound: m sessions can deadlock a pool of n connections if and only if 0 < m and n <= m |
| `UnboundPool.NoRowLocks` | src/infrastructure/repositories/stock_query_repository.py:141-144 | Unbound: no row lock survives the statement that took it, in any run |
| `History.UpToIsPrefix` | src/infrastructure/repositories/stock_query_repository.py:78-93 | when commit order agrees with date order, the rows up to a date are a prefix of the log |
| `History.StockAtDifference` | src/infrastructure/repositories/stock_query_repository.py:121-124 | for every log, the stock at two dates differs by the signed sum of the rows dated between them |
| `History.OrderExactly` | src/infrastructure/repositories/stock_query_repository.py:78-93 | for a log whose stages were all non-negative: no date shows a negative stock of a product, however much larger a delivery and a later order are made together, if and only if no decrease is dated before an increase of the product committed before it |
| `CommitOrder.OrderedRunExactly` | src/application/use_cases/record_movement.py:105-131 | over every Bound run from a log in order: the log ends in that order if and only if no commit of an increase overtakes an earlier-dated decrease of its product that is in flight and commits later |
| `CommitOrder.OvertakingShows` | src/application/use_cases/record_movement.py:112-126 | the converse at that commit: if the overtaken decrease commits later, the order is broken for good |
| `CommitOrder.HistoricalStockNeverNegative` | src/application/use_cases/record_movement.py:105-131 | a Bound run without such overtaking has non-negative stock at every date |
| `CommitOrder.InTurnIsSafe` | src/application/use_cases/record_movement.py:105-131 | so has one in which each increase commits while no earlier-dated decrease of its product is in flight, whatever becomes of the sessions later |
| `CommitOrder.DatesStep` | src/application/use_cases/record_movement.py:112-126 | the invariant behind it: every committed increase is dated no later than every decrease of its product in flight that will commit |
| `History.HistoryCanGoNegative` | src/application/use_cases/record_movement.py:105-113 | otherwise, for every quantity, a Bound run gives exactly minus that quantity at a past date whose answer was zero before |
| `History.HistoryIsStable` | migrations/005_create_immutability_trigger.sql:13-25 | either wiring: once the clock is past a date and nothing dated by then is in flight, every later state answers the same for it |
| `MaterializedView.ViewOkRun` | src/infrastructure/db/refresh.py:30-56 | in every reachable state the view, and the one a running refresh is about to publish, is the direct sum over a prefix of the log |
| `MaterializedView.ViewPlusLaterRows` | src/infrastructure/repositories/stock_query_repository.py:95-119 | view row plus the rows committed since is the direct stock; `get_current_stock` is exact if and only if there is no row or the later rows cancel out |
| `MaterializedView.ExactWithoutLaterMovements` | src/infrastructure/repositories/stock_query_repository.py:95-114 | it is exact for every product without a movement since the view was computed |
| `MaterializedView.RefreshIsExactAndIdempotent` | src/infrastructure/scheduler/scheduler.py:39-57 | an undisturbed refresh makes every answer exact and changes nothing else; a second one changes nothing |
| `MaterializedView.FailedRefreshChangesNothing` | src/infrastructure/db/refresh.py:30-56 | a refresh that fails leaves everything as it was |
| `RecordMovement.Database.GetStockDirect` | src/infrastructure/repositories/stock_query_repository.py:116-119 | the row loop computes the signed sum of the product's rows |
| `RecordMovement.Database.GetCurrentStock` | src/infrastructure/repositories/stock_query_repository.py:95-114 | the view's row if there is one, the direct sum otherwise, also when the view does not exist |
| `RecordMovement.PostgresUnitOfWork.Enter` | src/infrastructure/db/uow.py:65-71 | takes one free connection and opens the transaction; if start() raises the connection stays taken, if acquire() raises nothing changes |
| `RecordMovement.PostgresUnitOfWork.Exit` | src/infrastructure/db/uow.py:73-111 | commits all pending rows or none, always gives the connection back, and never replaces an active error |
| `RecordMovement.RecordMovementUseCase.InsideTransaction` | src/application/use_cases/record_movement.py:120-131 | the order of locked check and insert, which error wins for every fault, and where the row goes under each wiring |
| `RecordMovement.RecordMovementUseCase.Execute` | src/application/use_cases/record_movement.py:65-133 | for every fault pattern, when the connections it waits for are there, two for an Unbound request that gets inside: which error leaves it; the row is in the log if and only if nothing refused it and the commit succeeded or the wiring is Unbound; the connection is lost if and only if start() was reached and raised |
| `RecordMovement.InsertedExactly` | src/application/use_cases/record_movement.py:92-131 | the insert is reached if and only if the rules accept the request and no call before the commit raises |
| `RecordMovement.RefusedExactly` | src/application/use_cases/record_movement.py:92-131 | for every view and fault pattern, when each of the five outcomes before the commit occurs: product not found, invalid quantity, inconsistent metadata, insufficient stock, none |
| `RecordMovement.AcceptedExactly` | src/domain/rules/movement_consistency.py:33-38 | for any view: accepted if and only if the product exists, the quantity is from 1 to 2^31 - 1, a TRANSFER has the keys origin and destination and an ADJUSTMENT the key reason, and neither stock nor view is too low for an OUT or TRANSFER; the movement is the request's own, dated now |
| `RecordMovement.FreshViewRefinesOneCheck` | src/application/use_cases/record_movement.py:97-102 | with the view row absent or equal to direct stock, the two checks decide exactly as the one rule |
| `RecordMovement.ExecutedIsOutcome` | src/application/use_cases/record_movement.py:65-133 | a protocol session that runs alone, under either wiring, answers and commits what the sequential program does |
| `SoloRun.AloneIsExecuted` | src/application/use_cases/record_movement.py:65-133 | from every state with a free connection and a free row there is a Bound run in which one session goes from start to end and leaves pool and locks as they were |
| `SoloRun.AloneIsExecutedUnbound` | src/infrastructure/repositories/base_repository.py:42-44 | from every state with two free connections there is an Unbound run to the same end |
| `StockQueries.ViewQueryIsStock` | migrations/008_create_mv_stock_historical.sql:16-36 | the left-join, group-by, coalesce query gives exactly one row per product, equal to the signed sum |
| `StockQueries.BelowThresholdExactly` | src/infrastructure/repositories/product_repository.py:79-92 | the having clause selects exactly the products whose stock is below their threshold, those without movements included |
| `StockQueries.LimitedAnswerExactly` | src/infrastructure/repositories/product_repository.py:74-94 | with LIMIT and no ORDER BY: the possible answers are exactly the lists of distinct such products, as many as there are up to the limit; all are returned if and only if they are no more than the limit |
| `StockQueries.ReadingsAgree` | src/domain/rules/stock_validation.py:12-28 | the direct query, the view and the having query agree with folding the deltas in any order of the rows |
| `StockQueries.FloatsAreExact` | src/infrastructure/repositories/stock_query_repository.py:116-119 | below 2^22 rows with INTEGER quantities, rounding to the nearest double leaves every partial sum and the checked sum unchanged |
| `StockQueries.FloatCheckDecidesExactly` | src/domain/rules/stock_validation.py:52-53 | for every stock, however large, and every quantity below 2^53, the check on doubles decides as on integers |
| `StockQueries.FloatCheckCanBeWrong` | src/domain/rules/stock_validation.py:52-53 | above that it need not: 2^53 units in stock let 2^53 + 1 units out |
| `StockQueries.NearestExactly` | src/infrastructure/repositories/stock_query_repository.py:116-119 | the conversion to a double is to a multiple of the distance between doubles, no further than half of it, ties to even |
| `Ledger.StockOfPermutation` | migrations/004_create_movements.sql:15-23 | stock depends on the rows, not on their order |
| `Ledger.SignedQuantities` | src/domain/rules/stock_validation.py:12-28 | a row adds its quantity to the stock of its product for IN and ADJUSTMENT, takes it for OUT and TRANSFER, and leaves the other products alone |
| `SimplifyIgnore.FilterLines` | hooks/simplify-ignore.sh:64-133 | the line loop writes one placeholder per closed block and every other line as it is, an unclosed block included, and caches exactly the blocks |
| `SimplifyIgnore.FilterFile` | hooks/simplify-ignore.sh:59-142 | the filtered text, the cache and the return code, with the trailing newline kept |
| `SimplifyIgnore.ExpandFile` | hooks/simplify-ignore.sh:224-271 | the two nested loops put every cached block back, line by line, trailing newline kept |
| `Markers.MarkedBlockIsShown` | hooks/simplify-ignore.sh:64-127 | the lines before a block are shown as they are, the block, from `p simplify-ignore-start: reason tail` to the first line with `simplify-ignore-end`, as the one line `p BLOCK_hash: reason tail`, and then what is shown of the rest; with or without a reason, on one line or several |
| `Markers.BlockIsShown` | hooks/simplify-ignore.sh:78-123 | every run of lines from a start marker to the first end marker is shown as one placeholder line |
| `Markers.PlainIsShown` | hooks/simplify-ignore.sh:126 | a line without a start marker outside the blocks is shown as it is |
| `Markers.UnclosedIsShown` | hooks/simplify-ignore.sh:129-133 | a start marker that no end marker follows hides nothing |
| `Markers.PlaceholderOf` | hooks/simplify-ignore.sh:73-93 | which parts of the first line the placeholder keeps: the text before the marker, the reason, the comment closer |
| `Markers.PrefixOf` | hooks/simplify-ignore.sh:73 | the prefix is the text before the first start marker |
| `Markers.SuffixOf` | hooks/simplify-ignore.sh:74-75 | the suffix is ` */` if the line has `*/`, otherwise ` -->` if it has `-->`, otherwise empty |
| `Markers.ReasonOf` | hooks/simplify-ignore.sh:76-77 | the reason is the text from the last `simplify-ignore-start:` to the comment closer, without the blanks around it |
| `Markers.FilteredIsShown` | hooks/simplify-ignore.sh:135-139 | the lines of the filtered file are the shown lines, and it ends in a newline exactly if the file does |
| `Placeholders.ExactBecomesBlock` | hooks/simplify-ignore.sh:235-248 | the exact placeholder, with any text around it on the line, becomes the block, and the text around it stays |
| `Placeholders.ReasonlessBecomesBlock` | hooks/simplify-ignore.sh:251-255 | so does the placeholder whose reason was removed |
| `Placeholders.TokenBecomesBlock` | hooks/simplify-ignore.sh:256-259 | otherwise the bare token becomes the block, and an altered reason or comment stays around it |
| `Placeholders.SelfMentionStops` | hooks/simplify-ignore.sh:251 | a block that contains its own token is put in for its exact placeholder only |
| `Placeholders.LineBecomes` | hooks/simplify-ignore.sh:228-264 | a line with the token of one cached block becomes what that block's file makes of it, whatever the listing order |
| `Placeholders.ExpandInTurn` | hooks/simplify-ignore.sh:230-263 | several placeholders on one line: the block files apply one after the other, each to what the one before has made of the line |
| `Placeholders.ExpandedText` | hooks/simplify-ignore.sh:265-271 | the expanded file prints the expanded lines, and ends in a newline exactly if the file does |
| `RoundTrip.RoundTripExactly` | hooks/simplify-ignore.sh:224-271 | with distinct hashes and placeholders that mention only themselves, expanding the filtered file gives the source back byte for byte if and only if no line outside the blocks mentions a cached hash and no block mentions one whose file is listed after its own |
| `RoundTrip.ExpandUndoesFilter` | hooks/simplify-ignore.sh:59-142 | for every source without the text `BLOCK_`, in any order of the cache files, the round trip is the identity |
| `RoundTrip.RoundTripHolds` | hooks/simplify-ignore.sh:224-271 | for any listing order, the same when `BLOCK_` occurs but nowhere followed by a cached hash |
| `RoundTrip.MentionBreaksRoundTrip` | hooks/simplify-ignore.sh:233-261 | such a mention makes the expanded file strictly longer than the source |
| `RoundTrip.FilteredLines` | hooks/simplify-ignore.sh:66-139 | the lines of the filtered file are the shown lines of its chunks, and it is empty, or ends without a newline, exactly when the source does |
| `HookSession.HookedFile.OnRead` | hooks/simplify-ignore.sh:177-216 | the Read hook changes file, backup and cache as specified, not at all when already filtered |
| `HookSession.HookedFile.OnEdit` | hooks/simplify-ignore.sh:219-302 | the Edit and Write hook expands, renews the backup and filters again, with its early ends |
| `HookSession.HookedFile.OnStop` | hooks/simplify-ignore.sh:144-172 | Stop copies the backup to the file, or saves it beside a file that is gone, and clears the cache |
| `HookSession.WriteIsKeptExactly` | hooks/simplify-ignore.sh:221-222 | the hook takes a write over if and only if nothing was filtered, or a block is cached and the file is not empty, or nothing changed |
| `HookSession.StopRestoresExactly` | hooks/simplify-ignore.sh:144-302 | over every sequence of Read, Edit or Write, and Stop, in any order: the file after Stop is what the last write meant if and only if the hook took that write over |
| `HookSession.ReadOnlySessionIsIdentity` | hooks/simplify-ignore.sh:144-216 | any number of Reads and Stops leaves the file byte for byte as it was, whatever it contains |
| `HookSession.DiskMirrorsBackup` | hooks/simplify-ignore.sh:287-299 | after every hook of a sequence, Stops included, whose edited files still have a block, expanding the file on disk gives the backup |
| `HookEffects.ReadEffect` | hooks/simplify-ignore.sh:177-216 | after any session, a Read of an unfiltered file with a closed block keeps its text as backup and leaves on disk exactly what is shown of it; of any other file it changes nothing on disk |
| `HookEffects.WriteEffect` | hooks/simplify-ignore.sh:219-302 | after any session, the hook after a write makes the expanded text the backup, and leaves on disk what is shown of it, or the text itself when no block is left; without backup or cached block, and for an empty file, the write stays |
| `HookEffects.StopEffect` | hooks/simplify-ignore.sh:144-172 | after any session, Stop puts the backup back, beside the file if that is gone, and forgets backup and blocks |
| `HookEffects.DiskIsFiltered` | hooks/simplify-ignore.sh:209-297 | in every state of every session, while a block is cached the file on disk is the backup with its blocks hidden, unless a write emptied it |
| `HookEffects.HasBlockExactly` | hooks/simplify-ignore.sh:69-125 | the filter hides something if and only if an end marker follows a start marker, on the same line or later |
| `HookSession.StopKeepsTheBackup` | hooks/simplify-ignore.sh:153-163 | Stop never destroys the backup |
| `HookSession.EditsAfterLastBlockAreLost` | hooks/simplify-ignore.sh:221-222 | after any write that removes the last block, whatever is written before the next Stop is on disk until then, and Stop puts back what the removing write meant |
| `HookSession.EditAfterLastBlockIsLost` | hooks/simplify-ignore.sh:221-222 | every file with a block can be brought there by one Read and one Write |
| `HookSession.FilteredLineAt` | hooks/simplify-ignore.sh:87-127 | line by line: the filtered file shows each line outside the blocks as it is and, for each block, one placeholder made of its first line and its hash, and nothing else |
| `HookSession.InteriorsAreHidden` | hooks/simplify-ignore.sh:102-127 | two files alike outside their blocks, with any interiors, each under its own hash, are filtered to the same text when the placeholder hashes agree |
| `Color.ToHsl` | skills/ui-ux-design-pro/cli/lib/generators.ts:42-67 | without roundings, converting to HSL and back is the identity on every RGB triple in [0,1], all sectors, ties and greys |
| `Color.HexToHsl` | skills/ui-ux-design-pro/cli/lib/generators.ts:36-69 | for every six-digit colour, the result is the exact hue, saturation and lightness, rounded, without hue and saturation for a grey, and converting back moves each channel by at most 5 of 255 |
| `Color.ShadeMoves` | skills/ui-ux-design-pro/cli/lib/generators.ts:63-67 | half a degree of hue and half a percent of saturation and lightness move a channel by at most 0.02084 |
| `Color.WaveIsLipschitz` | skills/ui-ux-design-pro/cli/lib/generators.ts:64-65 | the clamp function moves no faster than its argument, also where the hue circle closes |
| `Color.ShadeInUnit` | skills/ui-ux-design-pro/cli/lib/generators.ts:60-68 | for any hue, every channel is in range |
| `Color.HexText` | skills/ui-ux-design-pro/cli/lib/generators.ts:66-68 | a byte gives two capital hexadecimal digits that read back as it; other values give a sign or more digits |
| `Color.ColourText` | skills/ui-ux-design-pro/cli/lib/generators.ts:66-68 | a colour is `#` and six digits from 0-9 and A-F: two each for red, green and blue |
| `Color.RoundExactly` | skills/ui-ux-design-pro/cli/lib/generators.ts:57-66 | rounding is to the nearest integer, halves upwards |
| `Color.Mod12Exactly` | skills/ui-ux-design-pro/cli/lib/generators.ts:64 | the remainder of 12 keeps the sign of its argument |
| `Color.PureColours` | skills/ui-ux-design-pro/cli/lib/generators.ts:60-69 | hues 0, 120 and 240 at full saturation are #FF0000, #00FF00 and #0000FF, and the middle grey is #808080 |
| `Color.HslToHex` | skills/ui-ux-design-pro/cli/lib/generators.ts:60-69 | for any hue, saturation and lightness: the result is a six-digit colour if and only if the three channels are bytes, and then reads back as them |
| `Color.ColourForEveryHueExactly` | skills/ui-ux-design-pro/cli/lib/generators.ts:60-69 | a saturation and lightness, in or out of percent range, give a colour for every hue if and only if their lightest and darkest channels are bytes |
| `Color.PercentIsColour` | skills/ui-ux-design-pro/cli/lib/generators.ts:60-69 | in particular for saturation and lightness in percent |
| `Migrations.Database.RunMigrations` | src/infrastructure/db/migrate.py:84-135 | the file loop: which files take effect, which are recorded, and what is returned, for any set of failing files |
| `Migrations.RunExactly` | src/infrastructure/db/migrate.py:90-123 | the pending files before the first failure take effect and are returned, in file order, the transactional ones are recorded, and the failing one ends the run, leaving a part of itself only if it is not transactional |
| `Migrations.CompletedRunAppliesPending` | src/infrastructure/db/migrate.py:123-135 | a run that completes returns exactly the pending versions, in file order |
| `Migrations.NonTransactionalExactly` | src/infrastructure/db/migrate.py:103-106 | a file is non-transactional if and only if its text, after blanks, begins with `-- non-transactional` |
| `Migrations.RunsStayConsistent` | src/infrastructure/db/migrate.py:84-135 | over any sequence of runs, each stopped anywhere: the transactional files in effect are a prefix of the file order, each once, and exactly the recorded ones |
| `Migrations.TransactionalIsAtomic` | src/infrastructure/db/migrate.py:114-121 | no transactional file takes effect in part, in any sequence of runs |
| `Migrations.RerunRepeatsNonTransactional` | src/infrastructure/db/migrate.py:103-113 | a run after a completed one returns exactly the non-transactional files and executes them again; it changes nothing if and only if there are none |
| `Retry.Wrapper` | src/core/retry.py:92-125 | at most n+1 calls; it returns the value of the last call or raises its error, and only the last call can be one that is not retryable; one sleep between calls; a negative n never calls |
| `Retry.SleepIsBounded` | src/core/retry.py:101-114 | total sleep is at most both n times the cap and base * (2^n - 1) plus n jitters |
| `Retry.DelayExactly` | src/core/retry.py:102-105 | the possible sleeps after attempt i are exactly those from base * 2^i to one jitter more, cut at the cap |
| `Retry.DelaysGrowExactly` | src/core/retry.py:102-105 | delays never shrink for any jitter drawn if and only if the jitter is at most the base delay or twice the base reaches the cap |
| `Retry.RefreshSleepsBriefly` | src/infrastructure/scheduler/scheduler.py:39-57 | the refresh job sleeps 1 to 1.5, 2 to 2.5 and 4 to 4.5 seconds, at most 8.5 in all |

## Left out

- HTTP routers, middleware, DTOs, error mapping and logging: plumbing around the use cases.
- PostgreSQL, asyncpg and APScheduler internals: kept are a fresh snapshot per statement, a row lock held to the end of the transaction, commit and rollback as one step, and the refresh in two steps. The row locks that foreign keys take are not part of a step; leaving them out only adds runs for the results about every run, and the results that promise a step ask that it does not wait for such a lock. Statements blocked by a refresh are not modelled.
- A commit that reaches the server although the client sees an error: a failed commit is taken as not committed.
- The set of sessions is arbitrary but fixed when a run begins, and the start of a refresh is an environment action that the progress measure does not count.
- Movement ids, reference text and the values of the metadata (only its keys are kept); SKU, Product and Category validators.
- The seed data, and the creation of the tables and of the view by the migrations.
- Floats beyond the nearest double of an integer sum: infinities, and a SUM that overflows BIGINT.
- Execute: a call that waits for ever for a connection does not return, so its contract asks for the connections it needs; what happens without them is stated by OneConnectionWritesNothing and DeadlockReachableExactly.
- RunMigrations: takes the files in name order and the decoded text as given; a missing directory, and what a migration's SQL does, are not modelled.
- RoundTripExactly: says nothing when two blocks share a hash, when the first line of a block mentions a cached hash, or when a block contains its own hash; the hash is any function to eight hexadecimal digits.
- Colours: floating-point error and `parseInt` of malformed digits are not modelled, nor the palette generators built on the conversions.
- simplify-ignore: stale locks, several sessions on one file, the rule that skips the hook's own files, NUL bytes, differences between bash versions in pattern replacement, the warnings, and the loop of Stop over several files.
- Wrapper: cancellation during a call or a sleep is not modelled; `func` and `random` give the outcome and the jitter of each attempt.
