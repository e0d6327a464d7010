# Garden EVM watcher: a verified model

The watcher follows EVM chains and keeps a table of swaps and a table of created orders up to date.
One poller a chain walks the chain in bounded block windows, looks each log up in a two-level handler
index, and puts the matching ones on a bounded channel; a pool of workers takes jobs off the channel
and runs one handler a job, each issuing at most one SQL statement against a store all chains share.

This project models that machinery and proves what it keeps under every interleaving, every answer of
the node and every failure. Verify it with `dafny verify dfyconfig.toml`.

- `Bytes`, `Chain`: hashes, hexadecimal row keys, logs, blocks, and the `eth_getLogs` filter.
- `Routing`: the index a watcher builds, and the plain scan of the chain it stands for.
- `Windows`: the wrapping uint64 arithmetic of one poll.
- `Machine`: one watcher as a step machine. An action names one atomic step of one goroutine and
  resolves its free choices (which ready `select` case wins, what the node answers), so a run is a
  list of enabled actions and a theorem about every run is one about every interleaving.
- `Invariants`, `PollerTheorems`, `Shutdown`: what every step keeps, and the theorems over whole runs.
- `Watcher`: the watcher object with its fields, and the code of its goroutines. `Valid()` says that
  the fields are where some run of the machine can be; every method is proved to extend that run
  while everyone else takes arbitrary steps in between (`Interference`), so the theorems about
  reachable states hold of the object; and that the store holds the replay of the jobs whose handlers
  have run, this watcher's and others'.
- `Records`, `Store`, `Handlers`: the rows, the store that changes them in place, and the handlers.
- `Replays`: when the order of writes matters, and what replaying a log repairs.
- `Fleet`: several watchers over one store; what the tables depend on and where their contents come from.
- `Rescheduling`, `Schedules`: what a pool of k workers can do with a queue, and so exactly which tables
  the schedules of a fleet can leave.
- `Creations`: rows created while the watchers run, which updates that loses, and what brings them back.
- `CatchingUp`: runs that keep up without loss, so that a restart can always repair the tables; and the
  windows past 2^63.
- `BigInt`: the database and JSON codecs, with a base-detecting and a decimal parser.

## Results that are conditions

Some claims one might expect hold only under a condition, which is then proved to be the exact one.

- All permutations of a list of writes leave the same tables exactly when no two of them race for the same
  columns of an existing row, or the same new order, with different values
  (`Replays.OrderIrrelevantIffAgree`). A queue and its workers cannot produce all permutations. Over the
  schedules they can produce, the swaps are settled exactly when no group of a row has two different
  values that queues can end with: a watcher with several workers can end with any of its writes of the
  group, one with a single worker only with its last (`Schedules.SwapsSettledIffOneEnding`). With several
  workers a watcher that is again the absence of races (`Schedules.SwapsSettledIffAgree`); a lone watcher
  with a lone worker always leaves the sequential replay of its queue (`Schedules.SequentialWatcher`).
- An order can win a new id exactly when some queue has an insert of it with fewer rivals in front than
  that watcher has workers to hold them back (`Schedules.OrderOutcomes`).
- Two (transaction hash, secret hash) pairs share an order id exactly when they are equal or their
  concatenations collide under SHA-256 (`Handlers.SameCreateID`). Collisions exist, so what concerns
  created orders is stated for lists of jobs among which none occurs; what concerns swaps needs no such
  condition.
- A full replay repairs every swaps table exactly when it rewrites all that was written
  (`Replays.RepairsIffRewrites`); a replay from the start block always does.
- Every node answers a window with the jobs of its blocks exactly when the window ends below 2^63, or no
  configured handler could be reached anyway: the bounds pass through `int64`, and beyond that they reach
  the node negative (`CatchingUp.AnsweredIffNarrow`). Some run comes to such a window unless the start
  block is the last uint64 (`CatchingUp.WideWindowReached`); a node that refuses it leaves the watcher
  where it is (`CatchingUp.RefusedStays`). Theorems that speak of the chain's own logs therefore ask that
  the last dispatched block is below 2^63; those about windows, queue and shutdown do not.
- A row created while the watchers run holds, group by group, what it would hold had it been there from
  the start, exactly when some update of the group came after the creation, or the earlier ones would
  have left the group as created (`Creations.LostUpdates`). A replay, or a restart, after the last
  creation brings back everything lost (`Creations.ReplayRecoversLost`, `Creations.RestartRecoversLost`).
- A fleet can catch up with its chains exactly when no handler panics on what they hold
  (`CatchingUp.CatchesUpIffCalm`): a Created log with less than three words of data ends the process, and
  a restart from the start block meets it again.
- `Stop` without cancellation ends the poller but no worker (`Shutdown.StopLeavesWorkers`).
- `Value` of a nil `BigInt` hands over a `*big.Int` that `Scan` refuses (`BigInt.DatabaseRoundTrip`).
- The decimal and the base-detecting parser treat a string alike unless it is a well-formed literal with
  an underscore or a 0b, 0o or 0x prefix, as "1_0", or a decimal with a leading zero that is 8 or more in
  magnitude, as "010"; exactly on those they differ (`BigInt.ParsersAgree`).

The configuration shipped as `local_config.json` names the type of an HTLC contract "gardenhtlc", while
`cmd/config/config.go:11` spells it "htlc"; such a contract gets an empty configuration with no handlers.
The model takes the contracts as they are configured.

## Model

| member | source | states |
|---|---|---|
| Bytes.HexRoundTrip | pkg/handlers/htlc/htlc.go:71 | the hexadecimal row key of an order id decodes back to it |
| Bytes.HexDigits | pkg/handlers/htlc/htlc.go:71 | each byte is spelled by its high and low digit, 0 to 9 then a to f |
| Bytes.HexInjective | pkg/handlers/htlc/htlc.go:71 | distinct order ids never share a row key |
| Routing.IndexRefinesNaive | pkg/watcher/watcher.go:229-248 | query by addresses and deduplicated topics, then two lookups, yields exactly the jobs, in order, of asking for each log whether the last contract configured at its address handles topic 0 |
| Routing.LookupIsNaiveJob | pkg/watcher/watcher.go:244-247 | the two map lookups find the handler the scan finds, and any log the scan wants passes the query |
| Routing.LastAtMeans | pkg/watcher/watcher.go:102-104 | an address has handlers iff some contract is at it, and then those of the contract no later one shares it with |
| Routing.NaiveJobMeans | pkg/watcher/watcher.go:244-247 | a log's job is what the last contract at its address names for its first topic, if anything |
| Routing.NoContractNoJob | pkg/watcher/watcher.go:244-247 | a log of no configured address has no job |
| Watcher.BuildIndex | pkg/watcher/watcher.go:101-111 | for any contracts and map order: one query address a contract in order; the owners' addresses are exactly the contracts', each with the handlers of the last contract at it; topics duplicate-free and exactly the event ids of the contracts |
| Watcher.Watcher.NewWatcher | pkg/watcher/watcher.go:76-114 | which configurations are refused, in which order, and that an accepted one is a fresh machine over a correct index |
| Watcher.Watcher.Start | pkg/watcher/watcher.go:117-133 | under any interference, all workers are spawned and the poller starts selecting at the start block, as a run of the machine |
| Windows.NextWindow | pkg/watcher/watcher.go:206-215 | a window opens iff the head is past the cursor; it starts right after the cursor, ends by the head and has min(span + 1, remaining) blocks in unbounded integers, so no uint64 operation wraps |
| Windows.WireBounds | pkg/watcher/watcher.go:230-231 | the int64 conversions keep a window's bounds iff it ends below 2^63 |
| Windows.CatchUp | pkg/watcher/watcher.go:206-224 | a steady head is reached after exactly ceil((head - cursor) / (span + 1)) successful polls |
| PollerTheorems.SteadyCatchUp | pkg/watcher/watcher.go:147-153 | in any run while the head stays put, the cursor is at it iff that many windows have been committed, whatever fails or interleaves |
| PollerTheorems.CursorPartition | pkg/watcher/watcher.go:206-224 | over every run, committed windows are non-empty, ascending, disjoint, contiguous and cover exactly (startBlock, cursor]; the cursor stays between the start block and the largest head seen |
| PollerTheorems.CursorMonotone | pkg/watcher/watcher.go:224 | once set, the cursor never decreases, also when heads do |
| PollerTheorems.WindowIsScan | pkg/watcher/watcher.go:228-256 | a window ending below 2^63 yields the jobs of a plain scan of its blocks |
| CatchingUp.AnsweredIffNarrow | pkg/watcher/watcher.go:230-231 | all nodes answer a window with the jobs of its blocks iff it ends below 2^63 or no handler is reachable |
| CatchingUp.WideWindowReached | pkg/watcher/watcher.go:206-231 | some run comes to fetch a window that reaches 2^63 iff the start block is not the last uint64 |
| CatchingUp.RefusedStays | pkg/watcher/watcher.go:233-236 | while the node answers no window, no run moves the cursor or offers a job |
| PollerTheorems.ExactAccounting | pkg/watcher/watcher.go:219-256 | in every reachable state the offered jobs are the scan of the committed blocks plus an initial part of the open window; sent ones are taken then queued, in chain order; as a multiset offered = taken + queued + dropped, and taken = finished + running |
| PollerTheorems.OfferedIsScanPrefix | pkg/watcher/watcher.go:243-256 | what has been offered is always an initial part of one scan from the start block |
| PollerTheorems.ScanMeans | pkg/watcher/watcher.go:228-256 | a scan holds, in strict chain order, exactly the logs on the chain in its blocks that have a job, with that job |
| PollerTheorems.AtMostOnce | pkg/watcher/watcher.go:148-151 | over every run jobs are offered and enqueued in strict chain order, so no chain position twice, nor both enqueued and dropped |
| PollerTheorems.LosslessIsScan | pkg/watcher/watcher.go:210-224 | between windows and with no drop, the enqueued jobs are one scan of (startBlock, cursor] |
| PollerTheorems.BatchIndependence | pkg/watcher/watcher.go:210-224 | watchers with any spans, sizes, failures, heads and schedules that reach the same block enqueue the same jobs in the same order |
| PollerTheorems.WindowDrops | pkg/watcher/watcher.go:246-254 | a window begun with n queued and m to send drops at most max(0, n + m - queueSize) under any schedule, exactly that many if no job is taken and the context stays live; the queue never exceeds its size |
| PollerTheorems.DropBound | pkg/watcher/watcher.go:246-254 | drops made plus drops still unavoidable never grow within a window, and stay constant when no room is made |
| Shutdown.ShutdownSafety | pkg/watcher/watcher.go:135-185 | over every run nothing panics, the channel is closed at most once and only on the ctx.Done path, the Stop and cancelled-poll paths leave it open, and the worker wait group is the number of workers that have not returned, the watcher one 1 exactly while the poller runs |
| Shutdown.SelectIsTotal | pkg/watcher/watcher.go:246-254 | the select of a send never blocks; default fires iff the queue is full and the context live, that is iff neither other case is ready |
| Shutdown.SilentForGood | pkg/watcher/watcher.go:142-155 | after an aborted send, a close or a return, no continuation offers a job or moves the cursor |
| Shutdown.StopWaits | pkg/watcher/watcher.go:170 | Stop can return only when no poller is running |
| Shutdown.RemainingDecreases | pkg/watcher/watcher.go:142-145 | once the poller offers no more, every step of anyone lowers a measure over queue, workers, context and Stop |
| Shutdown.ShutdownBound | pkg/watcher/watcher.go:142-145 | so every run from there is no longer than the measure |
| Shutdown.ShutdownEnd | pkg/watcher/watcher.go:142-172 | where it ends: after cancellation no worker lives and the poller has returned; after Stop alone every queued job was handled unless no worker was left |
| Shutdown.StopLeavesWorkers | pkg/watcher/watcher.go:161-195 | without cancellation every spawned worker stays alive and the channel open, whatever Stop does |
| Invariants.InvRun | pkg/watcher/watcher.go:117-260 | every run keeps wait-group counts, window tiling, channel order, accounting of offers and conservation of taken jobs |
| Watcher.Watcher.Interference | pkg/watcher/watcher.go:117-195 | any steps of all other goroutines are a run of the machine that leaves one's own state alone |
| Watcher.Watcher.Offer | pkg/watcher/watcher.go:246-254 | the select around a send: a sent job ends the queue, a dropped one met a full channel and a live context, an abort needs a done context and offers nothing |
| Watcher.Watcher.DispatchLogs | pkg/watcher/watcher.go:243-257 | the loop offers exactly the routed jobs of the logs, or stops at a strict initial part on cancellation |
| Watcher.Watcher.ProcessAllContractEvents | pkg/watcher/watcher.go:228-260 | a failed filter offers nothing, success offers exactly the window's jobs, cancellation a strict initial part |
| Watcher.Watcher.BeginWindow | pkg/watcher/watcher.go:206-215 | the uint64 code opens the window min(head, cursor + span + 1), or none |
| Watcher.Watcher.PollEvents | pkg/watcher/watcher.go:197-226 | each outcome iff its cause; the cursor moves only after the whole window was offered, and every failure leaves it |
| Watcher.Watcher.PollerTurn | pkg/watcher/watcher.go:140-157 | one turn of the poller's loop: without a tick it closes the channel and returns, or returns on quit, by which of the two is ready; with one it may poll, and then goes on exactly with the next window committed and its jobs offered, or with cursor, windows and offers unchanged; an abort leaves a strict initial part offered |
| Watcher.Watcher.CloseAndWait | pkg/watcher/watcher.go:142-146 | the channel is closed, the wait ends under every schedule, and the poller returns with no worker left, unless a handler's panic ends the process |
| Watcher.Watcher.WorkerTurn | pkg/watcher/watcher.go:179-193 | a worker leaves only on a done context or a closed, drained channel, writing nothing; else it runs the handler of the oldest job, and after whatever all others write meanwhile the store holds the replay of all jobs applied, this one last |
| Watcher.Watcher.RequestStop | pkg/watcher/watcher.go:161-167 | Stop closes quit once, and reports an error iff already stopped |
| Watcher.Watcher.FinishStop | pkg/watcher/watcher.go:170-173 | Stop returns only when the poller is not running |
| Records.RowLaws | pkg/model/model.go:87-107 | the three status groups are disjoint columns, an update changes only its own, and groups plus identity columns make up the row |
| Records.CreationRace | pkg/store/store.go:47-69 | creating and updating a row commute iff the row existed or the update changes nothing |
| Creations.LostUpdates | pkg/store/store.go:47-108 | in any run with creations a row created on the way has its created identity, and a group as if it had been there from the start iff a later update wrote it or the early ones left no trace to lose |
| Creations.CreatedLate | pkg/store/store.go:47-69 | after any run, creating a row that is not there leaves it as created, whatever was handled about it |
| Creations.ReplayRecoversLost | pkg/watcher/watcher.go:126 | wherever a run with creations stopped, a replay of the scans gives the swaps of a clean replay over tables that had all the rows at once |
| Creations.RestartRecoversLost | pkg/watcher/watcher.go:126 | so does a restart that catches up, if no two events race |
| Store.Store.CreateSwap | pkg/store/store.go:47-49 | inserts unless the key is taken, which is an error and changes nothing |
| Store.Store.UpdateSwapInitiate | pkg/store/store.go:51-69 | sets transaction hash, filled amount and block of the row with that key and changes nothing else; no row is an error and no change |
| Store.Store.UpdateSwapRedeem | pkg/store/store.go:71-89 | the same for redeem transaction hash, secret and block |
| Store.Store.UpdateSwapRefund | pkg/store/store.go:91-108 | the same for refund transaction hash and block |
| Store.Store.WriteCreateOrder | pkg/store/store.go:110-113 | inserts unless the id is taken; a redelivery is an error and changes nothing |
| Fleet.FirstOrderIsRead | pkg/store/store.go:110-122 | for an id that was new, a read after any run gives the first order applied under it, or nothing before that, and gives the same after every continuation |
| Replays.ReplaySwaps | pkg/store/store.go:51-108 | after any writes the same rows exist with the same identity, and each group is the last one written to it, or the original |
| Replays.ReplayOrders | pkg/store/store.go:110-122 | after any writes an order id holds its original row, or the first inserted one |
| Replays.OrderIrrelevantIffAgree | pkg/store/store.go:51-113 | every permutation of a list of writes leaves the same tables iff no two of them conflict |
| Replays.SwapsConfluence | pkg/store/store.go:51-108 | without racing updates only the set of writes matters to the swaps, not order or repetition |
| Replays.OrdersConfluence | pkg/store/store.go:110-113 | without racing inserts the same of the orders |
| Replays.Convergence | pkg/store/store.go:51-108 | replaying a log over any reordered, repeated or lossy application of its updates gives the clean replay's swaps table |
| Replays.RepairsIffRewrites | pkg/store/store.go:51-108 | it does so for every table iff the log rewrites every group that was written |
| Replays.RedeliveryIsNoOp | pkg/store/store.go:51-113 | table by table, without conflicts in it, redelivery before or after the log changes nothing |
| Handlers.ConstructHtlcHandlers | pkg/handlers/htlc/htlc.go:51-59 | distinct ids of Initiated, Redeemed and Refunded map to their handlers and nothing else does; a missing name counts as the zero hash and a later equal id wins |
| Handlers.ConstructOrderbookHandlers | pkg/handlers/orderbook/orderbook.go:38-45 | the same for Created and Filled |
| Handlers.HandleInitiatedEvent | pkg/handlers/htlc/htlc.go:61-76 | the row the event's order id spells gets the log's transaction hash and block and the event's amount, all else stays; no store, a log that does not parse and a missing row are each their error |
| Handlers.HandleRedeemedEvent | pkg/handlers/htlc/htlc.go:78-93 | the same with the event's secret in the redeem columns |
| Handlers.HandleRefundedEvent | pkg/handlers/htlc/htlc.go:95-109 | the same for the refund columns |
| Handlers.HandleCreatedEvent | pkg/handlers/orderbook/orderbook.go:47-76 | the order goes in under the digest of transaction and secret hash, each of its fifteen columns as the log and the unpacked order have it; a known id is a duplicate-key error, data shorter than three words panics |
| Handlers.RunHandler | pkg/watcher/watcher.go:187 | the handler a job names makes that job's write and no other, and reports what the store, its tables and the log make of it |
| Handlers.SameCreateID | pkg/handlers/orderbook/orderbook.go:57 | two (transaction hash, secret hash) pairs get the same order id iff they are the same pair or collide |
| Handlers.KeysArePlaces | pkg/handlers/htlc/htlc.go:70-108 | two jobs write to the same columns, or the same order, iff they are about the same order id and kind, or the same created pair, or two pairs that collide |
| Handlers.OnePerKeyAgrees | pkg/handlers/htlc/htlc.go:61-109 | with at most one event a key no two updates race, and no two inserts unless two pairs collide |
| Fleet.ScheduleIndependence | pkg/watcher/watcher.go:176-195 | any interleaving of any watchers' workers that handles all that was enqueued leaves each table as one sequential replay of the queues does, if nothing races for that table |
| Fleet.ScheduleIndependenceOnePerKey | pkg/store/store.go:51-113 | in particular, when each event occurs once across all chains, the swaps always and the orders unless two created pairs collide |
| Rescheduling.Reschedule | pkg/watcher/watcher.go:176-195 | whatever a run enqueued and dropped, another enqueues and drops the same and finishes any chosen jobs, fewer than the workers, after all others |
| Rescheduling.SoleWorker | pkg/watcher/watcher.go:176-195 | a single worker finishes jobs in the order they were enqueued |
| Schedules.SwapOutcomes | pkg/watcher/watcher.go:176-195 | over all schedules of what was enqueued a group can end as g iff some queue can end with it, or nothing writes the group and it was g before |
| Schedules.SwapsSettledIffOneEnding | pkg/watcher/watcher.go:176-195 | all schedules leave the same swaps iff no group has two different values that queues can end with |
| Schedules.SwapsSettledIffAgree | pkg/watcher/watcher.go:176-195 | with at least two workers a watcher, iff no two enqueued updates race |
| Schedules.RacesShow | pkg/watcher/watcher.go:176-195 | two racing updates enqueued at watchers with at least two workers leave different swaps under some schedules |
| Schedules.SequentialWatcher | pkg/watcher/watcher.go:176-195 | a lone watcher with one worker leaves the sequential replay of its queue, race or no race |
| Schedules.OrderOutcomes | pkg/watcher/watcher.go:176-195 | over all schedules a new id can end with an order iff some queue has an insert of it with fewer rivals before it than workers |
| Fleet.TablesFollowChains | cmd/builder/builder.go:46-53 | a fleet that has kept up leaves each table as the replay of one scan of each chain does, however batched, retried, scheduled and sized, if nothing races for that table |
| Fleet.Provenance | pkg/store/store.go:51-108 | after any run the same rows exist with the same identity columns |
| Fleet.InitiatedProvenance | pkg/handlers/htlc/htlc.go:61-76 | changed initiate columns are transaction hash, amount and block of an Initiated event about the order id the key spells, handled by a worker and on that chain in a dispatched block |
| Fleet.RedeemedProvenance | pkg/handlers/htlc/htlc.go:78-93 | the same of redeem columns, with the event's secret |
| Fleet.RefundedProvenance | pkg/handlers/htlc/htlc.go:95-109 | the same of refund columns |
| Fleet.GenuineMeans | pkg/watcher/watcher.go:244-247 | a genuine job was finished, its log is on the chain in a dispatched block, and the last contract at its address names its handler for its first topic |
| Fleet.OrderProvenance | pkg/handlers/orderbook/orderbook.go:57-75 | every new order is the first one applied under its id, and its columns are those of a Created event that was handled and is on the chain |
| Fleet.OrdersKept | pkg/store/store.go:110-113 | no continuation of any run overwrites or removes an order |
| Fleet.RestartRepairsSwaps | pkg/watcher/watcher.go:126 | wherever a run stopped, replaying the scans from the start blocks gives the swaps table of a clean replay, with no condition on the events |
| Fleet.RestartConverges | pkg/watcher/watcher.go:126 | a second fleet of any sizes, started over the tables the first left at any moment, ends with each table as if the first had never run, if nothing races for that table |
| CatchingUp.KeepsUp | pkg/watcher/watcher.go:117-260 | from its start block a watcher's machine can reach any block with every job taken and none dropped |
| CatchingUp.CatchesUpIffCalm | pkg/watcher/watcher.go:117-260 | over any tables some run of a fleet scans the chains up to given blocks below 2^63, drops nothing and handles everything, iff no handler panics on what those blocks hold |
| CatchingUp.RestartSucceeds | pkg/watcher/watcher.go:126 | wherever the first run stopped, some run of the second fleet catches up to any such blocks past it under that condition only, and every one that does leaves each table of a clean replay, if nothing races for it |
| BigInt.TextRoundTrip | pkg/model/model.go:144 | both parsers read every printed number back |
| BigInt.TextForm | pkg/model/model.go:144 | a number prints as its decimal digits, most significant first and none of them a leading zero, behind a minus sign if negative and nothing otherwise |
| BigInt.FirstDigitWeighs | pkg/model/model.go:127-165 | a digit string's value counts its first digit by the power of the base |
| BigInt.PrefixSelects | pkg/model/model.go:127-133 | 0b, 0o and 0x, in either case, read the digits behind them in base 2, 8 and 16 |
| BigInt.ZeroSelects | pkg/model/model.go:127-133 | a bare leading zero reads them in base 8 |
| BigInt.ParsersAgree | pkg/model/model.go:127-165 | on every string both parsers give the same number or refusal iff it is no well-formed literal with an underscore or base prefix and no decimal with a leading zero that is 8 or more in magnitude |
| BigInt.DetectsLiterals | pkg/model/model.go:127-133 | base detection reads exactly the strings of its grammar of prefixes, digits and underscores |
| BigInt.DatabaseRoundTrip | pkg/model/model.go:114-145 | Value gives the printed number, and scanning that, as text or bytes, returns it, iff there is one |
| BigInt.JsonRoundTrip | pkg/model/model.go:148-170 | JSON spells the printed number, 0 for none, and returns it |
| BigInt.CodecsAgree | pkg/model/model.go:127-165 | the two decoders treat every string alike under that condition, both read the empty string as 0, bytes do not, and "010" and "1_0" separate them |
| BigInt.BigInt.Scan | pkg/model/model.go:114-137 | null and empty text give 0, an int64 itself, text and bytes the base-detecting reading or an error; the receiver always holds a number afterwards |
| BigInt.BigInt.UnmarshalJSON | pkg/model/model.go:156-170 | null and empty text give 0, other text the decimal reading, or no number and an error; other JSON is an error and changes nothing |

## Left out

- Goroutine loops that run for ever: `start` and `worker` are given one turn at a time (`PollerTurn`, `WorkerTurn`), and their unbounded repetition is the machine's runs.
- Panics in a handler (a Created log with less than three words of data) end the process: the machine knows no handlers, the fleet has no step past one, and the watcher object reports it (`Crashing`); what the process leaves behind is the tables.
- A second Start on a watcher, and a Stop while another waits: not uses the code supports.
- Contexts with a deadline: cancellation gives `context.Canceled`, as the builder's context does.
- Chain reorganisations: the code has no logic for them, so a chain is a fixed function from block number to logs.
- The node's transport: BlockNumber and FilterLogs answer or fail as they like; an answer to block-number bounds is the `eth_getLogs` filter of the blocks, and any other bounds get an arbitrary list through the same filter. That an answer holds no log without topics, which `eth_getLogs` promises for such a query, is assumed (`Routing.AnswerHasTopic`); the code reads the first topic unchecked.
- Gorm and Postgres beyond keyed rows: migration, timestamps, soft deletion, connection errors, SQL column types.
- Log parsing, ABI unpacking and SHA-256: total-or-error functions; of SHA-256 nothing is assumed.
- `NewContractConfig`, `HTLCConfig` and `OrderbookConfig`: name lookups and contract calls before a watcher exists.
- `FillOrder`, `MatchedOrder`, `Strategy` and the print in `handleFilledEvent`: data declarations and a message.
- Configuration files, signals, logging, tickers and the `main` programs.
- JSON text below strings, null and anything else: the standard library's decoder.
