# Verified model of the event history and IPv4 filter services

A log-filtering client builds an event from every log line and sends the events over gRPC, in one unary
request or as a stream; a history server validates them, saves them in PostgreSQL through a small connection
pool, and answers queries. This project models that pipeline in Dafny and proves what it keeps: which
connection is where, who wakes whom, which events reach the store on every way a save can end, and what a
query may answer.

| file | models |
|---|---|
| `PoolProtocol.dfy`, `PoolSafety.dfy`, `PoolProgress.dfy` | the pool as a protocol between any number of threads: one owner per connection, no lost wake-up, exactly when it cannot get stuck |
| `ConnectionPool.dfy` | the pool and its movable handles as classes, preparation by rotation, agreement with the protocol |
| `Events.dfy` | events, wire messages, conversions, validation |
| `Schema.dfy`, `EventStore.dfy` | the two tables, their constraints, one transaction per save, the two queries |
| `Paging.dfy`, `Queries.dfy` | what a query may answer, exactly when paging is exact or complete, statistics |
| `HistoryService.dfy` | the server's unary and streaming saves |
| `ConcurrentSaves.dfy` | many saves interleaving over one store |
| `IngestClient.dfy` | building events, choosing the route, the whole way from log lines to the store and back |
| `Tokenizer.dfy`, `FilterCommand.dfy`, `DottedQuad.dfy` | the command line and the address printer, with their inverses |
| `Collections.dfy`, `Permutations.dfy` | sums, maps, filters, permutations and pages of sequences |

To verify: `dafny verify dfyconfig.toml`.

## How it is modelled

- **The pool twice.** In `PoolProtocol` every critical section under the mutex is one step and `notify_one`,
  which follows the unlock, is a step of its own; threads run arbitrary scripts of acquire, move and destroy.
  In `ConnectionPools` the same objects are classes. `ReturnAgrees` and `AcquireAgrees` connect the two.
  A connection that is closed and cannot be reopened goes back to the queue closed. The "pool size reduced"
  branch is in `ReturnConnection`, but both callers pass a connection, so it is never reached; a slot is lost
  only when locking or pushing throws, which is the step `Lose` and the input `pushes == false`. A pool is
  halted when no thread can move short of a spurious wake-up or a timeout; `Peak` is the most connections a
  thread's script holds when it reaches an acquire, and a script is `Balanced` when it leaves no connection
  behind, as handles going out of scope do.
- **The database.** `Dialect` stands for how PostgreSQL reads and prints timestamps and addresses: partial
  functions about which nothing is assumed unless a contract says so. `TimeText` does the same for protobuf's
  timestamps. A save is one transaction; the input `Fault` says which statement fails, if any. The order in which a query lists tied timestamps is an input
  (`plan`), restricted only to be a sorted listing of the matching rows.
- **The outside.** The clock, the transport, cancellation and the end of a stream are inputs (`Reading`,
  `Conditions`, `cancelled`, `incoming`). A stream write that succeeds only hands its message over: how many
  messages are delivered before the call ends, and whether the answer arrives, are inputs of their own. The
  log-filter library is an arbitrary sequence of batches, a command line an arbitrary string.
- **Where a loop body was long** (`SaveEventsStream`, `SaveEvents`, `GetEvents`) it is split into methods
  for one round and for the rest; the state and the order of the steps are those of the source.
- `uint32_t` shifts and masks are divisions and remainders; `int` limits, the `int` to `size_t` conversion and
  the 32-bit wire fields are explicit.

## What the code does that its documentation does not say

- `Event::Status` marks `UNSPECIFIED` as ALL, but as a filter it selects nothing (`UnspecifiedMatchesNothing`).
- Enum numbers the protocol does not declare pass validation and are refused by the schema
  (`ValidatedMeetsChecks`), failing the whole batch.
- A stream that ends early without the server seeing the cancellation after an event is taken as complete, and
  its last partial batch is saved, while the client reports failure (`SaveBatch`: then what is stored is not
  whole batches unless the number of events read happens to be).
- Saving a file without non-empty lines reports failure (`Execute`), because the unary route refuses an empty
  request; the client test with an empty span assumes a saver that accepts it.
- The service name is read from `POSTGRES_HOST` (`services/ipv4_filter/config/config.h:14`); unless it comes
  out as `ipv4_filter`, every save fails and stores nothing (`Execute`).
- Page by page, tied events may be shown twice or never; timestamps have one-second resolution, so ties are
  common. `PagingExactIff` and `PagingCompleteIff` say exactly when this cannot happen.
- A negative limit or offset is accepted and reaches the server as a number just below 2^32
  (`NegativeNumberWraps`).
- A thread that holds a connection while it acquires another can stop the pool; `StopsIff` says exactly when.
- Preparing the pool never waits, even when pushes throw (`AfterOneMore`), but it can then leave a pool with
  fewer slots, or none.

## Model

| member | source | states |
|---|---|---|
| `PoolProtocol.ApplyPlaces` | services/history/infrastructure/db/pg_conn_pool.h:69-154 | every step of every thread leaves each connection in as many places as before, except that a reconnect swaps one connection for a new one and a throwing lock or push drops one |
| `PoolProtocol.ApplyWakeupOk` | services/history/infrastructure/db/pg_conn_pool.h:105-154 | every step, spurious wake-ups and timeouts included, keeps: nobody sleeps, or idle connections are at most woken waiters plus returners yet to notify |
| `PoolProtocol.ReachableInv` | services/history/infrastructure/db/pg_conn_pool.h:105-154 | conservation, the wake-up bound and tidy handles hold after every schedule of any number of threads |
| `PoolSafety.OnePlaceAtATime` | services/history/infrastructure/db/pg_conn_pool.h:69-154 | under every interleaving of acquires, moves, self-assignments, overwrites and destructions, a connection is in one place only: one queue position, one live handle or one returner |
| `PoolSafety.EveryPlaceIsASite` | services/history/infrastructure/db/pg_conn_pool.h:69-154 | and a connection that is counted anywhere is at such a site |
| `PoolSafety.PoolSizeConserved` | services/history/infrastructure/db/pg_conn_pool.h:126-154 | idle plus held plus in flight plus lost slots equals the pool size in every reachable state; failed reconnects and timeouts lose nothing |
| `PoolSafety.NoLostWakeup` | services/history/infrastructure/db/pg_conn_pool.h:105-154 | in every reachable state with a sleeper, idle connections do not outnumber the threads on their way to notice them |
| `PoolSafety.QuietPoolHasNoSleepers` | services/history/infrastructure/db/pg_conn_pool.h:105-154 | with nothing held, in flight, woken or unnotified, and not every slot lost, nobody sleeps |
| `PoolSafety.OnlyReconnectsAdd` | services/history/infrastructure/db/pg_conn_pool.h:129-154 | under every schedule a connection found anywhere was there at the start or comes from a reconnect since |
| `PoolSafety.TimedAcquireReturns` | services/history/infrastructure/db/pg_conn_pool.h:114-124 | by its own steps alone a thread in a timed acquire gets the front connection, or gives up exactly when the queue is empty |
| `PoolSafety.SpuriousWakeupHarmless` | services/history/infrastructure/db/pg_conn_pool.h:105-108 | a wake-up without a notification leads back to the same state |
| `PoolSafety.MovesGoThrough` | services/history/infrastructure/db/pg_conn_pool.h:77-91 | moves go through at once and leave the source bound to no pool; self-assignment changes nothing; an overwritten handle that owns a connection gives it back first |
| `PoolProgress.SchedulesEnd` | services/history/infrastructure/db/pg_conn_pool.h:105-154 | every schedule is at most nine steps per handle operation, one closing per connection and two steps per spurious wake-up long |
| `PoolProgress.NoDeadlock` | services/history/infrastructure/db/pg_conn_pool.h:105-154 | when the threads' peaks and the lost slots add up to less than the pool, a state where no thread can move has every thread finished and every surviving connection queued |
| `PoolProgress.EveryThreadFinishes` | services/history/infrastructure/db/pg_conn_pool.h:105-154 | under that condition every schedule, spurious wake-ups and timeouts included, is bounded and can stop only with all threads finished |
| `PoolProgress.StopsIff` | services/history/infrastructure/db/pg_conn_pool.h:105-112 | the condition is exact: with nothing lost, some schedule gets stuck with a thread unfinished if and only if somebody acquires and the peaks add up to at least the pool size |
| `PoolProgress.EveryoneCanFinish` | services/history/infrastructure/db/pg_conn_pool.h:105-154 | below that bound some schedule without any fault gets every thread through |
| `PoolProgress.RepositoryCallsFinish` | services/history/infrastructure/db/postgres_events_repo.cc:49-84 | the repository's own use, acquire and release per call, never deadlocks however many threads call |
| `ConnectionPools.OpenPool` | services/history/infrastructure/db/pg_conn_pool.h:40-55 | the i-th of `poolSize` queued connections is number i, open and unprepared; there is no pool exactly when one of them cannot be opened |
| `ConnectionPools.ConnectionPool.Acquire` | services/history/infrastructure/db/pg_conn_pool.h:105-112 | the handle owns the front connection, the rest of the queue keeps its order |
| `ConnectionPools.ConnectionPool.AcquireFor` | services/history/infrastructure/db/pg_conn_pool.h:114-124 | it gives up exactly on an empty queue and then changes nothing |
| `ConnectionPools.ConnectionPool.ReturnConnection` | services/history/infrastructure/db/pg_conn_pool.h:129-154 | an open connection goes to the back; a closed one is replaced by a new unprepared one if reconnecting works and goes back closed if not; a throwing push leaves the queue as it was |
| `ConnectionPools.ConnectionHandle.Move` | services/history/infrastructure/db/pg_conn_pool.h:77-80 | the new handle takes over pool and connection, the old one is left with neither |
| `ConnectionPools.ConnectionHandle.MoveAssign` | services/history/infrastructure/db/pg_conn_pool.h:81-91 | self-assignment changes nothing; otherwise an overwritten connection goes back to its pool, whose queue is left alone if the push throws, the source is emptied and the target holds what the source held |
| `ConnectionPools.ConnectionHandle.Destroy` | services/history/infrastructure/db/pg_conn_pool.h:69-73 | a connection still owned goes back to the pool, or leaves its queue alone if the push throws; a moved-from handle gives nothing back |
| `ConnectionPools.AcquireAgrees` | services/history/infrastructure/db/pg_conn_pool.h:105-112 | the protocol's acquire and the sequential one take the same connection off the same queue |
| `ConnectionPools.ReturnAgrees` | services/history/infrastructure/db/pg_conn_pool.h:69-154 | a thread's uninterrupted protocol steps through ReturnConnection, with the push or its exception, have the effect of the sequential method on queue and handles |
| `ConnectionPools.ClosedIsReplaced` | services/history/infrastructure/db/pg_conn_pool.h:129-154 | a connection that closes while it is held is replaced by a new, open one when given back |
| `ConnectionPools.CreatePreparedPool` | services/history/infrastructure/db/pg_conn_pool.h:163-180 | when every round works, the queue holds the connections in their order, open and prepared exactly once; for every other outcome of opening, preparers, sockets, reconnects and pushes it is what the rotation lemmas are about; acquiring never waits |
| `ConnectionPools.RoundsRotate` | services/history/infrastructure/db/pg_conn_pool.h:163-180 | after i rounds the untouched rest is in front and behind it, in order, what each round put back: the connection it took, or a new one if that had closed; rounds whose push threw are missing |
| `ConnectionPools.GoodRoundsPrepareOnce` | services/history/infrastructure/db/pg_conn_pool.h:163-180 | when nothing fails the queue is rotated by i with exactly the first i prepared; after a full turn order is restored and each was prepared exactly once |
| `ConnectionPools.UnpreparedIsReborn` | services/history/infrastructure/db/pg_conn_pool.h:129-180 | when no preparer throws, then under every later schedule of any threads sharing the prepared pool, a connection anywhere is unprepared exactly when a reconnect made it |
| `Events.StatusTextInverse` | shared/core/entities/event.h:52-75 | a text is read as a status exactly when it is that status's text; every other text throws |
| `Wire.EventSurvivesWire` | shared/utils/utils.cc:126-258 | an event is unchanged by the way over the wire exactly when its decision is accepted, rejected or empty |
| `Wire.ValidateAll` | services/history/network/grpc_event_service_impl.cc:193-206 | a request is valid exactly when it is non-empty and all its events are; otherwise the first failing event decides the verdict |
| `Wire.ValidIff` | services/history/network/grpc_event_service_impl.cc:216-237 | an event is valid exactly when its service is ipv4_filter, timestamp and raw line are not empty, and status and decision are not 0 |
| `Wire.FilterSurvivesWire` | shared/utils/utils.cc:110-235 | a filter can be sent exactly when its bounds parse; it then arrives unchanged exactly when limit and offset fit 32 bits and the bounds are in normal form, and otherwise only those change |
| `Schema.ValidatedMeetsChecks` | services/history/network/grpc_event_service_impl.cc:216-237 | a validated event meets all CHECK constraints exactly when its enum numbers are declared ones |
| `Schema.InsertableIff` | sql/schema.sql:1-19 | an event is accepted exactly when source, status and decision are among the values listed and its texts parse |
| `Schema.ValidatedRefusedOnlyForText` | sql/schema.sql:1-19 | a validated event with declared enums is refused only for the text of its timestamp or address |
| `Schema.SaveThenRead` | services/history/infrastructure/db/postgres_events_repo.cc:53-146 | reading back a saved event gives it unchanged up to the normal form of timestamp and address, and exactly unchanged iff both were in normal form |
| `Schema.InsertAppends` | services/history/infrastructure/db/postgres_events_repo.cc:55-76 | the two inserts of one event append it to the sequence the tables represent and keep one payload per event |
| `EventStores.EventStore.SaveEvents` | services/history/infrastructure/db/postgres_events_repo.cc:42-84 | all or nothing: the events are appended in order, or both tables are exactly as before, with the precise condition for each, whichever statement fails |
| `EventStores.EventStore.Transaction` | services/history/infrastructure/db/postgres_events_repo.cc:51-79 | the insert loop succeeds exactly when every event is insertable, ids remain and no statement fails |
| `EventStores.OutcomeIff` | services/history/infrastructure/db/postgres_events_repo.cc:42-84 | nothing to save is Ok; otherwise it throws exactly when no connection can be had, and is stored exactly when no statement fails, every event is acceptable and ids up to 2147483647 suffice |
| `EventStores.PlanIsOrdering` | services/history/infrastructure/db/postgres_events_repo.cc:22-32 | listing the joined tables by any sorted plan is a timestamp-sorted permutation of exactly the saved events that match |
| `EventStores.EveryOrderingIsPlanned` | services/history/infrastructure/db/postgres_events_repo.cc:22-32 | conversely every sorted permutation of the matching events is the listing of some plan |
| `EventStores.JoinShowsEachOnce` | services/history/infrastructure/db/postgres_events_repo.cc:23-26 | the LEFT JOIN in any order shows each saved event once, never with a missing payload |
| `EventStores.EventStore.GetEvents` | services/history/infrastructure/db/postgres_events_repo.cc:86-154 | every event returned has the status and source asked for and lies in the window, both ends included; sorted by time, as many as offset and limit leave, none more often than saved, and without either all of them up to a billion; it fails exactly when the database does or a bound does not parse |
| `EventStores.EventStore.GetStats` | services/history/infrastructure/db/postgres_events_repo.cc:156-182 | unless the database fails, the three counts over the table are those of the saved sequence, and total is success plus error |
| `EventStores.StatsFollowRun` | services/history/infrastructure/db/postgres_events_repo.cc:34-39 | over every run of saves each count grows by what the successful batches contain and by nothing for failed ones |
| `Queries.AnswerExists` | services/history/infrastructure/db/postgres_events_repo.cc:22-32 | every query has an answer |
| `Queries.WindowSplits` | services/history/infrastructure/db/postgres_events_repo.cc:28-29 | the time bounds are inclusive: a window cut after an instant splits into two that share nothing and miss nothing |
| `Queries.PagingKeepsTimes` | services/history/infrastructure/db/postgres_events_repo.cc:31-32 | pages at 0, k, 2k, ... joined show the timestamps of the unpaged query, whatever order ties take in each query |
| `Queries.PagingExactIff` | services/history/infrastructure/db/postgres_events_repo.cc:31-32 | the joined pages are the unpaged answer, whatever order ties take in each query, if and only if matches that share a timestamp are equal rows |
| `Queries.PagingIsExactWithoutTies` | services/history/infrastructure/db/postgres_events_repo.cc:31-32 | so with distinct timestamps they always are |
| `Queries.PagingCompleteIff` | services/history/infrastructure/db/postgres_events_repo.cc:31-32 | page by page every match is shown exactly as often as it was saved, in every case, if and only if no page boundary falls between different rows of one timestamp |
| `Queries.UnspecifiedMatchesNothing` | shared/core/entities/event.h:23 | a filter for status unspecified selects no stored event |
| `Queries.StatsMatchQueries` | services/history/infrastructure/db/postgres_events_repo.cc:31-39 | up to a billion rows each count is the length of the matching status query's answer |
| `HistoryService.MessageKeepsPrefix` | services/history/network/grpc_event_service_impl.cc:62-106 | each message either keeps "whole batches stored, the rest collected" or ends the call with a prefix stored that fits the exit |
| `HistoryService.StreamStoresPrefix` | services/history/network/grpc_event_service_impl.cc:50-136 | for every stream, cancellation and failure pattern the store gains a prefix: all on success, the whole accepted batches on every other exit |
| `HistoryService.StreamEndsFirst` | services/history/network/grpc_event_service_impl.cc:62-135 | the exit and its position are exactly the first thing that ends the call: an invalid event, a full batch that fails or throws, a cancellation seen, or the save of the rest |
| `HistoryService.StreamSucceedsIff` | services/history/network/grpc_event_service_impl.cc:50-136 | for all faults, a stream succeeds exactly when all events are valid, no cancellation is seen and every batch is stored |
| `HistoryService.ReliableStreamSucceedsIff` | services/history/network/grpc_event_service_impl.cc:50-136 | with no outside failure that is when all events are valid, no cancellation is seen and the schema accepts them all |
| `HistoryService.KthSaveFails` | services/history/network/grpc_event_service_impl.cc:77-89 | each save of a stream can fail by itself: when only the k-th does, exactly the k batches of 1000 before it stay stored |
| `HistoryService.RoutesAgree` | services/ipv4_filter/network/grpc_service.cc:24-41 | for valid events unary and streaming succeed together and then store the same; on failure unary stores nothing, streaming whole batches |
| `HistoryService.HistoryServer.SaveEvent` | services/history/network/grpc_event_service_impl.cc:20-48 | invalid or empty requests are refused untouched; otherwise the store gains all events in order or nothing |
| `HistoryService.HistoryServer.HandleMessage` | services/history/network/grpc_event_service_impl.cc:62-106 | one round of the reading loop does to store, batch and counters what the stream specification says |
| `HistoryService.HistoryServer.SaveEventsStream` | services/history/network/grpc_event_service_impl.cc:50-136 | the call's exit, counters, status and store are those of the specification the prefix and success theorems are about |
| `HistoryService.HistoryServer.GetEvents` | services/history/network/grpc_event_service_impl.cc:138-169 | the reply is the wire form of what the filter asks for: the status number and source asked for, no more than the limit, and everything without a filter; it fails exactly when the database does or a bound cannot be read |
| `ConcurrentSaves.ApplyInv` | services/history/infrastructure/db/postgres_events_repo.cc:51-83 | every begin, insert, commit, rollback and stop of any save keeps the store invariant, with ids drawn from one shared sequence |
| `ConcurrentSaves.EachSaveShowsPrefix` | services/history/network/grpc_event_service_impl.cc:62-119 | however saves interleave, the committed events of each, in id order, are a prefix of its events cut at a multiple of the batch size or the end |
| `ConcurrentSaves.StoreGrowsBySum` | services/history/network/grpc_event_service_impl.cc:62-119 | the store keeps what it had and grows by exactly the sum of what the saves committed |
| `ConcurrentSaves.EveryInterleavingRuns` | services/history/network/grpc_event_service_impl.cc:62-119 | no save waits for another: every interleaving of what the saves do, with any ids skipped and any last batch rolled back, is possible and leaves each with exactly its batches committed |
| `ConcurrentSaves.AnyCutsInAnyOrder` | services/history/network/grpc_event_service_impl.cc:62-119 | for every choice of one cut per save and every order of the commits some schedule commits exactly those prefixes in that order |
| `ConcurrentSaves.AllSavesCanFinish` | services/history/network/grpc_event_service_impl.cc:62-119 | from every start some schedule commits all events of all saves |
| `DottedQuad.QuadRoundTrip` | shared/utils/utils.cc:40-48 | four-octet parsing recovers every 32-bit address from its text, which is 7 to 15 characters long |
| `DottedQuad.QuadOfOctets` | shared/utils/utils.cc:40-48 | the octets are printed in decimal, the most significant one first |
| `DottedQuad.QuadTextIsPrinted` | shared/utils/utils.cc:40-48 | the printed text is the only one the grammar of section 3.2.2 of RFC 3986 admits for an address |
| `DottedQuad.QuadInjective` | shared/utils/utils.cc:40-48 | no two addresses print alike |
| `Tokenizer.Tokenize` | services/ipv4_filter/main.cc:241-259 | the loop computes the tokens the lemmas below determine |
| `Tokenizer.TokensKeep` | services/ipv4_filter/main.cc:241-259 | no token is empty or holds a quote, and the tokens joined are the line minus quotes and unquoted spaces |
| `Tokenizer.TokensBreakAtSpaces` | services/ipv4_filter/main.cc:241-259 | for every line, each token is made of the kept characters that belong to it, and two kept characters are in the same token if and only if no unquoted space stands between them |
| `Tokenizer.LineTokenizesBack` | services/ipv4_filter/main.cc:241-259 | arguments typed with spaces between them, quoted where needed, tokenize back to themselves |
| `Tokenizer.TypableIffWellFormed` | services/ipv4_filter/main.cc:241-259 | a list of arguments can be typed at all exactly when each is non-empty and quote-free |
| `FilterCommand.ParseEventFilter` | services/ipv4_filter/main.cc:57-98 | the loop computes the parse the lemmas below are about |
| `FilterCommand.ParseOutcome` | services/ipv4_filter/main.cc:57-98 | a command is parsed if and only if every option is accepted; otherwise the first failing option decides between nullopt and an exception |
| `FilterCommand.LoneOptionIgnored` | services/ipv4_filter/main.cc:72-75 | a known last option without a value changes nothing |
| `FilterCommand.StoiReadsInt` | services/ipv4_filter/main.cc:82-87 | printed integers are read back exactly over the range of an int and throw beyond it |
| `FilterCommand.StoiReadsText` | services/ipv4_filter/main.cc:82-87 | any text: spaces are skipped, a sign is taken, then digits up to the first other character; no digits, or a value no int holds, throws |
| `FilterCommand.OneOption` | services/ipv4_filter/main.cc:64-94 | what each option does to the filter, by its name and whatever two characters precede it; from and to are rejected |
| `FilterCommand.UnknownOptionRejects` | services/ipv4_filter/main.cc:64-68 | a name that is none of the six rejects the command |
| `FilterCommand.NegativeNumberWraps` | services/ipv4_filter/main.cc:82-87 | whatever text gives a limit or offset on the line, after tokenizing, parsing and the wire the server has its value modulo 2^32, and the value itself exactly when it is not negative |
| `FilterCommand.CommandLineParses` | services/ipv4_filter/main.cc:57-98 | a Get line that spells out settings, tokenized and parsed, applies them in order |
| `FilterCommand.FilterCommandRoundTrip` | services/ipv4_filter/main.cc:57-98 | every filter without from/to is recovered from any line listing its options, in any order and any spelling of the numbers |
| `FilterCommand.FilterCanBeWritten` | services/ipv4_filter/main.cc:100-120 | settings that list such a filter and a line that spells them are built, and the line is read back as the filter |
| `FilterCommand.ReachableFilters` | services/ipv4_filter/main.cc:57-98 | a Get line gives a filter if and only if it has no from/to, its numbers are sizes of ints and its source service is non-empty and quote-free |
| `FilterCommand.LastValueWins` | services/ipv4_filter/main.cc:77-94 | a repeated option keeps its last value |
| `IngestClient.BuildKeepsEntry` | services/ipv4_filter/adapters/builder/event_builder.cc:5-29 | the log entry can be recovered from the built event; its status, address, decision and reason are the texts for that entry |
| `IngestClient.BuildAll` | services/ipv4_filter/core/use_cases/save_event_use_case.cc:13-26 | the k-th event is built from the k-th non-empty line, and there are no others |
| `IngestClient.BuiltIsValidIff` | services/history/network/grpc_event_service_impl.cc:216-237 | a built event passes validation exactly when the service name is ipv4_filter and the clock text is not empty |
| `IngestClient.BuiltAreGood` | services/ipv4_filter/adapters/builder/event_builder.cc:5-29 | with that service name all built events are valid, unchanged by the wire and acceptable to the schema if the database reads clock texts and dotted quads |
| `IngestClient.NothingWrong` | services/ipv4_filter/network/grpc_service.cc:24-96 | what it takes for nothing to go wrong: every clock text and address can be read, no fault, no cancellation, ids enough, and on the stream everything written and delivered |
| `IngestClient.IngestClient.SaveBatch` | services/ipv4_filter/network/grpc_service.cc:24-96 | success means exactly these events were gained and answered; a failed unary save gained nothing unless only its answer was lost; a failed stream gained a prefix, of whole batches exactly when the server did not finish or read a multiple of 1000; an empty list fails |
| `IngestClient.IngestClient.Execute` | services/ipv4_filter/core/use_cases/save_event_use_case.cc:13-29 | end to end on either route: success means the log grew by exactly one row per non-empty line, in order, each with that line's text, address, status, decision and reason; when nothing goes wrong on the server it succeeds exactly when there is such a line and the call goes through; a wrong service name stores nothing |
| `IngestClient.IngestClient.GetEvents` | services/ipv4_filter/network/grpc_service.cc:140-181 | a filter whose bound does not parse throws; otherwise the client receives events of the status and source it asked for, no more than its limit, everything without a filter; or nothing, exactly when the answer is lost or the query fails |

## Left out

- gRPC channels, retries and progress output: a call is taken to reach the server once; deadlines appear only through what is delivered, cancelled and answered.
- The net-log-filter library and the log file: an arbitrary sequence of batches of entries stands for them.
- PostgreSQL's own parsing and printing of timestamps and addresses, and protobuf's timestamp conversion: abstract functions. Texts with characters a transport or database would refuse are not distinguished.
- EventStores.EventStore.SaveEvents: a commit whose outcome is unknown to the caller is not modelled; a failed commit changes nothing.
- EventStores.EventStore.GetEvents: the branch without any filter is not part of this model, as no call reaches it.
- The statistics messages over the wire, which only copy three numbers.
- ConnectionPools.ConnectionPool.Acquire: the sequential method starts where the wait is over; the wait itself is in the protocol.
- PoolProtocol.Apply: a timed-out acquire leaves an empty handle variable, which gives nothing back, in place of the exception that leaves none; the mutex appears only as the atomicity of a step.
- Response and log messages, the help text, table output and command dispatch.
- Saving a single event through the unary request: the one-element case of the batch.
