# Market data gateway: verified model

This project models three linked parts of the gateway and proves properties of every run of them.

1. **The tick handoff.** The bounded drop-oldest queue of `src/queue/BlockingQueue.hpp` and the consumer thread of
   `src/marketdata/QueueSink.hpp`. `BlockingQueue.dfy` gives the critical sections, a ledger of everything ever
   accepted, and the class. `Handoff.dfy` is the protocol itself: any number of threads, one mutex, one condition
   variable, notifications sent after the unlock, spurious wakeups. `Calls.dfy` ties its history to the calls the
   threads make, both ways. `QueueSink.dfy` is the sink as a class.
2. **The identity pipeline.** The Python upserts and the transaction of a run (`ReferenceData.dfy`,
   `IngestLaws.dfy`, and `Database.dfy` for the statements that change tables in place), the startup query and row
   mapping (`Repository.dfy`), the registry with its three indexes (`Registry.dfy`), and their composition
   (`EndToEnd.dfy`): what a gateway started on any database the ingest can leave knows, subscribes to and routes.
   `Expiries.dfy` follows expiries from payload to gateway.
3. **The symbol grammar.** The parser of `src/marketdata/model.cpp` (`Symbol.dfy`), its string helpers with the
   printers they invert (`Text.dfy`), and the calendar behind an expiry (`Calendar.dfy`).

Functions say what a step does to a value. Where the source updates fields or loops, a class or a method with
loops is proved against those functions. The laws are lemmas about the functions, so they hold of the methods too.

## Where the code differs from its comments or from first expectation

The model follows the code.

- `InstrumentRegistry::add` refuses a duplicate symbol, not a duplicate id (`InstrumentRegistry.cpp:27-34`). So
  `find` and `by_symbol` invert each other exactly when no id is first used for two symbols
  (`Registry.BijectionIffDistinctIds`, a condition on the arguments of `add`);
  `Registry.SharedIdMisroutes` is the input that shows it, and `EndToEnd.LoadedKeys` shows that the database
  supplies distinct ids.
- `InstrumentRepository.hpp:42-44` says an option without strike or right, or a future without expiry, is rejected.
  `InstrumentRepository.cpp:54-68,79-81` falls back to the symbol (`Repository.MappedExactly`).
- `push` returns false on displacement and on a closed queue; its comment names only the first, and only
  displacement counts in `dropped()` (`BlockingQueue.hpp:39-57`).
- The comment on `split` caps the number of parts; the code does not (`model.cpp:29-44`). The arity check of the
  caller is what rejects longer symbols.
- Any text with `_` is read as an index name before hyphens are looked at (`model.cpp:103-113`), so `A_B-27JUN25`
  is an index (`Symbol.AcceptedKey`).
- The comment at `reference_data.py:15-18` calls tick_size the only mutable column. The upsert of `instrument`
  therefore keeps instrument_type when a symbol comes back as another kind, and a second subtype row appears beside
  the first. `IngestLaws.ExclusiveIffKindsAgree` says exactly when that does not happen and
  `IngestLaws.ReusedSymbolHasTwoSubtypes` gives the input.
- The startup query takes an option row's expiration before a future row's (`InstrumentRepository.cpp:23-27`), and
  nothing ever deletes a subtype row. So a future once listed as an option can be loaded with that option's expiry,
  even after a run that lists it correctly: `Expiries.OldOptionSpeaksForFuture` is the history,
  `Expiries.FutureReachesGateway` says exactly which expiry arrives, and `Expiries.FutureExpiryArrives` that it is the
  future's own where no symbol was ever reused.
- Channels of registered keys are not distinct in general: perpetual and unknown keys all have the empty channel.
  `Registry.ChannelsDistinctIff` and `Registry.RoutingIff` say exactly when they are distinct and route, and
  `Registry.PerpetualsMisroute` is the input that shows it. No key loaded from the database is of these kinds.
- The spot index is not registered after every committed run: `ON CONFLICT` keeps the type its name first had.
  `EndToEnd.SpotIndexRegistered` gives the exact condition on the payloads, `EndToEnd.SpotIndexLost` the input.
- `QueueSink` with an empty handler pops ticks and drops them without counting (`Sink.SilentSink`);
  `Sink.QueueSink.Stop` states exactly when `handed + dropped` accounts for every accepted tick.

## Model

| member | source | states |
|---|---|---|
| BoundedQueue.BlockingQueue.Push | src/queue/BlockingQueue.hpp:42-58 | accepts unless closed; the oldest item goes, and is counted, exactly when the queue is full; false on displacement and on closed alike |
| BoundedQueue.BlockingQueue.Pop | src/queue/BlockingQueue.hpp:62-71 | the oldest item; false only when closed and drained; waits only while empty and open |
| BoundedQueue.BlockingQueue.Close | src/queue/BlockingQueue.hpp:75-81 | closes, keeps every queued item poppable |
| BoundedQueue.BlockingQueue.Dropped | src/queue/BlockingQueue.hpp:86-89 | the counter is the number of items the history shows as displaced |
| BoundedQueue.BlockingQueue.Size | src/queue/BlockingQueue.hpp:91-94 | never above capacity, and equal to accepted minus delivered minus dropped |
| BoundedQueue.HistoryRefinement | src/queue/BlockingQueue.hpp:42-71 | over every sequence of critical sections: each accepted item is exactly one of delivered, displaced, queued; the queue is the suffix of the accepted items from delivered + dropped on; pops return items in strictly increasing acceptance order |
| BoundedQueue.ApplyKeepsBalance | src/queue/BlockingQueue.hpp:42-81 | each critical section keeps the history and the queue in agreement |
| BoundedQueue.DisplacedExactly | src/queue/BlockingQueue.hpp:49-54 | item i is displaced if and only if some push accepts item i + capacity while i is still queued |
| BoundedQueue.DeliveredFresh | src/queue/BlockingQueue.hpp:39-54 | at its pop an item has fewer than capacity newer accepted items |
| BoundedQueue.PushOnly | src/queue/BlockingQueue.hpp:42-58 | n pushes alone leave exactly the newest min(n, capacity) items and count the rest |
| BoundedQueue.ClosedForGood | src/queue/BlockingQueue.hpp:46-48 | after close nothing is accepted or displaced again and the queue only shrinks |
| Handoff.StepKeepsInv | src/queue/BlockingQueue.hpp:42-81 | every move of every thread keeps mutual exclusion, the sequential history, and that no sleeper is forgotten |
| Handoff.EveryRun | src/queue/BlockingQueue.hpp:42-81 | every interleaving with spurious wakeups is some sequence of critical sections, so the history laws hold of it |
| Handoff.NoLostWakeup | src/queue/BlockingQueue.hpp:56-80 | whenever anybody sleeps, queued items never outnumber woken consumers plus unsent notify_one calls, and on a closed queue a notify_all is still unsent |
| Calls.CallsAreConserved | src/queue/BlockingQueue.hpp:42-81 | over every run and for every item: push calls begun are pushes entered plus those on their way in, closes likewise, and items popped are handler calls returned plus those running |
| Calls.PushTakesEffect | src/queue/BlockingQueue.hpp:42-58 | with the mutex free a push can be called and run: on an open queue its item is the newest accepted and a notification is owed, on a closed one nothing changes |
| Calls.CloseTakesEffect | src/queue/BlockingQueue.hpp:75-81 | with the mutex free a close can be called and run: closed, nothing lost, a notify_all owed |
| Calls.PopTakesEffect | src/queue/BlockingQueue.hpp:62-71 | with the mutex free a pop can be called and run: the front item in hand, or exit when closed, or sleep |
| Calls.NotifiedSleeperPops | src/queue/BlockingQueue.hpp:56-70 | a sleeper picked by notify_one that gets the mutex leaves with the front item |
| Calls.ClosedSleeperWakes | src/queue/BlockingQueue.hpp:62-81 | notify_all leaves nobody asleep, and a sleeper that then gets the mutex pops or exits |
| Calls.SpuriousWakeupIsHarmless | src/queue/BlockingQueue.hpp:64 | a sleeper woken for nothing evaluates the predicate again and sleeps on |
| Calls.HandlerTakesEffect | src/marketdata/QueueSink.hpp:58-65 | a handler that returns has its item logged, and its thread pops again |
| Calls.MovesAreCounted | src/marketdata/QueueSink.hpp:58-65 | the step counts in the bounds below are numbers of events |
| Handoff.BusyThreadCanMove | src/queue/BlockingQueue.hpp:42-81 | any thread not at rest leaves some protocol step enabled: no deadlock |
| Handoff.StuckIffResting | src/queue/BlockingQueue.hpp:62-81 | no step is left if and only if all threads are outside, asleep or exited, and then sleepers wait on an empty open queue |
| Handoff.StepRank | src/queue/BlockingQueue.hpp:42-81 | a measure of queue length and thread positions falls with each protocol step, and rises by a constant with a call or a spurious wakeup |
| Handoff.StepsAreBounded | src/queue/BlockingQueue.hpp:42-81 | over any run the protocol steps are bounded by the starting measure plus what calls and spurious wakeups add |
| Handoff.ConsumerForever | src/marketdata/QueueSink.hpp:58-65 | a thread in the consumer loop leaves it only by exiting |
| Handoff.ShutdownDrains | src/queue/BlockingQueue.hpp:73-81 | closed and no step left: every consumer has exited, the queue is empty, each accepted item was delivered or displaced and not both |
| Handoff.ShutdownTerminates | src/marketdata/QueueSink.hpp:37-65 | from any reachable closed state and over any events, with producers still pushing, others closing and popping, and sleepers waking spuriously: a consumer makes at most `ExitRank` own moves and has then exited; until then its own move, the lock holder's release or a notify_all is enabled; once awake it never sleeps again |
| Handoff.ExitIsBounded | src/queue/BlockingQueue.hpp:46-71 | on a closed queue nothing any other thread does raises a consumer's distance from exiting, and each of its own moves lowers it |
| Handoff.ExitIsOpen | src/queue/BlockingQueue.hpp:62-81 | on a closed queue a consumer that has not exited always has a move, unless it waits for the lock holder, or asleep for a notify_all still to come |
| Handoff.QuietShutdown | src/marketdata/QueueSink.hpp:37-42 | with no further calls and no spurious wakeups the whole system rests within `Rank` steps, every consumer exited and nothing queued |
| Handoff.SingleConsumer | src/marketdata/QueueSink.hpp:58-65 | with one consumer thread, what it popped is what the handler was given in order, plus the item in hand |
| Handoff.StopLosesNothing | src/marketdata/QueueSink.hpp:37-42 | once the consumer has exited every accepted tick was handled exactly once in acceptance order or is counted as dropped |
| Sink.QueueSink.Start | src/marketdata/QueueSink.hpp:32-35 | the consumer runs with the given handler; on a consumer still joinable the process terminates instead |
| Sink.QueueSink.OnTick | src/marketdata/QueueSink.hpp:44 | unless closed the tick is accepted and newest, the oldest tick making room exactly when the queue is full |
| Sink.QueueSink.Consume | src/marketdata/QueueSink.hpp:58-65 | hands over everything queued in order and exits if and only if the queue is closed |
| Sink.QueueSink.Stop | src/marketdata/QueueSink.hpp:37-42 | closes, drains through the handler, states exactly when every accepted tick is accounted for; what was handed over is always an in-order selection of what was popped |
| Sink.SilentSink | src/marketdata/QueueSink.hpp:58-65 | an empty handler loses a tick: accepted, popped, neither handed over nor counted |
| Text.SplitLoop | src/marketdata/model.cpp:32-44 | the loop ends with separator-free parts whose join is the text |
| Text.SplitExact | src/marketdata/model.cpp:32-44 | the split is the only sequence of separator-free parts that joins to the text |
| Text.SplitCount | src/marketdata/model.cpp:32-44 | one more part than separators, which makes the arity checks sound |
| Text.UpperExact | src/marketdata/model.cpp:19-27 | each letter of the lower alphabet becomes the one at its place in the upper, all else stays |
| Text.ParseDecimalExact | src/marketdata/model.cpp:46-56 | a plain decimal is read if and only if the whole text is digits with at most one point, with that mantissa and scale |
| Text.PrintNatRoundTrip | src/marketdata/model.cpp:46-56 | every natural reads back from its printed digits |
| Text.UnsignedRoundTrip | src/marketdata/model.cpp:46-56 | exactly the numbers of 32 bits are read from their digits |
| Text.DecimalValue | src/marketdata/model.cpp:46-56 | the value of a decimal, a tenth for each place right of the point |
| Text.DecimalRoundTrip | src/marketdata/model.cpp:46-56 | every decimal reads back from its printed form, mantissa and scale |
| Calendar.DayNumberCounts | src/marketdata/model.cpp:82-90 | the closed form numbers 1970-01-01 as day 0 and each next calendar day one higher |
| Calendar.DayNumberIsCivil | src/marketdata/model.cpp:82-90 | on every valid date the day number is the civil formula in 400-year eras, which has no month table |
| Calendar.DatesAreCivil | src/marketdata/model.cpp:82-89 | a date is ok if and only if its month has not ended by that formula |
| Calendar.DateOrder | src/marketdata/model.cpp:82-90 | day numbers order all valid dates as year, month, day do, and distinguish them |
| Calendar.ExpiryOrder | src/marketdata/model.cpp:82-90 | expiries compare as their dates do, are equal only for equal dates, and lie 8 hours past a day boundary |
| Calendar.ExpiryFits | src/marketdata/model.cpp:82-90 | every expiry of 2000 to 2099 fits signed 64-bit nanoseconds |
| Symbol.MonthFromNameLoop | src/marketdata/model.cpp:58-65 | found if and only if the name is one of the twelve, with its number |
| Symbol.MonthTable | src/marketdata/model.cpp:14-17 | the parser's table against the grammar's year, month by month |
| Symbol.ParseDateExact | src/marketdata/model.cpp:69-91 | accepted if and only if the text is one or two day digits, a month name and two year digits naming an existing date |
| Symbol.ParseSymbolSteps | src/marketdata/model.cpp:95-158 | the branches that fill the key field by field compute the specified key, on every text |
| Symbol.ParseExact | src/marketdata/model.cpp:95-158 | accepts a text with key k if and only if the grammar, written without the parser, denotes k |
| Symbol.FormsAreExclusive | src/marketdata/model.hpp:93-98 | no text stands for two keys, and the kind tells the form |
| Symbol.AcceptedKey | src/marketdata/model.cpp:95-158 | the symbol is the input verbatim; Index if and only if the text holds an underscore; a positive strike if and only if it is an option |
| Symbol.FutureRoundTrip | src/marketdata/model.cpp:115-138 | every base, every date of 2000 to 2099: parsing the printed future returns them |
| Symbol.OptionRoundTrip | src/marketdata/model.cpp:115-158 | the same with every positive decimal strike and right |
| Symbol.AcceptedShows | src/marketdata/model.cpp:115-158 | every accepted dated key has a date and a decimal to print |
| Symbol.ParsePrintParse | src/marketdata/model.cpp:95-158 | parse, print, parse keeps every field of any accepted dated symbol, and only one date can be printed |
| Symbol.LeadingZeroDay | src/marketdata/model.cpp:67-76 | "04SEP26" and "4SEP26" are different texts with one expiry |
| Registry.SharedChannel | src/marketdata/InstrumentRegistry.cpp:8-21 | exactly when two keys share a channel at one interval |
| Registry.ChannelParts | src/marketdata/InstrumentRegistry.cpp:8-21 | a channel splits at its dots into prefix, symbol and, for a dated key, interval |
| Registry.ChannelsDistinctIff | src/marketdata/InstrumentRegistry.cpp:8-36 | the channels of a registry are distinct if and only if at most one of the symbols added is a perpetual or an unknown |
| Registry.IntervalMatters | src/marketdata/InstrumentRegistry.cpp:8-21 | the index channel alone is independent of the interval |
| Registry.InstrumentRegistry.Add | src/marketdata/InstrumentRegistry.cpp:23-36 | refuses exactly id 0, is idempotent on a known symbol, otherwise appends, and keeps all indexes in agreement with the list |
| Registry.AddFinds | src/marketdata/InstrumentRegistry.cpp:23-36 | whatever add returns is what the symbol resolves to afterwards |
| Registry.InstrumentRegistry.Find | src/marketdata/InstrumentRegistry.cpp:38-44 | the index lookup is the first key with the id in a linear scan |
| Registry.InstrumentRegistry.BySymbol | src/marketdata/InstrumentRegistry.cpp:46-53 | the index lookup agrees with a linear scan |
| Registry.InstrumentRegistry.BindChannel | src/marketdata/InstrumentRegistry.cpp:64-66 | the binding is recorded; the channel resolves to the id, every other channel as before |
| Registry.InstrumentRegistry.ByChannel | src/marketdata/InstrumentRegistry.cpp:55-62 | the index lookup agrees with a scan of the bindings made |
| Registry.LastBindingFinds | src/marketdata/InstrumentRegistry.cpp:55-66 | a channel resolves to the id of its last binding, and to nothing if and only if nobody bound it |
| Registry.BoundExactly | src/marketdata/InstrumentRegistry.cpp:64-66 | binding keys in turn adds exactly their channels and leaves the others' ids |
| Registry.InstrumentRegistry.IdsOfKind | src/marketdata/InstrumentRegistry.cpp:68-77 | the ids at exactly the slots of a kind, in insertion order |
| Registry.InstrumentRegistry.SubscriptionChannels | src/marketdata/InstrumentRegistry.cpp:79-98 | the channels of the stable index, future, option partition, none twice, one per key if and only if all are streamed |
| Registry.ScanSymbolFinds | src/marketdata/InstrumentRegistry.cpp:46-53 | the scan finds the first key with the symbol, and nothing only if there is none |
| Registry.ScanIdFinds | src/marketdata/InstrumentRegistry.cpp:38-44 | the scan finds the first key with the id, and nothing only if there is none |
| Registry.AddAllSound | src/marketdata/InstrumentRegistry.cpp:23-36 | after any add calls symbols are distinct, no id is 0, every stored key was added and every added symbol resolves |
| Registry.StoredAreFirst | src/marketdata/InstrumentRegistry.cpp:23-36 | the stored keys are exactly the arguments with an id that are first to carry their symbol |
| Registry.AppendAgrees | src/marketdata/InstrumentRegistry.cpp:31-34 | appending a key keeps the indexes in agreement, also under an id already taken |
| Registry.BijectionIffDistinctIds | src/marketdata/InstrumentRegistry.cpp:27-34 | find and by_symbol invert each other if and only if the caller never adds a new symbol under an id first used for another |
| Registry.SharedIdMisroutes | src/marketdata/InstrumentRegistry.cpp:27-34 | two symbols under one id: both are taken and the second resolves to the first key |
| Registry.OfKindStable | src/marketdata/InstrumentRegistry.cpp:68-77 | the partition reads off exactly the slots of a kind, left to right |
| Registry.TruncationSparesSpot | src/marketdata/InstrumentRegistry.hpp:58-69 | in every prefix a key appears only after all keys of lower kinds: a cap never cuts the spot before an option |
| Registry.SubscribedOnce | src/marketdata/InstrumentRegistry.cpp:79-98 | no channel is subscribed twice |
| Registry.OfKindCount | src/marketdata/InstrumentRegistry.cpp:79-98 | one channel per key if and only if every key is streamed |
| Registry.RoutingRoundTrip | src/marketdata/InstrumentRegistry.cpp:38-66 | after binding in any order over any earlier table, a key's channel leads to its id and, with distinct ids, to the key |
| Registry.RoutingIff | src/marketdata/InstrumentRegistry.cpp:8-66 | a registry bound in full, in any order, routes every channel to its key if and only if no two symbols were added under one id and at most one of them has no channel |
| Registry.BoundToLast | src/marketdata/InstrumentRegistry.cpp:64-66 | a channel leads to the last key bound under it, the empty channel included |
| Registry.PerpetualsMisroute | src/marketdata/InstrumentRegistry.cpp:8-66 | two perpetuals are both taken, and after binding the first one's channel leads to the second |
| ReferenceData.AsInt | py/src/shawlynot/quant/db/reference_data.py:81-93 | fails exactly on a fractional size, otherwise keeps the value |
| ReferenceData.NumericRounds | py/src/shawlynot/quant/db/schema.sql:27-39 | a numeric(20, 8) column holds the nearest unit to what was assigned, ties away from zero, and is exact on eight decimals |
| ReferenceData.NumericTakes | py/src/shawlynot/quant/db/schema.sql:27-39 | the column takes a value if and only if it rounds to at most twelve digits before the point |
| ReferenceData.ApplyKeeps | py/src/shawlynot/quant/db/reference_data.py:114-207 | each upsert keeps keys, unique index, parents, subtype completeness, and every earlier identity |
| ReferenceData.RunKeeps | py/src/shawlynot/quant/deribit/reference_ingest.py:34-68 | a run, committed or aborted, keeps all that and removes nothing |
| ReferenceData.EveryHistory | py/src/shawlynot/quant/db/schema.sql:23-66 | over every history of runs each instrument has its venue, and its row in the table its type names; each subtype row has its parent; no perpetual |
| ReferenceData.OneVenue | py/src/shawlynot/quant/db/schema.sql:18-32 | every instrument of every history belongs to the one venue the schema seeds |
| ReferenceData.IdsAreForever | py/src/shawlynot/quant/db/reference_data.py:15-28 | a (venue, symbol) pair keeps its first id, symbol and type through every longer history |
| ReferenceData.ApplyAllSucceeds | py/src/shawlynot/quant/db/reference_data.py:114-207 | a non-empty batch succeeds if and only if the venue exists and each upsert is acceptable by its payload alone |
| ReferenceData.DatedIsFilter | py/src/shawlynot/quant/deribit/reference_ingest.py:49-51 | the comprehension keeps exactly the non-perpetual futures, each as often as it was listed |
| ReferenceData.RunIsAtomic | py/src/shawlynot/quant/deribit/reference_ingest.py:43-68 | exactly when a run commits; otherwise the four instrument tables are unchanged |
| IngestLaws.CommitsExactly | py/src/shawlynot/quant/deribit/reference_ingest.py:43-68 | a run commits if and only if both calls answered, every tick size and strike is within numeric(20, 8), every right is call or put, and every size is absent or a whole number of 32 bits; perpetuals do not matter |
| IngestLaws.AttemptedContents | py/src/shawlynot/quant/deribit/reference_ingest.py:43-66 | what a run writes: each option, each future but the perpetual, and btc_usd with tick size 0.01 |
| ReferenceData.SequencesAfterRun | py/src/shawlynot/quant/db/reference_data.py:19-28 | a committed run takes one instrument id for each upsert, an aborted one gives nothing back |
| ReferenceData.FractionalSizeAborts | py/src/shawlynot/quant/db/reference_data.py:81-93 | one fractional size on any option or dated future aborts the run and changes no instrument table |
| IngestLaws.LastWriteWins | py/src/shawlynot/quant/db/reference_data.py:19-76 | every cell of every row after a batch: the last write for its symbol, or untouched |
| IngestLaws.UpsertsIdempotent | py/src/shawlynot/quant/db/reference_data.py:19-76 | the same upserts again leave every table as it was |
| IngestLaws.RunIdempotent | py/src/shawlynot/quant/deribit/reference_ingest.py:34-68 | the same payload run twice leaves the tables as one run does, from any consistent database |
| IngestLaws.ExclusiveIffKindsAgree | py/src/shawlynot/quant/db/reference_data.py:15-28 | one subtype row per instrument is kept if and only if no symbol changes kind |
| IngestLaws.RunExclusive | py/src/shawlynot/quant/deribit/reference_ingest.py:46-68 | the same for a whole run, aborted or committed |
| IngestLaws.ReusedSymbolHasTwoSubtypes | py/src/shawlynot/quant/db/reference_data.py:25-27 | on a new database an option and a future under one name commit, and leave one instrument with two subtype rows |
| Database.Connection.ExecuteInstrument | py/src/shawlynot/quant/db/reference_data.py:19-28 | insert or tick-size update with RETURNING, in place |
| Database.Connection.ExecuteSchema | py/src/shawlynot/quant/db/reference_data.py:96-102 | seeds the venue once |
| Database.Connection.UpsertOptionContract | py/src/shawlynot/quant/db/reference_data.py:114-142 | the two statements in order, up to the first exception |
| Database.Connection.UpsertFutureContract | py/src/shawlynot/quant/db/reference_data.py:145-181 | the same for a future; a perpetual is refused before any statement |
| Database.Connection.EnsureCurrencyInstrument | py/src/shawlynot/quant/db/reference_data.py:184-207 | identity and currencies row, an existing row left as it is |
| Database.Connection.Transaction | py/src/shawlynot/quant/deribit/reference_ingest.py:43-66 | the loops over options and dated futures and the currency, stopped by the first exception |
| Database.Connection.Ingest | py/src/shawlynot/quant/deribit/reference_ingest.py:34-68 | committed whole, or rolled back with only the sequence advanced |
| Database.FailureSticks | py/src/shawlynot/quant/deribit/reference_ingest.py:46-66 | nothing after the first exception has an effect |
| Repository.SelectAnswers | src/marketdata/InstrumentRepository.cpp:17-32 | the rows are an answer to the query on every consistent database, with ids from 1 |
| Repository.RowMeaning | src/marketdata/InstrumentRepository.cpp:18-29 | what a selected row says, column by column of the joins, the option's expiration before the future's |
| Repository.NothingLeftOut | src/marketdata/InstrumentRepository.cpp:24-31 | every instrument of the venue has its row |
| Repository.QueryDeterminesRows | src/marketdata/InstrumentRepository.cpp:17-32 | the query has one answer: every selected instrument once, in id order |
| Repository.ToInstrumentKeySteps | src/marketdata/InstrumentRepository.cpp:34-95 | the branches that fill the key compute the specified mapping on every row |
| Repository.MappedExactly | src/marketdata/InstrumentRepository.cpp:34-95 | a row maps if and only if its symbol parses to the kind its type names and an option's right is absent, call or put |
| Repository.MappedFields | src/marketdata/InstrumentRepository.cpp:44-95 | id and symbol are the row's, each shape field comes from the row when present and else from the symbol, a strike exactly on options, never a perpetual |
| Repository.BuildRegistry | src/main.cpp:30-70 | adds the mapped rows in order and counts the rest |
| Repository.AddTakesAll | src/marketdata/InstrumentRegistry.cpp:23-36 | add refuses or merges nothing if and only if symbols are distinct and no id is 0 |
| Repository.MappedOrSkipped | src/main.cpp:37-54 | rows = registered + skipped |
| EndToEnd.LoadedKeys | py/src/shawlynot/quant/db/schema.sql:23-32 | after any history of runs the loaded keys have distinct ids and symbols and add takes them all |
| EndToEnd.EveryInstrumentLoaded | src/marketdata/InstrumentRepository.cpp:17-32 | the startup query returns as many rows as there are instruments: none is hidden by its joins or filters |
| EndToEnd.StartupRegistry | src/main.cpp:30-70 | after any history of runs: every instrument in the database registered or skipped, ids and symbols a bijection, no perpetual, exactly one channel per key, none twice |
| EndToEnd.RegisteredExactly | src/marketdata/InstrumentRepository.cpp:34-95 | the gateway knows exactly the instruments whose symbol parses to the kind of their type |
| EndToEnd.NotificationsRoute | src/marketdata/InstrumentRegistry.cpp:38-66 | an inbound notification on a bound channel finds the very key it was bound for |
| EndToEnd.RestartKeepsIdentity | py/src/shawlynot/quant/db/reference_data.py:15-28 | an instrument registered after n runs is registered after any longer history under the same id, symbol and kind |
| EndToEnd.SpotIndexRegistered | py/src/shawlynot/quant/deribit/reference_ingest.py:61-66 | after any history the spot index is registered if and only if some run committed and the first to commit listed no option and no dated future named btc_usd |
| EndToEnd.SpotIndexLost | py/src/shawlynot/quant/db/reference_data.py:61-70 | an option named btc_usd in the first run keeps the spot index out for good, whatever runs follow |
| EndToEnd.LastContractStored | py/src/shawlynot/quant/deribit/reference_ingest.py:46-47 | the option row a committed run leaves is the last contract listed for its symbol |
| EndToEnd.OptionRowReaches | src/marketdata/InstrumentRepository.cpp:48-72 | a listed option is registered with its row's strike, right and expiry |
| EndToEnd.WrittenReachesGateway | py/src/shawlynot/quant/deribit/reference_ingest.py:46-68 | after any history and a committed run that uses no symbol for two kinds, whatever the run wrote is found by its symbol if and only if the symbol parses to its kind |
| EndToEnd.PayloadReachesGateway | py/src/shawlynot/quant/deribit/reference_ingest.py:34-68 | under the same conditions on history and payload alone, each option is found by its symbol with the strike, right and expiry of the last contract listed under it |
| Expiries.FutureReachesGateway | py/src/shawlynot/quant/deribit/reference_ingest.py:49-59 | under the same conditions each dated future is found by its symbol without a strike; its expiry is the last contract's, or the symbol's when that has none, unless the database holds an option's expiration for the symbol |
| Expiries.OptionExpiryExact | py/src/shawlynot/quant/deribit/reference_ingest.py:43-47 | each option's expiry: the last contract's, else an old future's, else the symbol's |
| Expiries.ExclusiveIffNeverReused | py/src/shawlynot/quant/db/reference_data.py:15-28 | after any history each instrument has one subtype row, of its type, if and only if no committed run used a symbol for another kind |
| Expiries.FutureExpiryArrives | src/marketdata/InstrumentRepository.cpp:23-27 | where no symbol was ever reused, a future's own expiration reaches the registry, or its symbol's when it has none |
| Expiries.OldOptionSpeaksForFuture | src/marketdata/InstrumentRepository.cpp:23-27 | a future, an option under its name, then the future again: the registered future carries the option's expiration |
| EndToEnd.OneContractReaches | py/src/shawlynot/quant/deribit/reference_ingest.py:34-68 | such payloads exist: any acceptable contract, alone, on a new database |

## Left out

- The Deribit session and the WebSocket transport, and the rest of `main`: their sources are not part of this model.
  `Registry.BindAll` stands for whatever sequence of `bind_channel` calls the session makes.
- `TickerCodec`, `ConsoleSink`, `Log`, `Config` and the Python REST client. A tick is an opaque value. A payload whose
  fetch or decoding raised is `None`.
- Text.ParseDecimalExact: the exponent, `inf`, `infinity` and `nan` spellings of `std::from_chars` and values out of
  range for a double are not modelled; strikes are exact decimals and an absent one is `None` instead of NaN.
- Symbol.ParseSymbolSteps: an option whose strike has one of those spellings is rejected here and may be accepted by
  the source.
- Symbol.ParseExact: the option form covers plain decimal strikes, for the same reason.
- Binary rounding: of strikes read as doubles, and of the double an expiry passes through on its way out of
  `EXTRACT(EPOCH ...)`.
- Hash maps, memory order, `feed_state`, and wrap-around of the 64-bit drop counter: maps and natural numbers.
- Postgres and psycopg beyond atomic transactions, the declared constraints and rollback: no concurrent writers, no
  connection loss, no exhaustion of a bigserial, no NUL in text, no NaN decimal.
- Capacity 0: `push` would pop an empty deque.
- BoundedQueue.BlockingQueue.Pop: one pass through the mutex; it returns `MustWait` where the thread would sleep. The
  sleep, its wakeups and all interleavings are in module Handoff.
- Sink.QueueSink.Stop: the consumer's last turns run inside the call; that they end whatever the interleaving is
  `Handoff.ShutdownTerminates`. A handler that throws is not modelled.
- Handoff.ShutdownTerminates: assumes no scheduler; that an enabled thread runs and a waiting one is granted the mutex
  is for the platform to provide.
- Clocks, logging and the counts that `build_registry` logs.
