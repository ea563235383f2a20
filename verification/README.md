# openlaps: verified models of the telemetry path

openlaps carries samples from a vehicle to a pit database and turns GPS fixes
into lap times. This project models the parts of that path that keep state
across messages, crashes and restarts, together with the small algorithms
beside it, and proves what their documentation promises over whole runs.

| part | files |
|---|---|
| GPS fixes to lap events | `Geometry`, `LapClock`, `TimingEngine`, `Crossings`, `GateRules`, `LapAccount`, `Drives`, `BestLap` |
| lap events to lap rows, and the two together | `LapTable`, `PayloadFolding`, `EndToEnd`, `PitUpdates`, `Restarts` |
| report-by-exception, batching, wire format | `Rbe`, `Wire`, `Batching`, `Pipeline` |
| wire ids, registry generations, decoding | `Catalog`, `RegistryCache`, `Generations` |
| vehicle publisher with the broker's message-id dedupe | `Publisher`, `PublisherService` |
| pit ingest writer with the database | `IngestModel`, `IngestContents`, `IngestSafety`, `IngestFates`, `IngestDuplicates`, `IngestLaps`, `IngestProgress`, `PitRows`, `IngestWriter` |
| live view rate limiter | `LimiterModel`, `LimiterSafety`, `LimiterFreshness`, `LimiterService`, `LimiterRanking`, `Limiter` (module `LiveLimiter`) |
| alignment of crossings, four-way merge of GPS columns | `Alignment`, `FixMerge` |

Objects that the source updates in place are classes; their methods are proved
to do what specification functions on values do, and the theorems over whole
runs are lemmas about those functions. `dafny verify dfyconfig.toml` checks
everything.

## How to read the main results

* A *run* of the ingest writer is any sequence of fetches, resumptions of held
  messages, flushes with any outcome, registry scans and crashes with restart.
  Deliveries may come in any order and any number of times. Two assumptions
  are named where they are used: a flush that raises has committed nothing
  (`IngestModel.Atomic`), and, for no-loss only, first deliveries within a
  run come in order and pass over no readable batch (`IngestSafety.InOrder`).
  For each there is a lemma that shows what goes wrong without it.
* A *run* of the publisher is any interleaving of submit, fill, acknowledge,
  requeue and arrival at the broker, where an arrival may come long after the
  batch was requeued or shed. The broker's dedupe window is taken to cover
  the retries.
* A *run* of the timing engine is any list of fixes. Where the lap clock's
  sentinel 0.0 for "not started" matters, timestamps are positive and
  non-decreasing (`TimingEngine.Timed`). Coordinates and times are `real`; the
  cosine factor of a line is a constant of that line. Several runs, each with a
  track of its own, stand for an engine that is rebuilt.
* A *run* of the limiter is any sequence of messages and idle polls under one
  configuration with a clock that never goes back; the aggregate budget and the
  rule for shedding hold under any clock. Channels are numbered in name order,
  and each update carries the number of its offer, so "older" is defined.

Most parts are told twice: as the code works, with its dictionaries, flags,
tokens and counters, and as an account that reads only what came in and what
went out. The accounts are `GateRules.MarksFrom`, `LapAccount.Account`,
`Wire.Carriable`, `Rbe.LastAccepted` with `Rbe.WithinBand`,
`LimiterService.Exhausted`, `LimiterRanking.MoreRecent`,
`PayloadFolding.RowReads` and `PitRows.RowMeasures`; the theorems say that the
two agree, so what must happen is stated as well as what may.

## Where the code and its documentation differ

The models follow the code.

* The publisher's documentation says batches are dropped oldest-first. `submit`
  does so; `_requeue` drops the newest (`src/agent/publisher.py:442-445`), and
  it breaks the order exactly if window and buffer together exceed the budget
  and are more than one batch (`Publisher.OldestFirstIff`,
  `Publisher.RequeueDropsTheNewer`).
* The writer's documentation calls the cursor the whole idempotency guarantee.
  A commit that lands although the connection fails is written a second time
  by the retry (`IngestDuplicates.LandedFlushDuplicates`; exactly when:
  `IngestDuplicates.AtMostOnceIffNotRewritten`). A batch first delivered
  after a later one was committed is skipped and lost
  (`IngestFates.LateFirstDeliveryIsLost`; exactly when:
  `IngestFates.AccountedIffMetAboveCursor`). A batch whose in-flight duplicate
  was acknowledged is lost by a crash before the flush
  (`IngestFates.AckedDuplicateCanBeLost`; exactly when:
  `IngestFates.CrashLosesIffAckedInFlight`).
* The drop counter of the writer covers lap rows only: pit updates of a flush
  that is written without them or dropped go uncounted
  (`IngestLaps.LapRowsAccountedFor`).
* The best lap is the fastest valid one as long as the minimum lap time or the
  re-entry interval is positive. With both at 0 a valid lap of no time is
  forgotten once a slower one follows, because 0 also stands for "none yet"
  (`BestLap.BestLapOfRun`, `BestLap.BestLapCanBeForgotten`).
* The materialiser's documentation takes a lap number that goes backwards as
  the sign of a rebuilt engine. An engine rebuilt while in lap 1 starts in lap 1
  again, and on a shorter track the first lap row keeps a sector of the longer
  one (`EndToEnd.GpsRunsToLapRows`, `Restarts.StaleSectorJoinsLap`).
* Message ids are the source class and the window's rounded millisecond. They
  are distinct within a flush, but windows of successive flushes can share one
  (`Pipeline.CollideIffSameMillisecond`, `Pipeline.NextFlushCanCollide`), and a
  shared id lets the broker discard a batch that is then counted as published
  (`Publisher.SharedIdLosesABatch`).
* Valid laps have complete rows on tracks of up to 64 lap points, the cap of the
  materialiser's buffer, and on no longer one (`EndToEnd.GpsRunToLapRows`,
  `EndToEnd.LongTrackNeverComplete`).

## Model

| member | source | states |
|---|---|---|
| Geometry.IntersectionIsSharedPoint | src/timing/timing_core.py:109-124 | a hit is returned if and only if the segments are not parallel and share a point, and its t is the fraction of the only shared point |
| Geometry.ReversedMotion | src/timing/timing_core.py:109-124 | driving the step backwards hits at 1 - t with the opposite, non-zero sign, and misses when the forward step misses |
| Crossings.CrossingIffOnTheLine | src/timing/timing_core.py:102-185 | a step crosses a line if and only if, in latitude and longitude, the two share a position and do not span next to nothing, and the crossing instant is the one at which the step is at that position |
| Crossings.SignIsSide | src/timing/timing_core.py:119-184 | a crossing with sign 1 goes from the right of the directed line to its left, one with sign -1 from left to right |
| TimingEngine.CrossingBetweenFixes | src/timing/timing_core.py:171-185 | the interpolated crossing instant lies between the two fixes |
| TimingEngine.ReversedCrossing | src/timing/timing_core.py:171-185 | driving back over a line crosses it with the opposite sign |
| TimingEngine.GatesHold | src/timing/timing_core.py:188-223 | over every run accepted crossings of one line are at least the re-entry interval apart, and with direction gating all have the learned direction |
| TimingEngine.WrongWayIsRejected | src/timing/timing_core.py:209-223 | once a line was accepted in the direction of a step, the reversed step crosses it and is not accepted |
| GateRules.AcceptedIsWhatCounts | src/timing/timing_core.py:188-223 | over every run under any settings the accepted crossings are exactly those of an account that reads only the marks made so far: every pit line whose crossing counts, and of the lap points the first whose crossing counts |
| GateRules.CountsOverRuns | src/timing/timing_core.py:209-223 | over every run a crossing counts if and only if every mark of that name so far, earlier pit lines of the step included, is at least the re-entry interval older and, with direction gating, has the same sign |
| GateRules.FirstThatCounts | src/timing/timing_core.py:201-207 | the first lap point whose crossing counts makes the step's one lap mark |
| GateRules.ReportedIsTheAccount | src/timing/timing_core.py:188-341 | for every run of fixes with positive, non-decreasing timestamps the engine's events are those of the stateless account of the crossings that count |
| TimingEngine.MarksAreSound | src/timing/timing_core.py:188-207 | fixes with positive, non-decreasing timestamps give accepted crossings with positive times in order, none after the last fix |
| TimingEngine.Engine.Accept | src/timing/timing_core.py:209-223 | debounce, then direction gate, as one step of the gates: accepted exactly if they let the crossing through (over runs: `GateRules.AcceptedIsWhatCounts`); a rejected crossing leaves both dictionaries and the revision alone |
| TimingEngine.Engine.HandlePit | src/timing/timing_core.py:225-245 | pit entry and exit set the status, entry spoils the lap, one event reports it |
| TimingEngine.Engine.StartNewLap | src/timing/timing_core.py:247-252 | the state of a lap just opened |
| TimingEngine.Engine.HandleLapPoint | src/timing/timing_core.py:254-341 | the state and the events are those of the lap clock for this crossing |
| TimingEngine.Engine.PitLines | src/timing/timing_core.py:195-200 | every pit line is looked at, in order, each seeing the gates the ones before it left |
| TimingEngine.Engine.LapPoints | src/timing/timing_core.py:201-207 | only the first lap point that accepts the step is handled |
| TimingEngine.Engine.ProcessPoint | src/timing/timing_core.py:188-207 | the object goes from the state of the run so far to that of the run with this fix and returns exactly the events the fix adds |
| LapClock.ClockFollowsMarks | src/timing/timing_core.py:225-341 | over every run the clock's fields are what the accepted crossings since the lap opened say they should be |
| LapClock.LapIsWhatHappened | src/timing/timing_core.py:254-341 | a finish crossing reports nothing if no lap point was crossed or the lap is too short; otherwise the lap, valid if and only if it opened at lap point 0 on track, its crossings were 1..n-1 in order, and no pit entry was accepted |
| LapClock.LapsAreTallied | src/timing/timing_core.py:254-341 | completed laps are numbered 1, 2, 3, ... and none is shorter than the minimum |
| LapAccount.EventsAreTheAccount | src/timing/timing_core.py:225-341 | over every run every event, field by field, is the one read off the marks: pit entry and exit with the resulting status; one sector event per lap point, its split since the last lap point, valid if and only if it is the next point of the track and the car is on track; at the finish nothing, or the last sector and the lap with the lap's exact validity; each with the lap number, line, time and sign of its crossing |
| LapAccount.LastLapOfRun | src/timing/timing_core.py:254-341 | the last lap time is that of the last completed lap |
| BestLap.BestLapOfRun | src/timing/timing_core.py:254-341 | for every run of fixes with positive, non-decreasing timestamps the best lap is the minimum over the valid completed laps, 0 if none, as long as the minimum lap time or the re-entry interval is positive |
| BestLap.BestLapCanBeForgotten | src/timing/timing_core.py:254-341 | with both at 0, a track and fixes on which a valid lap of no time is followed by one of five seconds and the best is five seconds |
| Drives.FixesDrive | src/timing/timing_core.py:171-207 | on a track laid out for it, fixes exist that make the engine accept any given lap points at any given times in order, and no others |
| LapClock.CrossedSinceOpening | src/timing/timing_core.py:254-341 | the crossing times kept for a lap begin at its opening mark and are one per lap point crossed since |
| LapClock.OpenSplitsAddUp | src/timing/timing_core.py:247-341 | while a lap is open its splits add up to the time from its opening to its last lap point |
| LapClock.LapSplitsSumToLapTime | src/timing/timing_core.py:247-341 | for every completed lap, valid or not, the splits since its clock started sum exactly to its lap time |
| LapClock.SplitsAreNonNegative | src/timing/timing_core.py:254-341 | with crossings in time order no emitted split is negative |
| LapTable.BufferIsCapped | src/pit/ingest_writer/laps.py:153-167 | whatever payloads arrive, no more than 64 sectors are buffered |
| LapTable.RowsAreCapped | src/pit/ingest_writer/laps.py:153-191 | so no lap row ever carries more than 64 sectors |
| LapTable.LapMaterialiser.Buffer | src/pit/ingest_writer/laps.py:153-167 | a sector without a number is counted malformed; at the cap the entry with the least lap, then sector, is evicted; then the sector is filed under lap and number |
| LapTable.LapMaterialiser.Complete | src/pit/ingest_writer/laps.py:169-191 | the row takes all sectors of its lap in order and leaves those of other laps |
| LapTable.LapMaterialiser.Fold | src/pit/ingest_writer/laps.py:87-132 | a lap number that goes back discards the buffer and counts a restart; then the event is filed, completed, or reported by its type |
| PayloadFolding.RowsFollowLapEvents | src/pit/ingest_writer/laps.py:87-191 | whatever was buffered and whatever arrives there is one row per lap event, in order, with its number, crossing time, lap time, validity (true if not sent) and pit status (none if not sent or empty) |
| PayloadFolding.CountersAreTheHistory | src/pit/ingest_writer/laps.py:77-191 | for any payloads: laps and sectors handed on, unusable payloads, restarts (times the lap number went back) and unknown types are what the payload history says |
| PitUpdates.UpdatesFollowPitEvents | src/pit/ingest_writer/laps.py:120-127 | whatever arrives there is one pit update per pit event, in order, with its time and its status or else its type |
| PitUpdates.FixesToPitUpdates | src/agent/timing_app.py:201-220 | for every run of fixes, folded into any table, the pit updates are the accepted pit-line crossings in order: "pit" at an entry line, "track" at an exit line, at the crossing's time |
| EndToEnd.MarkInStep | src/pit/ingest_writer/laps.py:87-191 | folding what one accepted crossing reports yields a row exactly for a completed lap and keeps the buffer equal to the last reported sector per number of the running lap, over what was stale when the engine run began |
| EndToEnd.GpsRunsToLapRows | src/agent/timing_app.py:201-220 | over any engine runs on tracks of at most 64 lap points folded by one materialiser: each run yields one row per completed lap in order, with its lap time from its own crossings and the last reported sector per number; a valid lap's row is exactly its own sectors 1..n, each with its own crossing time and split, summing to the lap time, if and only if it is not the first of its run with a sector beyond n left under lap 1 by an earlier run |
| EndToEnd.GpsRunToLapRows | src/agent/timing_app.py:201-220 | for a single run and a fresh materialiser every valid lap's row is its own sectors 1..n, whatever abandoned laps reused its number |
| EndToEnd.CompleteIffNothingBeyond | src/pit/ingest_writer/laps.py:169-191 | a valid lap's row is complete if and only if nothing from beyond the track was filed under its number |
| Restarts.StaleSectorJoinsLap | src/pit/ingest_writer/laps.py:87-132 | two engine runs, given as fixes, after which the valid first lap on the shorter track has a sector of the longer one in its row |
| EndToEnd.LongTrackNeverComplete | src/pit/ingest_writer/laps.py:153-167 | beyond 64 lap points no row is ever complete, for any payloads |
| Rbe.HeldIsLastAccepted | src/core/rbe.py:28-59 | over every interleaved stream the filter's memory of a channel is its last accepted sample |
| Rbe.FilterHolds | src/core/rbe.py:28-59 | over every stream, against the last accepted observation of the channel: suppressed if and only if the maximum interval has not passed and either the minimum interval has not or a deadband is set and the two values are numbers within it; an error if and only if only the deadband decides and a value is not a number; accepted otherwise |
| Rbe.FirstIsNeverSuppressed | src/core/rbe.py:33-38 | until something of a channel was accepted nothing of it is suppressed, and only a deadband on a value that is no number refuses it |
| Rbe.AcceptedAreSpaced | src/core/rbe.py:40-47 | accepted samples of a channel are at least the configured minimum interval apart |
| Rbe.RbeFilter.Accept | src/core/rbe.py:28-59 | the verdict is the one the stream of all calls gives this call (exact: `Rbe.FilterHolds`), the memory stays what that stream says is held, and only suppressed samples are counted |
| Wire.RoundTrip | src/core/batcher.py:61-101 | whatever encodes decodes to itself, or to within half a scale step on a scaled integer channel |
| Wire.EncodesIffCarriable | src/core/batcher.py:61-101 | encoding succeeds if and only if the channel can carry the value: floating channels any number, text any string, boolean flags and the numbers 0 and 1, integer channels the numbers whose integer, or nearest scale step (half to even), is in the wire's range |
| Wire.RangeErrorIff | src/core/batcher.py:68-86 | the error is the range error if and only if the number has a wire integer but none in range |
| Wire.Round | src/agent/pipeline.py:106-148 | rounding is within one half |
| Batching.SortOrders | src/agent/pipeline.py:106-148 | staged samples are put in stamp order, none added or lost |
| Batching.SortIsStable | src/agent/pipeline.py:106-148 | samples with equal stamps keep their ingest order |
| Batching.WindowsPartition | src/agent/pipeline.py:106-148 | the tick windows cut the sorted samples up completely |
| Batching.WindowsWellCut | src/agent/pipeline.py:106-148 | every window is ordered and shorter than a tick, and opens at least a tick after the one before |
| Batching.GroupsAreSources | src/core/batcher.py:27-58 | the batcher's dictionary holds one key per source class, each with exactly its own samples in order |
| Batching.EntriesEncode | src/core/batcher.py:33-58 | inside its window a group fails to encode if and only if some value is not one its channel can carry (`Wire.Carriable`) |
| Pipeline.FlushPartitions | src/agent/pipeline.py:106-148 | for every staged list the windows are a permutation of it, each shorter than the tick in nanoseconds and opening at least that much after the one before |
| Pipeline.WindowOutcome | src/core/batcher.py:33-58 | a window is discarded if and only if some value in it is one its channel cannot carry (`Wire.Carriable`), otherwise there is one batch per source class carrying exactly that class's samples in order |
| Pipeline.FlushPermutes | src/agent/pipeline.py:106-148 | samples encoded in emitted batches, batch by batch in order, together with those of discarded windows are a permutation of the staged ones, so a failed window leaks nothing |
| Pipeline.BatchesInIngestOrder | src/agent/pipeline.py:106-148 | every batch of every flush is in stamp order, and its samples of one stamp are that stamp's samples of its source class in the order they were staged |
| Pipeline.FlushIdsDistinct | src/agent/pipeline.py:106-148 | under a unit-rate wall clock all message ids of one flush are distinct |
| Pipeline.IdsOfWindow | src/agent/pipeline.py:129-147 | the ids of a window are its source classes with its rounded epoch |
| Pipeline.LaterFlushSharesNoId | src/agent/pipeline.py:106-148 | a window that opens more than a millisecond after a flush's last window shares no id with that flush |
| Pipeline.CollideIffSameMillisecond | src/agent/pipeline.py:106-148 | windows of any two flushes share an id if and only if they open in one rounded millisecond and share a source class |
| Pipeline.NextFlushCanCollide | src/agent/pipeline.py:106-148 | a flush of a sample stamped 0.6 ms and a flush of one stamped 1.4 ms emit the same id |
| Pipeline.CaptureTime | src/pit/registry_cache.py:147-163 | the decoded capture time is within 0.501 ms of the wall clock at capture |
| Pipeline.BatchRecovered | src/pit/registry_cache.py:123-172 | decoding an emitted batch against its generation gives back the batch's header and the source class's samples, all and in order: the whole registered channel, value to within the coding, time to within 0.501 ms |
| Pipeline.Batcher.Add | src/core/batcher.py:27-31 | an unknown channel is refused, otherwise the sample joins its source class |
| Pipeline.Batcher.Tick | src/core/batcher.py:33-58 | the pending window is encoded and cleared, whether or not it encodes |
| Pipeline.Pipeline.Ingest | src/agent/pipeline.py:69-104 | an unmapped reference is counted; a mapped sample is staged exactly if the filter accepts it |
| Pipeline.Pipeline.Flush | src/agent/pipeline.py:106-148 | everything staged is emitted window by window or counted as a failed window, and staging is empty afterwards |
| RegistryCache.ChannelFound | src/pit/registry_cache.py:84-91 | with distinct ids every channel is found under its own id |
| RegistryCache.Cache.AddRegistry | src/pit/registry_cache.py:84-91 | the generation replaces what was known under its number and is no longer reported unknown |
| RegistryCache.Cache.DecodeOrReason | src/pit/registry_cache.py:123-172 | decoding by exact generation, with both refusals counted and remembered once |
| Catalog.IdsDistinctIffBelowDerivedRange | src/core/catalog.py:90-142 | wire ids are distinct if and only if there are no derived channels or the catalog stays below their range |
| Catalog.LoadCatalog | src/core/catalog.py:110-123 | the catalog loop refuses only a repeated source reference and otherwise loads every channel |
| Catalog.BuildChannels | src/core/catalog.py:74-150 | a start succeeds if and only if names and source references are distinct; then catalog entries are registered as configured under the ids 1, 2, 3, ..., derived channels under 2^31 and on, each source reference leads to its id, and nothing else is mapped |
| Catalog.StateOnlyAdvances | src/core/catalog.py:196-226 | the persisted record never goes back and keeps its content while its number stays |
| Catalog.SeqNamesOneSet | src/core/catalog.py:196-226 | over any sequence of agent starts generations never decrease and no registry_seq names two channel sets |
| Catalog.GenerationCountsChanges | src/core/catalog.py:196-226 | from no record, a start comes up with one more than the number of times the channel set changed, as long as that fits |
| Catalog.RefusedIffExhausted | src/core/catalog.py:222-226 | from no record, a start is refused if and only if an earlier one used the last uint32 generation for another set |
| Catalog.RegistryState.Update | src/core/catalog.py:196-226 | the same set keeps its number, another takes the next, an exhausted counter is refused and writes nothing |
| Catalog.IdsResolveAsEncoded | src/pit/registry_cache.py:84-91 | whatever registries a consumer has heard in whatever order, a generation it holds resolves every wire id to the channel it was encoded for |
| Generations.BatchSurvivesRestarts | src/pit/registry_cache.py:136-151 | over any starts and any registries heard, a batch is held back for want of its generation or decodes to exactly the samples that went into it, each with the whole channel (name, source, units, coding) the encoding start gave its wire id |
| Publisher.Conservation | src/agent/publisher.py:124-139 | submitted = published + dropped + in flight + buffered |
| Publisher.EveryRunBalances | src/agent/publisher.py:357-446 | over every interleaving: conservation; acked, in-flight and buffered batches in strictly increasing submission order; exact byte accounting, over budget only with a single entry; the broker stores each batch at most once |
| Publisher.PublishedIsStored | src/agent/publisher.py:378-446 | with distinct ids every batch counted as published is in the broker's log |
| Publisher.SharedIdLosesABatch | src/agent/publisher.py:378-446 | for any two batches sharing an id some run counts both as published and stores one |
| Publisher.IdleMeansDone | src/agent/publisher.py:141-150 | when the buffer is empty and nothing is pending, every submitted batch was acked or counted dropped, exactly one of the two |
| Publisher.SubmitDropsOldest | src/agent/publisher.py:132-138 | a submit drops exactly a prefix of the buffer with the new batch at its end, and drops something if and only if that exceeds the budget and the buffer was not empty |
| Publisher.RequeueDropsNewest | src/agent/publisher.py:438-446 | a requeue drops exactly a suffix of window and buffer, newest first, and drops something if and only if the two exceed the budget and are more than one batch |
| Publisher.OldestFirstIff | src/agent/publisher.py:124-139 | no submit drops a newer batch while keeping an older; a requeue does if and only if window and buffer exceed the budget and are more than one batch |
| Publisher.RequeueDropsTheNewer | src/agent/publisher.py:428-446 | for any two batches exceeding the budget together, a run whose failed publish drops the newer and keeps the older |
| PublisherService.SubmitDropsNoMore | src/agent/publisher.py:132-138 | a submit stops dropping as soon as the rest fits: with one batch fewer dropped it would exceed the budget |
| PublisherService.RequeueDropsNoMore | src/agent/publisher.py:438-446 | a requeue drops no batch that would still have fitted |
| PublisherService.QueueCanDrain | src/agent/publisher.py:357-446 | from every reachable state a run leads to idleness with every batch in line acknowledged in order and none further dropped |
| Publisher.JetStreamPublisher.Submit | src/agent/publisher.py:124-139 | append, then shed from the old end until within budget or one is left, keeping the invariant |
| Publisher.JetStreamPublisher.FillOne | src/agent/publisher.py:401-426 | the oldest buffered batch moves to the end of the window, keeping the invariant |
| Publisher.JetStreamPublisher.AckHead | src/agent/publisher.py:378-399 | the head of the window is counted published, and the oldest pending stamp is the next one's |
| Publisher.JetStreamPublisher.RequeueAll | src/agent/publisher.py:428-446 | the whole window returns in order to the front of the buffer, then shedding from the new end |
| Publisher.JetStreamPublisher.IsIdle | src/agent/publisher.py:141-150 | what drain tests holds if and only if nothing is buffered or in flight, and then everything submitted is published or dropped |
| IngestModel.RowsFromSamples | src/pit/ingest_writer/writer.py:101-153 | every sample becomes a row, is counted dropped, or is counted unresolved |
| IngestSafety.RowsAtMostOnce | src/pit/ingest_writer/writer.py:450-606 | across any number of runs with deliveries in any order, duplicates, rejected flushes and crashes: the samples table is the rows of the logged batches, each what its stream message decodes to, each stream sequence at most once and none above the cursor, which never decreases |
| IngestDuplicates.AtMostOnceIffNotRewritten | src/pit/ingest_writer/writer.py:531-589 | over every run, flushes that land and raise included, each sequence is in the log at most once if and only if no flush wrote while the log already had part of its buffer from one that landed |
| IngestDuplicates.LandedFlushDuplicates | src/pit/ingest_writer/writer.py:531-539 | a run from an empty database after which the rows of one batch are in the table twice |
| IngestLaps.LapRowsAccountedFor | src/pit/ingest_writer/writer.py:504-589 | within a run the rows of folding its lap events are, once and in order, those of finished flushes and those waiting; exactly the written ones are what the laps table gained and the others are the drop count; pit updates likewise, uncounted when dropped |
| IngestFates.AccountedIffMetAboveCursor | src/pit/ingest_writer/writer.py:450-502 | for deliveries in any order, a readable batch the cursor passed this run is committed once or in a counted dropped flush if and only if some delivery of it since the start was handled while it was above the cursor |
| IngestSafety.NoBatchIsLost | src/pit/ingest_writer/writer.py:392-589 | with first deliveries in order and passing over no readable batch, and any redeliveries, stalls and failed flushes, every batch between the starting and the current cursor is committed exactly once with the rows its message decodes to, unsupported, or in a counted dropped flush |
| IngestProgress.FetchedIsStored | src/pit/ingest_writer/writer.py:392-539 | in every reachable state with nothing held, after any fetch and a committed flush every fetched batch of a readable format is in the log unless the cursor had passed it, up to the first whose registry has not been heard; from that one on all are held |
| IngestProgress.ResumedIsStored | src/pit/ingest_writer/writer.py:392-539 | the same for messages held and tried again |
| IngestSafety.LapEventsFoldedInStreamOrder | src/pit/ingest_writer/writer.py:489-502 | under the same assumption the materialiser has folded exactly the lap events the readable batches up to the frontier carry, each batch once and in stream order |
| IngestFates.LateFirstDeliveryIsLost | src/pit/ingest_writer/writer.py:450-458 | a run in which a batch first delivered after a later one was committed is acknowledged and never written |
| IngestFates.AckedDuplicateCanBeLost | src/pit/ingest_writer/writer.py:459-465 | a run in which an acknowledged batch is not in the database after a crash |
| IngestFates.CrashLosesIffAckedInFlight | src/pit/ingest_writer/writer.py:459-465 | in every reachable state a crash loses an acknowledged batch if and only if it is buffered, that is, if and only if it is buffered and was delivered again since or had been acknowledged before this run |
| IngestFates.AckedIsAccountedFor | src/pit/ingest_writer/writer.py:450-589 | unless it was delivered again while buffered and still is, every readable batch a run has acknowledged is in the log, in a counted dropped flush, or was never above the cursor when delivered |
| IngestFates.DroppedFlushesAreCounted | src/pit/ingest_writer/writer.py:564-575 | the drop counter is the number of twice-rejected flushes with work since the start |
| IngestContents.RowsAreKeptSamples | src/pit/ingest_writer/writer.py:101-153 | one row per sample with a channel key and a value, in order, with that sample's time and key, numbers as they are, flags as 1 or 0 and strings as text, and the texts of the lap events among them |
| IngestContents.RestIsCounted | src/pit/ingest_writer/writer.py:116-153 | the samples without a channel key are the unresolved count, and a batch reports agent status if and only if a kept sample is of that channel |
| PitRows.BatchRowsMeasure | src/pit/ingest_writer/writer.py:101-153 | decoded under its registry, an emitted batch gives one row per sample of its source class, in order: the channel's name, the measured value (exact, or within half a scale step), the capture time to within 0.501 ms |
| PitRows.LoggedRowsAreMeasurements | src/pit/ingest_writer/writer.py:450-606 | over every run of the writer, where no registry_seq names two sets, the rows a vehicle's batch put into the samples table are its measurements, one for one and in order |
| IngestContents.RunSourced | src/pit/ingest_writer/writer.py:450-502 | over every run everything logged, buffered or dropped is what its stream message decodes to against registries of the stream |
| IngestContents.GenuineIsDetermined | src/pit/ingest_writer/writer.py:352-373 | where no registry_seq names two sets, that is the message decoded against its own registry, whatever else was learnt in whatever order |
| IngestWriter.TimescaleStore.Flush | src/pit/ingest_writer/store.py:286-327 | one transaction: all rows and the monotone cursor, or nothing |
| IngestWriter.Writer.constructor | src/pit/ingest_writer/writer.py:229-262 | a start after any earlier runs resumes from the cursor the database holds and from nothing else |
| IngestWriter.RowsFromBatch | src/pit/ingest_writer/writer.py:101-153 | the loop computes the rows, lap events and counters of the specification |
| IngestWriter.MaterialiseLaps | src/pit/ingest_writer/writer.py:504-511 | the events are folded in order and every row and pit update they complete is collected |
| IngestWriter.Writer.ApplyRegistry | src/pit/ingest_writer/writer.py:352-373 | the generation and its channel keys are learned |
| IngestWriter.Writer.ScanRegistries | src/pit/ingest_writer/writer.py:310-350 | every generation found is applied, each as one step of the run |
| IngestWriter.Writer.Handle | src/pit/ingest_writer/writer.py:450-502 | one message as the step system handles it: skipped, applied, refused, buffered, or stalled with nothing changed |
| IngestWriter.Writer.HandleAll | src/pit/ingest_writer/writer.py:435-448 | in order up to the first stall, holding that message and the rest |
| IngestWriter.Writer.FlushBuffer | src/pit/ingest_writer/writer.py:515-589 | one of the five outcomes the writer provides for, with the matching new state; true unless the database refused |
| IngestWriter.Writer.RetrySamplesOnly | src/pit/ingest_writer/writer.py:540-576 | a lost connection keeps everything, a second refusal drops and counts the flush |
| IngestWriter.Writer.Pass | src/pit/ingest_writer/writer.py:392-433 | which steps one pass of the loop adds to the run: flush only while the buffer is full, otherwise held or fetched messages, then a flush if stalled or due |
| IngestWriter.WriterIsSafe | src/pit/ingest_writer/writer.py:392-589 | the whole-run guarantees, contents included, hold of the database a writer object writes to |
| LimiterSafety.UpdatesSpacedAndFresh | src/pit/live_decoder/limiter.py:51-148 | for every sequence of batches and polls: accepted updates of a channel come in offer order, never an older after a newer, and those of a limited channel are at least 1 / rate less a nanosecond apart |
| LimiterFreshness.NewestValueWins | src/pit/live_decoder/limiter.py:51-148 | every accepted update has the value and time of an offer of its channel, and for a limited channel of the last one offered up to that turn |
| LimiterSafety.OffersConserved | src/pit/live_decoder/limiter.py:51-148 | after every turn, per channel: offers = published + suppressed + pending |
| LimiterSafety.AggregateBudget | src/pit/live_decoder/limiter.py:121-163 | with a non-zero limit, the updates accepted in any stretch of turns in which the clock does not go back, spanning T, number at most max(1, limit) + limit * T + 1e-9 |
| LimiterService.ShedOnlyWhenExhausted | src/pit/live_decoder/limiter.py:121-163 | under any clock: if a turn sheds anything, some stretch of turns up to it would exceed that same allowance with one more acceptance, so what the budget can pay for is accepted |
| LimiterService.UnlimitedNeverSheds | src/pit/live_decoder/limiter.py:129-134 | without an aggregate limit nothing is ever shed |
| LimiterService.EveryChannelIsServed | src/pit/live_decoder/limiter.py:51-148 | in a turn without shedding an unlimited channel has every offer accepted, and a limited one with anything offered or pending ends with exactly one update, accepted or pending |
| LimiterService.PendingIsNotDue | src/pit/live_decoder/limiter.py:82-92 | after every turn a pending value is of a limited channel that had an update accepted less than 1 / rate ago: what is due was released |
| LimiterService.NothingVanishes | src/pit/live_decoder/limiter.py:51-148 | over every run the offers of a channel are its published updates, those counted suppressed and the pending one |
| LimiterRanking.MostRecentIsServedFirst | src/pit/live_decoder/limiter.py:121-133 | over every run what a turn accepts is a head of its candidates ordered by when the log last shows their channel published, then by name |
| LimiterSafety.ShedNeverOutranks | src/pit/live_decoder/limiter.py:121-148 | what the budget cuts off never outranks what it accepts |
| LimiterSafety.OnRanked | src/pit/live_decoder/limiter.py:93-102 | ranking leaves each channel's updates in order |
| LimiterSafety.ConflateAt | src/pit/live_decoder/limiter.py:104-119 | conflating keeps the newest candidate of a limited channel, all of an unlimited one, and counts the rest |
| LimiterSafety.TurnKeeps | src/pit/live_decoder/service.py:432-460 | one turn of the driver keeps the per-channel invariant and admits only fresh, spaced updates |
| LiveLimiter.ConflatingLimiter.Offer | src/pit/live_decoder/limiter.py:51-80 | unselected, unlimited, due and not-due channels, with the pending value replaced and counted |
| LiveLimiter.ConflatingLimiter.Drain | src/pit/live_decoder/limiter.py:82-102 | every due pending value is released once, in rank order |
| LiveLimiter.ConflatingLimiter.ConflateCandidates | src/pit/live_decoder/limiter.py:104-119 | the loop with its index dictionary is the conflation of the specification |
| LiveLimiter.ConflatingLimiter.Admit | src/pit/live_decoder/limiter.py:121-148 | rank, refill, accept the affordable prefix, shed and count the rest, pay the tokens (over runs: at most what `LimiterSafety.AggregateBudget` allows and, by `LimiterService.ShedOnlyWhenExhausted`, no less) |
| LiveLimiter.ConflatingLimiter.RefillAggregate | src/pit/live_decoder/limiter.py:154-163 | full at the first use or if the clock went back, else refilled up to capacity |
| LiveLimiter.LiveService.Take | src/pit/live_decoder/service.py:422-460 | after each turn, for every channel: offers are conserved, the turn's updates are spaced against all earlier ones, and those of a limited channel are the last offered |
| Alignment.GreedyIsMaximum | tools/compare_timing.py:226-246 | on time-ordered inputs no one-to-one pairing within tolerance, in any order, has more pairs than the greedy one |
| Alignment.Match | tools/compare_timing.py:226-246 | the pairs rise strictly on both sides and are within tolerance, missing and extra are exactly the other positions in order, and on time-ordered inputs the matched count is the maximum |
| FixMerge.MergePass | tools/extract_gps_trace.py:131-144 | every pass of the loop advances at least one index and keeps what is established |
| FixMerge.MergeFixes | tools/extract_gps_trace.py:120-146 | for any non-decreasing columns each stamp is yielded as often as the column with the fewest has it, from strictly rising positions with their own values, and 4 * fixes + partial is the number of points |
| FixMerge.FixesArePresentInAll | tools/extract_gps_trace.py:120-146 | for strictly increasing columns the fixes are exactly the stamps present in all four, each once |
| FixMerge.FixesInOrder | tools/extract_gps_trace.py:120-146 | the fixes come in stamp order, strictly where no stamp repeats |

## Left out

- Wire.RoundTrip: float32 channels are modelled over `real`, so the loss of precision of a 32-bit float is not captured; double channels likewise have no rounding.
- LapTable.LapMaterialiser.Complete: the session, stint, track and direction fields of a lap row are copied from the payload and are not modelled.
- Pipeline.FlushIdsDistinct: stated for a wall clock that runs at unit rate; a clock stepped between windows can repeat an id.
- Pipeline.Pipeline.Ingest: the taps of derived channels (lap timing, fusion) are not called.
- Publisher.PublishedIsStored: the broker is taken to remember every id it stored; the two-minute duplicate window is not modelled.
- IngestWriter.Writer.ApplyRegistry: the retry loop around recording a generation in the database is one step that succeeds.
- IngestWriter.TimescaleStore.Flush: session and stint resolution, lap and sector tables with their conflict rules, and microsecond timestamps are not modelled; lap rows and pit updates are appended as lists.
- LiveLimiter.LiveService.Take: one configuration; `reconfigure` drops pending updates without counting them, and a gate kept from another rate is not reached.
- LapTable.LapMaterialiser.Fold: JSON parsing, session ids and the conversion of the crossing time to a date are outside; a payload arrives parsed or malformed.
- The engine's constructor (ordering of lap points, classification of lines), its snapshot and restore, and the event's position, heading and speed fields.
- The publisher's connection handling, stream provisioning, registry republication, session and RTCM subscriptions.
- Threads and asyncio scheduling: each locked section or stretch between awaits is one atomic step.
- Protobuf bytes, YAML and JSON text, NATS, PostgreSQL and MQTT themselves: messages are datatypes and the outcomes of calls are nondeterministic steps.
- The SHA-256 over the catalog and the derived channels is represented by what it is computed from, that is, taken as injective.
- Reading the registry state file, its lock and its validation of a damaged record.
- `_Column.ordered` sorts the columns before the merge; the merge is modelled on ordered columns.
- Fusion, simulators, importers, collectors, notifier, health counters and reports.
