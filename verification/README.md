# StarGo, modelled and proved

StarGo turns satellite element sets (TLEs) into position keyframes, keeps a rolling cache of them,
streams them to browsers over server-sent events, and predicts passes over an observer. This project
models the parts of it that are hard to get right and proves what they promise:

* **Passes** (`PassSpec`, `PassTheorems`, `PassPredictor`, `PassFanOut`). A 30-second coarse scan
  triggers a 1-second fine scan that backs up and jumps ahead. The loops are proved against a
  specification on values, and that specification against a second-by-second brute-force scan. The
  sky is an arbitrary partial function of the second, so propagation failures are everywhere possible.
* **Worker pool** (`WorkerPool`). Feeder, workers, closer and collector over two bounded channels, as
  an interleaved transition system in which cancellation can strike at any step.
* **SGP4 memo** (`Sgp4Memo`). Double-checked locking, with any number of callers at any phase.
* **Keyframe cache** (`TleStore`, `KeyframeCache`, `CacheWindow`). The maintenance goroutine as a
  class whose every read of the clock or the store is preceded by arbitrary outside activity: time
  passes, refreshes land, the context ends. A dataset's version is its index in the store's history.
  `KeyframeSource` puts store, memo, pool and cache together.
* **Streaming** (`Sse`, `TokenBucket`, `StreamBatch`, `StreamLog`, `StreamClient`, `StreamHandler`,
  `StreamLimiter`). What the server prints, what the browser's incremental reader makes of any chunking
  of it, the bandwidth budget, what every tick of a connection is answered with, and the cap on
  connections.
* **Element sets** (`Tle`, `TleParser`, `TleDedup`). The resynchronising reader and the merge.
* **Time and frames** (`JulianDate`, `Rotation`), over exact rationals and reals.

`dafny verify dfyconfig.toml` checks everything.

## Where the code differs from what is said about it

* `internal/passes/predictor.go` is asked for passes above a minimum elevation, but its coarse test is
  `el > 0`. It serves a minimum faithfully exactly when the minimum is positive
  (`FaithfulIffMinimumPositive`). A minimum of zero, which a request gets by default
  (`internal/api/server.go:724`), is not: a pass that rises exactly to the horizon is never probed.
* `internal/tle/parser.go:14` says malformed entries are skipped. A recognised triple whose first line
  has fewer than seven characters panics instead, because the slice `line1[2:7]` at line 43 is taken
  before the length check at line 52. `PanicsIff` says exactly when, for any text, and
  `ShortTriplePanics` gives one.
* `internal/cache/keyframe_cache.go` describes a cache that holds the whole window continuously. With
  punctual ticks it does so exactly when the step divides the horizon and the buffer is at least one
  step less a nanosecond (`AlwaysCoveredIff`); the configuration is not checked for either.
* `internal/transform/gmst.go:15` claims validity after March 1, 4801 BC. Over exact arithmetic with a
  mathematical floor the formula is right for every proleptic Gregorian date.

Two results are conditions on callers of the packages rather than differences a deployment meets. The
memo of `internal/propagation/propagator.go` is keyed on the fetch time alone and is right exactly when
equal fetch times imply equal builds (`FreshIffFetchTimesIdentify`); refreshes run one at a time under
the store's lock, so their times differ. The pool of `internal/propagation/worker.go` hangs with zero
workers and one job (`DeadlockFreeIff`); the configuration refuses fewer than one
(`cmd/stargo/main.go:226`).

## Model

| member | source | states |
|---|---|---|
| PassTheorems.RunsAreMaximal | internal/passes/predictor.go:166-219 | the second-by-second scan lists exactly the maximal runs at or above the minimum, in order |
| PassTheorems.ScanFindsRun | internal/passes/predictor.go:145-219 | backing up thirty seconds suffices: a fine scan started by a coarse hit reports a whole maximal run, and leaves the cursor where no run can straddle it |
| PassTheorems.ScanSkipsNoRun | internal/passes/predictor.go:126-133 | the jump past a window never jumps over the start of another run |
| PassTheorems.WindowsAreRuns | internal/passes/predictor.go:113-137 | every predicted span is a maximal run |
| PassTheorems.LongRunsAreFound | internal/passes/predictor.go:113-137 | below the pass limit, no run of thirty seconds or more is missed |
| PassTheorems.ProbedRunIsFound | internal/passes/predictor.go:126-133 | the first run in reach of the fine scan is reported if it lasts ten seconds and a probe falls into it |
| PassTheorems.WindowsAreDisjoint | internal/passes/predictor.go:113-137 | predicted spans are strictly disjoint, increasing, at least ten seconds long and inside the horizon, whatever the samples and failures |
| PassTheorems.ScanRefinesBruteForce | internal/passes/predictor.go:113-252 | without failures, and when being above implies being visible, predictions are an order-preserving subsequence of the brute-force runs with no long run missing and no short one reported |
| PassTheorems.FaithfulIffMinimumPositive | internal/passes/predictor.go:126-178 | that holds over every failure-free sky if and only if the minimum elevation is positive |
| PassTheorems.GrazingPassIsMissed | internal/passes/predictor.go:126-178 | a concrete thirty-second pass that is missed at any minimum of zero or less: it rises exactly to the minimum at second 30 and sets at second 60 |
| PassTheorems.LimitTakesPrefix | internal/passes/predictor.go:115 | a pass limit yields the first passes of the unlimited scan |
| PassTheorems.TrackIsEveryTenSeconds | internal/passes/predictor.go:196-208 | without failures point j of the ground track has the time rise + 10j and the latitude, longitude, altitude and elevation sampled then; there are as many as fit before the set |
| PassTheorems.TrackTracksSky | internal/passes/predictor.go:196-208 | with failures the track is, in order of time, exactly the successful samples at multiples of ten seconds after the rise, each showing its own second |
| PassTheorems.PeakIsPeak | internal/passes/predictor.go:190-195 | the running maximum is the first second of greatest elevation |
| PassPredictor.FineScan | internal/passes/predictor.go:166-219 | the inner loop, failures and cancellation included: first rise, running maximum, ground track, set |
| PassPredictor.RefinePass | internal/passes/predictor.go:145-252 | the record describes the first run of the window scanned; a cancelled refinement reports what a shorter window would |
| PassPredictor.CoarseStep | internal/passes/predictor.go:116-136 | one turn of the coarse loop: the window kept, the next second to probe, the samples taken |
| PassPredictor.StepProgresses | internal/passes/predictor.go:126-136 | a turn that was not cut short keeps exactly the next expected window |
| PassPredictor.StepIsPaid | internal/passes/predictor.go:126-136 | on every sky a turn moves strictly forward, and far enough that samples never exceed twice the seconds covered |
| PassPredictor.StepIsOrderly | internal/passes/predictor.go:132-148 | the next fine scan never starts before the previous one's end: they share at most that second |
| PassPredictor.StepStaysPrefix | internal/passes/predictor.go:116-136 | a turn cut short by cancellation still keeps at most the start of the next expected window |
| PassPredictor.TakeTurn | internal/passes/predictor.go:115-137 | one turn and what it adds to the passes found and the seconds sampled; the cursor strictly advances unless cancelled |
| PassPredictor.PredictSatellite | internal/passes/predictor.go:104-140 | terminates; uncancelled, reports exactly the specified windows; cancelled, a prefix whose last pass may end early; every record disjoint, inside the horizon and well formed; for every sky, minimum and failures at most 2N + 31 samples, fine scans sharing at most a boundary second |
| PassPredictor.ReportIsUnique | internal/passes/predictor.go:104-140 | the request and the sky determine an uncancelled report entirely |
| PassPredictor.RecordsAreWellFormed | internal/passes/predictor.go:241-251 | a reported pass holds the azimuths sampled at its rise, peak and set, peaks where elevation over its own span first reaches its maximum, lasts at least ten seconds, and its track shows the sky second by second |
| PassPredictor.TracksAreEveryTenSeconds | internal/passes/predictor.go:196-208 | without failures point j of a reported track is the sample ten j seconds after the rise, coordinate by coordinate |
| PassFanOut.FanOutIsMap | internal/passes/predictor.go:62-101 | under every schedule each result is its own entry's report, in the order asked: the specified windows if uncancelled, else a prefix of them or the cancellation notice |
| PassFanOut.ScheduleDoesNotMatter | internal/passes/predictor.go:62-101 | any two uncancelled schedules give the same results |
| PassFanOut.InvRun | internal/passes/predictor.go:64-98 | at most the semaphore's number of predictions are under way in any reachable state |
| PassFanOut.SlotsAreWrittenOnce | internal/passes/predictor.go:73-95 | a result slot is never overwritten |
| PassFanOut.RunsAreBounded | internal/passes/predictor.go:67-99 | every run ends within two steps to a goroutine |
| PassFanOut.DeadlockFreeIff | internal/passes/predictor.go:64-99 | some goroutine can always move if and only if the semaphore has a slot or there is nothing to do |
| WorkerPool.InvStep | internal/propagation/worker.go:52-117 | every step of every goroutine conserves outcomes: fed = queued + held + result-queued + collected + dropped, and nothing is dropped unless cancelled |
| WorkerPool.ReachableInv | internal/propagation/worker.go:52-117 | so does every reachable state |
| WorkerPool.NoPanic | internal/propagation/worker.go:59-98 | no goroutine sends on a closed channel or closes one twice |
| WorkerPool.BatchIsSequential | internal/propagation/worker.go:44-118 | when the collector returns, an uncancelled batch is a permutation of the sequential map and successes + errors is the number of entries with a propagator; a cancelled one invents nothing |
| WorkerPool.StepUsesWork | internal/propagation/worker.go:56-117 | a measure decreases on every step |
| WorkerPool.RunsAreBounded | internal/propagation/worker.go:56-117 | so no run is longer than the measure of its first state |
| WorkerPool.NeverStuck | internal/propagation/worker.go:56-117 | with a worker, or without jobs, every state that is not final has an enabled step |
| WorkerPool.DeadlockFreeIff | internal/propagation/worker.go:52-117 | and exactly then |
| WorkerPool.EveryRunEnds | internal/propagation/worker.go:56-117 | every reachable state can be run to the end of all goroutines |
| Sgp4Memo.Build | internal/propagation/propagator.go:57-70 | the rebuild loop computes the fresh build |
| Sgp4Memo.FreshAt | internal/propagation/propagator.go:57-70 | a build maps each NORAD ID to its first entry that initialises |
| Sgp4Memo.FreshFrom | internal/propagation/propagator.go:57-70 | and maps nothing else |
| Sgp4Memo.InvInterleave | internal/propagation/propagator.go:45-79 | in every interleaving the lock has one holder, the memo and every returned map are fresh builds |
| Sgp4Memo.OneAfterTheOther | internal/propagation/propagator.go:46-55 | a later caller with an equal fetch time gets the earlier caller's map in a single step, without the mutex |
| Sgp4Memo.CallersAreNeverStuck | internal/propagation/propagator.go:45-79 | no interleaving is longer than six steps to a caller, and until every call has returned some caller can move |
| Sgp4Memo.EveryCallReturns | internal/propagation/propagator.go:45-79 | every interleaving can be completed so that all calls return, each with a fresh build of its own dataset when equal fetch times imply equal builds |
| Sgp4Memo.FreshIffFetchTimesIdentify | internal/propagation/propagator.go:45-79 | every call in every interleaving returns a fresh build of its own dataset if and only if equal fetch times imply equal builds |
| Sgp4Memo.BuiltAtMostOnce | internal/propagation/propagator.go:50-77 | callers racing over one dataset build it at most once |
| Sgp4Memo.KeyframeIsPerSatellite | internal/propagation/propagator.go:83-112 | on distinct NORAD IDs an uncancelled keyframe is, up to order, each satellite initialised, propagated and transformed on its own |
| TleStore.Store.Get | internal/tle/store.go:21-23 | reads the dataset set last |
| TleStore.Store.Set | internal/tle/store.go:26-28 | replaces it by any dataset |
| KeyframeCache.KeyframeCache.Get | internal/cache/keyframe_cache.go:85-102 | a hit for t is the keyframe of the slot that contains t |
| KeyframeCache.KeyframeCache.GetRecent | internal/cache/keyframe_cache.go:106-125 | exactly the cached keyframes among the last count slots, strictly oldest first |
| KeyframeCache.RecentIsExactly | internal/cache/keyframe_cache.go:106-125 | which are the keyframes cached for one of those slots, none left out |
| KeyframeCache.KeyframeCache.GetLatest | internal/cache/keyframe_cache.go:128-145 | the nearest cached slot not after now, of the last ten |
| KeyframeCache.KeyframeCache.Put | internal/cache/keyframe_cache.go:148-160 | keeps every entry aligned and made from a known version |
| KeyframeCache.KeyframeCache.EvictExpired | internal/cache/keyframe_cache.go:163-184 | removes exactly the keys older than the buffer, and counts them |
| KeyframeCache.KeyframeCache.TleChanged | internal/cache/cutover.go:11-17 | compares fetch times; when these identify datasets and it says no, every entry comes from the current dataset |
| KeyframeCache.KeyframeCache.PropagateToTime | internal/propagation/propagator.go:83-113 | the keyframe is made from a version no older than the one current at the call, whatever refreshes land meanwhile |
| KeyframeCache.KeyframeCache.Warmup | internal/cache/generator.go:65-108 | fills the window; coherence holds with refreshes between any two frames |
| KeyframeCache.KeyframeCache.BuildAside | internal/cache/cutover.go:46-76 | every frame built aside comes from the version the cutover started from or a later one |
| KeyframeCache.KeyframeCache.PerformCutover | internal/cache/cutover.go:28-91 | swaps a whole window in with the fetch time it was started for, or changes nothing when cancelled |
| KeyframeCache.KeyframeCache.GenerateLeadingEdge | internal/cache/generator.go:126-154 | adds the slot one horizon ahead |
| KeyframeCache.KeyframeCache.Tick | internal/cache/generator.go:111-123 | cuts over exactly when the recorded fetch time differs from that of the version read, and otherwise rolls; what each leaves is stated entry by entry; when fetch times identify datasets, a completed turn without a refresh makes every entry current |
| KeyframeCache.QuietTurnKeepsWindow | internal/cache/generator.go:111-154 | if the dataset read still has the recorded fetch time, every unexpired entry is kept as it was, at most one slot is new, and the recorded fetch time stays |
| KeyframeCache.RefreshRebuildsWindow | internal/cache/cutover.go:11-91 | if its fetch time differs, the whole window is rebuilt from that version or a later one, whose fetch time is recorded |
| KeyframeCache.KeyframeCache.Maintain | internal/cache/generator.go:17-37 | the whole goroutine: unless cancelled, as many turns as ticks, each logged as quiet or rebuilding; its keys are those of a monotone run of events at the ticker's pace, so the size bound holds and the coverage theorem applies |
| KeyframeSource.MemoReturnsFresh | internal/propagation/propagator.go:45-79 | for datasets a store held at distinct fetch times, the memo returns a fresh build in every interleaving |
| KeyframeSource.MemoServesEveryCaller | internal/propagation/propagator.go:45-79 | and every call gets its fresh build in the end, whatever has happened so far |
| KeyframeSource.BatchDeliversYield | internal/propagation/propagator.go:83-113 | memo and pool together, under any interleaving and schedule, deliver what the dataset yields: this discharges what PropagateToTime takes for granted |
| KeyframeSource.EntriesHoldCurrentPositions | internal/cache/cutover.go:11-91 | when every entry is current, each holds every satellite of the current deduplicated dataset initialised, propagated to the entry's instant and transformed on its own |
| KeyframeSource.EntriesShowSatellitesAtTheirSlot | internal/propagation/propagator.go:83-113 | an entry shows a position exactly when some satellite of the current dataset, initialised and flown to the entry's own slot, is there |
| CacheWindow.RollCovers | internal/cache/generator.go:111-147 | one punctual turn keeps the window covered |
| CacheWindow.CoveredWhenConfigured | internal/cache/generator.go:65-131 | after every event of every punctual run each grid time from now to the horizon is cached |
| CacheWindow.ShortBufferLosesNow | internal/cache/generator.go:23-35 | with a shorter buffer, a run the ticker can produce loses the current slot: a slow warmup, then a tick late in its slot |
| CacheWindow.FractionalHorizonSkipsSlot | internal/cache/generator.go:126-147 | with a fractional horizon an early tick and a late one leave a hole |
| CacheWindow.AlwaysCoveredIff | internal/cache/generator.go:23-131 | on every punctual run the ticker can produce, always covered if and only if the step divides the horizon and the buffer is at least a step less one nanosecond |
| CacheWindow.SizeBound | internal/cache/generator.go:111-147 | after every completed event at most floor((Horizon+Buffer)/Step)+1 entries |
| Sse.Reader.Read | web/app.js:183-196 | the reader's state depends only on the stream so far, not on where chunks were cut |
| Sse.Reader.ParseBlock | web/app.js:205-218 | hands over the payload of every line that starts with the data prefix |
| Sse.ReadAll | web/app.js:177-202 | the same over a whole connection |
| Sse.BlocksAppend | web/app.js:189-196 | splitting and keeping the last fragment emits the same blocks under any chunking of any string |
| Sse.ReceivedGrows | web/app.js:183-196 | what a prefix of the stream delivers stays delivered |
| Sse.RoundTrip | internal/stream/client.go:103-167 | the browser extracts exactly the payloads sent, in order, with keepalives and retry hints anywhere |
| Sse.RoundTripUnderChunking | web/app.js:172-218 | the same for every chunking; a stream that breaks off delivers a prefix |
| Sse.WireFormat | internal/stream/client.go:103-167 | the bytes of a message, a keepalive and a retry hint |
| Sse.PayloadSurvivesIff | internal/stream/client.go:17-18 | a payload survives if and only if it has no line feed |
| TokenBucket.RefillIsMemoryless | internal/stream/client.go:54-62 | asking twice leaves what asking once at the later instant would |
| TokenBucket.TokensAreCapped | internal/stream/client.go:46-62 | the budget never exceeds two seconds' worth |
| TokenBucket.WindowBound | internal/stream/client.go:46-120 | over any stretch of T seconds the admitted payload is at most 2·rate + rate·T bytes, whatever was forced through |
| TokenBucket.BoundIsAttained | internal/stream/client.go:46-72 | and there is a history that attains it |
| TokenBucket.IdleBudgetIsFull | internal/stream/client.go:54-62 | two seconds without traffic fill the budget |
| StreamBatch.BuildBatch | internal/stream/sse.go:291-321 | every satellite in order, each with its positions over the trail keyframes, oldest first |
| StreamBatch.BatchShowsPositions | internal/stream/sse.go:304-320 | a batch carries the keyframe's instant and, in order, each satellite's ID, its own coordinates and its trail |
| StreamBatch.TrailGrows | internal/stream/sse.go:296-302 | a trail gains the satellite's coordinates from each keyframe that lists it ... |
| StreamBatch.TrailSkips | internal/stream/sse.go:296-302 | ... and nothing from one that does not |
| StreamBatch.SheddingKeepsPositions | internal/stream/sse.go:250-258 | shedding the trails changes nothing else |
| StreamLog.CountersAreExact | internal/stream/client.go:119-124 | messages sent and bytes sent count exactly the frames sent whole, less the retry hint |
| StreamLog.BudgetFollowsUses | internal/stream/client.go:46-120 | the budget is the outcome of its permitted uses and no payload byte escapes it |
| StreamLog.WireIsCut | internal/stream/client.go:103-127 | the wire holds the frames sent whole and at most part of one more |
| StreamLog.BrowserReceivesMessages | web/app.js:172-218 | end to end, under any chunking: only payloads sent, in order, and in the end every message counted |
| StreamLog.AdmittedBandwidth | internal/stream/sse.go:248-275 | the bandwidth bound on admitted payload for every history of a connection |
| StreamLog.PayloadIsAdmittedOrUnasked | internal/stream/client.go:103-129 | every payload byte of a connection was either admitted or sent unasked |
| StreamLog.ConnectionBandwidth | internal/stream/sse.go:248-275 | over any T seconds of a connection all the payload sent is at most 2·rate + rate·T bytes beyond what was sent unasked |
| StreamClient.Client.SendRaw | internal/stream/client.go:103-129 | appends one message to the history and charges it once it is out, or breaks the connection and charges nothing |
| StreamClient.Client.SendKeepalive | internal/stream/client.go:152-167 | appends a comment that costs the budget nothing |
| StreamClient.Client.HasBudget | internal/stream/client.go:54-72 | refills and answers whether n bytes fit; with no limit, always |
| StreamClient.FitsIff | internal/stream/client.go:54-72 | a size fits exactly when there is no limit, or both the burst and the tokens left plus those regained since cover it |
| StreamClient.Client.Tick | internal/stream/sse.go:224-277 | extends the history: the first of the full and the bare batch that fits goes out, admitted, a notice if neither does, and nothing without an encodable keyframe; the budget left is stated |
| StreamHandler.Serve | internal/stream/sse.go:178-287 | an unbroken connection has sent the opening and then, moment by moment, exactly what each tick and keepalive prescribes; a broken one a prefix of that; with a limit, only the metadata and skip notices ever go out unasked, so ConnectionBandwidth bounds its batches |
| StreamHandler.AnswerFromCache | internal/stream/sse.go:224-277 | a tick reads its keyframe and trail from the live cache, and sends what is prescribed for the entries the cache holds |
| StreamHandler.TickIsAnswered | internal/stream/sse.go:224-277 | a cached tick is answered with exactly one message: the full batch if the budget covers it, else the bare one if it covers that, else a notice for that keyframe |
| StreamHandler.MissIsSilent | internal/stream/sse.go:225-233 | a tick whose slot is not cached sends nothing and costs nothing |
| StreamHandler.MessagesAreHits | internal/stream/sse.go:188-287 | over a whole connection, when batches encode, the messages are the metadata and exactly one to every cached tick |
| StreamHandler.MetadataComesFirst | internal/stream/sse.go:188-206 | the retry hint precedes everything, and the metadata every other message |
| StreamLimiter.Limiter.Acquire | internal/stream/rate_limit.go:26-40 | admits exactly when both caps allow it |
| StreamLimiter.Limiter.Release | internal/stream/rate_limit.go:43-52 | removes one handler and leaves no zero entries |
| StreamLimiter.Limiter.Count | internal/stream/rate_limit.go:55-59 | the number of live handlers of the address |
| StreamLimiter.Interleave | internal/stream/sse.go:104-144 | after any sequence of arrivals and departures, each releasing exactly once if it acquired, the limiter holds exactly the addresses that should be inside |
| StreamLimiter.ArrivalIsAdmittedIff | internal/stream/rate_limit.go:26-40 | an arrival joins those inside exactly when there is room in all and for its address, whatever came before |
| StreamLimiter.HoldsExactly | internal/stream/rate_limit.go:8-40 | which means: exact counts, no other keys, both caps |
| StreamLimiter.EndAll | internal/stream/rate_limit.go:43-52 | when all handlers have ended, in any order, nothing is left |
| TleParser.Parse | internal/tle/parser.go:15-76 | the entries of the triples taken, or the panic; what these are is said by the next two rows and PanicsIff |
| TleParser.EntriesAreTheTriples | internal/tle/parser.go:43-72 | entries correspond, in increasing order, to the triples taken whose first line has 32 characters and whose two fields decode; each holds its triple's two lines in their places, its trimmed name, and the ID and epoch decoded from columns 3-7 and 19-32 |
| TleParser.StartsAreTheGreedyChoice | internal/tle/parser.go:29-40 | the triples taken are disjoint, increasing, overlap every other triple of the text from the left, and are the only such choice |
| TleParser.ReadingGivesBackContents | internal/tle/parser.go:15-76 | with noise between triples, blank lines anywhere and any names, reading gives back exactly the triples written; it panics if and only if one has a first line under seven characters |
| TleParser.PanicsIff | internal/tle/parser.go:29-43 | on any text: panics if and only if a triple it takes has a first line under seven characters |
| TleParser.ShortTriplePanics | internal/tle/parser.go:29-43 | a three-line text on which it does |
| TleParser.NoiseCanHideATriple | internal/tle/parser.go:35-40 | why noise must not look like a first line |
| TleParser.BlankLinesAreDropped | internal/tle/parser.go:18-23 | a blank line anywhere makes no difference |
| TleParser.LinesAreKept | internal/tle/parser.go:18-23 | any other line is kept in its place, without the spaces and carriage returns at its end |
| TleDedup.Deduplicate | internal/tle/parser.go:80-96 | one entry to a NORAD ID in order of first appearance, its winner |
| TleDedup.WinnerIsEarliestNewest | internal/tle/parser.go:84-92 | a winner is the earliest of the entries with the newest epoch |
| TleDedup.DedupHasDistinctIds | internal/tle/parser.go:81-92 | NORAD IDs are distinct and in order of first appearance |
| TleDedup.DedupIdempotent | internal/tle/parser.go:80-96 | deduplicating again changes nothing |
| TleDedup.DedupMerges | internal/tle/parser.go:78-96 | sources may be deduplicated before merging or not |
| JulianDate.FormulaInIntegers | internal/transform/gmst.go:16-36 | the floor formula is an integer day number, less half a day, plus the fraction of the day |
| JulianDate.NextDayCountsOne | internal/transform/gmst.go:24-33 | month ends, leap years and centuries: the next calendar day counts one more |
| JulianDate.DayNumberIsMonotone | internal/transform/gmst.go:24-33 | day numbers order dates as the calendar does |
| JulianDate.CivilCounts | internal/transform/gmst.go:24-33 | n days after the Unix epoch the day number is the epoch's plus n, for all n |
| JulianDate.EveryDateIsCivil | internal/transform/gmst.go:24-33 | every date is reached by stepping days from the Unix epoch, at its own day number |
| JulianDate.JulianOfUnix | internal/transform/gmst.go:16-36 | the Julian Date is 2440587.5 plus the Unix time in days, for all instants |
| JulianDate.JulianIsMonotone | internal/transform/gmst.go:16-36 | later instants have larger Julian Dates |
| Rotation.TemeIsRecovered | internal/transform/teme_to_ecef.go:47-76 | position and velocity can both be recovered from the transformed ones |
| Rotation.GreenwichStandsStill | internal/transform/teme_to_ecef.go:47-76 | a point carried eastward by the Earth's rotation over the Greenwich meridian is at rest in ECEF, on the x axis' side: the rotation's direction and the velocity correction's sign |
| Rotation.ShellIsPreserved | internal/transform/teme_to_ecef.go:81-99 | magnitudes scale by exactly 1000, so a position is valid in ECEF if and only if SGP4's own check accepted it |
| Rotation.SezKeepsRange | internal/transform/topocentric.go:98-114 | the local rotation preserves the range |
| Rotation.ObserverIsOnEllipsoid | internal/transform/topocentric.go:28-42 | an observer at height zero stands on the ellipsoid |
| Rotation.AltitudeIsVertical | internal/transform/topocentric.go:37-42 | raising an observer moves it along the local geodetic vertical by exactly the height |
| Rotation.VerticalIsZenith | internal/transform/topocentric.go:98-112 | whatever stands on that vertical is seen exactly at the zenith, at that height |
| Rotation.NorthAndEast | internal/transform/topocentric.go:109-112 | true north and true east have the components azimuth is computed from |
| Rotation.LookAnglesAreDefined | internal/transform/topocentric.go:109-117 | the computed range is the distance, and for a nonzero range the arcsine's argument lies in [-1, 1] |

## Left out

* SGP4 and its initialisation are arbitrary partial functions, and so, for the pass predictor, is the
  whole way from a second to an elevation; JSON encoding is one whose results contain no line feed;
  the NORAD ID and epoch fields are decoded by arbitrary partial functions, and names trimmed by an
  arbitrary one.
* float64 rounding, NaN and infinities: arithmetic is over exact reals, and sines, cosines and square
  roots are any numbers with the defining equation. Angles themselves, the GMST polynomial and
  `ECEFToGeodetic` are numerical analysis and are not modelled.
* Text is a sequence of characters; byte lengths, UTF-8 and the browser's `TextDecoder` are not
  distinguished, and gzip is transparent.
* Line scanning errors (I/O, lines over 64 KiB) before the element-set reader sees its lines.
* Go's zero time as "no set time": a pass setting at the zero instant would be taken for one not yet set.
* KeyframeCache.KeyframeCache.Get: readers running concurrently with maintenance see one lock-protected
  lookup, modelled as an atomic read between maintenance steps.
* KeyframeCache.KeyframeCache.PropagateToTime: a batch cancelled half-way may be short, so completeness
  of keyframes is claimed only while the context is live.
* KeyframeCache.KeyframeCache.TleChanged: nothing is promised for a store that has held two datasets
  fetched at the same instant, which the code cannot tell apart.
* StreamClient.Client.SendRaw: write deadlines are not modelled, and a connection whose write failed is
  taken to fail every later write.
* StreamHandler.Serve: when ticks and keepalives come, with what entries in the cache, and when the client
  leaves, is given as a sequence of moments; resetting the keepalive ticker only affects that sequence. A
  keyframe evicted between a tick's two reads of the cache is not captured.
* `waitForTLEData`, `GracePeriod` (only logged), statistics, size estimates and metrics.
* `GenerateKeyframes`, whose loop is the warmup's without the cache.
* HTTP routing, parameter validation, authentication, health, the network fetcher, the disk cache and
  the API's own rate limiter.
* The browser's rendering, interpolation, reconnection and message handling beyond extracting payloads.
