# Session Clock Guard, modelled and proved in Dafny

The Session Clock Guard decides whether time-stamped VRPN samples may be
republished on a Session's time line. It owns one *clock mapper* per route (a
four-state machine over two streams, with a sliding least-squares window), one
*authority* (the Gazebo clock, the station's wall and steady clocks, or both in
Hybrid), an event log, and the parsers of the two files it trusts: the frozen
policy and the epoch state. A separate health check rechecks from published
diagnostics that the guard is locked.

This project models that core and proves what it is for, over every input, every
run of operations and every reachable state, in all three modes and for any
route set.

## How the model is built

- **Objects that change in place are classes**: `ClockMapper`,
  `SessionClockGuard`, `CanonicalJsonCursor` and `LiveAdmissionTracker`. Loops
  of the program are loops here, with their invariants.
- **Every method is proved against a value-level specification**
  (`MapperSpec`, `GuardSpec`, and the parsing functions). For the guard object,
  `Valid()` says that its state is the state `After(startup, trace)` of the run
  of public operations made so far, so each theorem about runs is a theorem
  about the object.
- **Invariants have two layers** (`GuardInvariant`): `Core` facts hold even in
  the middle of a call, `Settled` facts are broken midway by some calls and hold
  again whenever one returns. `Call` is what every public operation keeps.
- **Canonical formats are proved against a printer** that the program does not
  have: a text is accepted exactly when the printer produces it. The printer in
  turn is proved to write literal texts (`ConfigLiterals`, `EpochTexts`).
- **Every public operation is stated twice**: as a function the object is proved
  to compute, and, in `MapperGates`, `GuardVerdicts`, `GuardDiagnostics`,
  `GuardAnswers` and `GuardEvents`, by the inputs, limits and states before and
  after, without that function's parts.

| File | Contents |
|---|---|
| `Numbers`, `Types`, `Policy` | fixed-width helpers, the guard's values, the four startup validators |
| `LimitRanges` | how far each value of an accepted policy may move, and which routes may join it |
| `LeastSquares`, `Estimator`, `EstimateReports` | the affine fit over exact reals, its loops, what the fit means, and what it reports |
| `MapperSpec`, `ClockMapper`, `MapperRuns`, `MapperGates` | one route: specification, object, facts over runs, and what each observation and poll does to it, limit by limit |
| `LineFits`, `MapperLocking`, `Levels`, `ShortLocks` | one route: samples of one relation are taken, when it locks, the counters of a route on a level clock, exactly when a lock means a full window |
| `GuardSpec`, `GuardInvariant`, `GuardCalls`, `GuardOperations` | the guard: specification, invariant, each operation keeps it |
| `GuardRuns`, `GuardFeeds`, `GuardReceipts`, `GuardHistory`, `GuardClocks`, `GuardDriftLimits`, `GuardLog` | the guard over runs: safety, what each route is handed, receipts, clocks, exact drift limits, event log |
| `GuardVerdicts`, `GuardDiagnostics`, `GuardAnswers`, `GuardEvents` | what each operation does to the authority and the routes, what it reports, what an observation is answered, and what an event says, after every run |
| `QuietRuns`, `GuardLocking`, `LockingRuns` | runs that trouble no authority check, in every mode: what they hand to the routes, that in-gate ones lock and publish, and that every guard has some |
| `LockLimits`, `StaleLocks`, `SilentStreams`, `Fallbacks` | what `locked`, silence and the log do not promise: the exact condition and a run for each |
| `SessionClockGuard` | the guard object |
| `ExamplePolicies` | the repository's example policies are valid; guards without routes lock |
| `Admission`, `LiveAdmission` | the consumer's recheck and its live tracker |
| `Decimal`, `Utf8`, `EpochState`, `EpochTexts` | the epoch identity and the epoch-state file, with its literal text |
| `Floats`, `ConfigText`, `ConfigKeys`, `ConfigFields`, `ConfigRoutes`, `CanonicalConfig`, `FrozenConfigs` | the frozen policy and its canonical text |
| `ConfigLiterals`, `ExampleTexts` | the canonical text by its literal key names, and the three example files |

## Where the code is followed rather than a simpler reading

- A clamped difference can hide a violation only when a 64-bit limit is at or
  above 2^63-1 and below 2^64-1; `Numbers.ClampedStampCheckIsExact` and
  `Numbers.ClampedErrorCheckIsExact` give the exact condition. The drift of the
  station clock over a run is bounded by the frozen wall limits under the exact
  conditions of `GuardDriftLimits`, which builds the failing runs beyond them.
- The offset step, drift, jitter and uncertainty limits bind a window of
  `min_lock_samples`, and `locked` does not imply one: a degraded route locks on
  `recover_lock_samples`. It does imply one in every run exactly when
  `recover_lock_samples >= min_lock_samples` or `lost_after_failures` is 1
  (`ShortLocks.FullLocksAreExact`, which builds the run otherwise). A guard does
  so under the same condition in hybrid, and under
  `recover_lock_samples + 1 >= min_lock_samples` in physical mode, where nothing
  degrades a route before its first sample (`LockLimits.GuardFullLocksAreExact`).
  The example policies (8, 4, 3) are on the failing side
  (`ExamplePolicies.ExamplesLockShort`).
- README.md:199 of the repository calls `locked` the state in which every gate
  holds. Streams age at polls only, and a live stream keeps or brings back the
  lock of a route whose other stream is silent: `StaleLocks.SilenceKeepsLock` and
  `StaleLocks.SilenceIsOverlooked` are runs that publish so. A lock on return of an
  operation means fresh streams exactly when the operation is a poll
  (`StaleLocks.FreshnessIsExact`).
- README.md:203-210 of the repository says that a missing stream closes output and
  that silence reaches loss at the frozen consecutive-failure count. Each completed
  poll that finds the silence closes output (`SilentStreams.SilentPollCloses`), and
  the count loses a route that accepts nothing between those polls
  (`SilentStreams.SilenceLosesRoute`). But an accepted sample of the live stream
  ends the consecutive run, so silence alone leads to loss in every run exactly when
  `lost_after_failures` is 1 (`SilentStreams.SilenceLossIsExact`).
- A degraded guard may fall back to initializing without an event
  (`Fallbacks.FallsBackSilently` is a run), and a Gazebo clock may be admitted
  while the authority is lost (`GuardCalls.AdmittedExactlyWhen`); neither ever
  opens publication.
- A lost authority is no longer aged. In simulation its last age stays, and while
  that is beyond the limit every observation and poll goes on failing the routes
  (`GuardVerdicts.PollVerdictIsExact`, `GuardVerdicts.Aged`).
- A rate outside its limits is reported although its clock is refused
  (`GuardDiagnostics.ClockDiagnosticsAreExact`).
- A station check that fails is a hard loss in both station modes, whatever the
  frozen failure count.

## Model

| member | source | states |
|---|---|---|
| Numbers.ClampedStampCheckIsExact | src/core/session_clock_guard.cpp:21-30 | Comparing the clamped difference of two stamps with a limit decides the true difference for every pair exactly when the limit is below 2^63-1 or is 2^64-1 |
| Numbers.ClampedErrorCheckIsExact | src/core/session_clock_guard.cpp:32-44 | The same for the difference of two signed wall errors |
| Numbers.RoundsToNearest | src/core/clock_mapper.cpp:33-64 | Rounding gives the nearest integer, and the one farther from zero of two |
| Policy.ValidateRoutes | src/core/frozen_config.cpp:359-416 | Accepts exactly the route tables whose routes are legal, pairwise apart in slot, canonical body and raw source, and cover both domains in Hybrid |
| LimitRanges.MinLockRange | src/core/frozen_config.cpp:273-275 | `min_lock_samples` runs from 2 to the estimator window, or to 4096 where there is none |
| LimitRanges.RecoverLockRange | src/core/frozen_config.cpp:276-289 | `recover_lock_samples` runs from 1 to the same |
| LimitRanges.LostAfterRange | src/core/frozen_config.cpp:291-297 | `lost_after_failures` is any positive count |
| LimitRanges.QueueDepthRange | src/core/frozen_config.cpp:291-318 | The queue depth runs from 1 to 65536 |
| LimitRanges.StartupRange | src/core/frozen_config.cpp:307-315 | The startup allowance runs from 250 ms and both age limits to 120 s |
| LimitRanges.SampleAgeRange | src/core/frozen_config.cpp:298-315 | The sample age runs from the poll period and every sample period to the startup allowance |
| LimitRanges.AuthorityAgeRange | src/core/frozen_config.cpp:298-315 | The authority age runs from the poll period to the startup allowance |
| LimitRanges.PollPeriodRange | src/core/frozen_config.cpp:298-306 | The poll period runs from 1 ns to 250 ms and both age limits |
| LimitRanges.UncertaintyRange | src/core/frozen_config.cpp:291-334 | The largest uncertainty is at least the jitter limit and every source uncertainty |
| LimitRanges.WindowRange | src/core/frozen_config.cpp:280-290 | A mapped policy has a window from both lock counts to 4096, and an unmapped one none |
| LimitRanges.OffsetStepRange | src/core/frozen_config.cpp:494-500 | A mapped policy has an offset step of at least the wire resolution, and an unmapped one none |
| LimitRanges.JitterRange | src/core/frozen_config.cpp:328-335 | A mapped policy has a jitter limit from the wire resolution to the largest uncertainty, and an unmapped one none |
| LimitRanges.SkewRange | src/core/frozen_config.cpp:501-507 | A policy with a Gazebo clock has a skew limit of at least the wire resolution, and a physical one none |
| LimitRanges.WallErrorRange | src/core/frozen_config.cpp:508-513 | A station policy has a wall error limit of at least the wall step, and a simulation one none |
| LimitRanges.WallStepRange | src/core/frozen_config.cpp:508-513 | A station policy has a positive wall step limit up to the wall error, and a simulation one none |
| LimitRanges.DriftRange | src/core/frozen_config.cpp:323-327 | A mapped policy has a positive drift limit, and an unmapped one none |
| LimitRanges.LeastRateRange | src/core/frozen_config.cpp:345-350 | A hybrid policy has a least rate above 0, at most 1 and below the largest; no other mode has one |
| LimitRanges.LargestRateRange | src/core/frozen_config.cpp:351-356 | A hybrid policy has a largest rate of at least 1 and above the least; no other mode has one |
| LimitRanges.FixedValues | src/core/frozen_config.cpp:484-493 | The wire resolution, the delay policy and, for a mode, authority and mapping have one value each |
| LimitRanges.RouteRanges | src/core/frozen_config.cpp:514-534 | A route may have exactly the periods and uncertainties for which half a period and the wire resolution fit into the uncertainty, and both into their limits |
| LimitRanges.RouteJoins | src/core/frozen_config.cpp:359-416 | A route may join a table exactly when its names are spelled from the allowed characters, its domain fits the mode, its timing is positive and no route has its slot, canonical body or raw topics |
| LimitRanges.NamesAreSpelled | src/core/frozen_config.cpp:30-74 | A Session identity is 1 to 64 characters of a listed alphabet, a digest 64 lower-case hexadecimal digits |
| LeastSquares.FitIsLeastSquares | src/core/clock_mapper.cpp:174-194 | No affine function has a smaller sum of squared residuals on the window than the fitted one, zero-variance branch included |
| LeastSquares.CollinearSamplesAreRecovered | src/core/clock_mapper.cpp:184-205 | Collinear points with two distinct raws are fitted exactly, with zero worst residual |
| LeastSquares.SumIgnoresOrder | src/core/clock_mapper.cpp:176-192 | Accumulated sums depend on the samples and not on their order |
| Estimator.EstimateAffine | src/core/clock_mapper.cpp:164-215 | The accumulating loops compute the specified estimate: mean, slope, worst residual, rounded offset, drift, jitter, uncertainty and mapped stamp |
| Estimator.EstimateDependsOnlyOnSamples | src/core/clock_mapper.cpp:172-215 | The estimate depends neither on which sample is the anchor nor on sample order |
| Estimator.AffineRelationIsRecovered | src/core/clock_mapper.cpp:193-213 | Samples of one affine clock relation map every raw stamp to that relation's rounded value, with zero jitter |
| Estimator.WindowMapsWithinJitter | src/core/clock_mapper.cpp:198-213 | Every sample of the window is mapped to within the reported jitter of the Session time it was fitted at |
| EstimateReports.EstimateReportsBestLine | src/core/clock_mapper.cpp:164-215 | For every nonempty window and raw stamp some line misses the samples least in squares and some sample most, and the estimate reports that line: the rounded offset, its slope as drift, the rounded worst miss as jitter, and its value as mapped stamp |
| EstimateReports.UncertaintyAddsJitter | src/core/clock_mapper.cpp:210-213 | The uncertainty is the source's plus the jitter, capped at 2^64-1 |
| EstimateReports.UncertaintyCoversWindow | src/core/clock_mapper.cpp:210-213 | Every sample of the window maps to within the uncertainty beyond the source's |
| ClockMappers.ClockMapper.InitializeEpoch | src/core/clock_mapper.cpp:89-133 | Succeeds exactly for a newer epoch with usable anchors; resets everything, or changes nothing |
| ClockMappers.ClockMapper.RecordFailure | src/core/clock_mapper.cpp:225-246 | A failure degrades, an immediate one or a full failure run loses, and a lost mapper never changes |
| ClockMappers.ClockMapper.Poll | src/core/clock_mapper.cpp:135-162 | A poll is one step of the specification: backwards time and missed startup are hard losses, silence a soft failure |
| ClockMappers.ClockMapper.Observe | src/core/clock_mapper.cpp:294-493 | An observation is one step of the specification, and the envelope is the one that step determines |
| MapperRuns.CountersAreExact | src/core/clock_mapper.cpp:225-246 | Over every run: lost exactly when an immediate failure or a full uninterrupted failure run occurred; otherwise the failure counter is the current run, the healthy counter the new raw maxima since the last failure, the recovery counter the same while degraded |
| MapperRuns.WindowIsLatestPushes | src/core/clock_mapper.cpp:378-395 | Over every run the window is the latest pushed samples, bounded by the frozen size, with distinct raws and positive variance from two on, and at least as long as the healthy count |
| MapperRuns.LockingNeedsSamples | src/core/clock_mapper.cpp:433-476 | The window never shrinks; a first lock needs `min_lock_samples`, any lock the smaller of the two lock counts |
| MapperRuns.AcceptedStreamsIncrease | src/core/clock_mapper.cpp:341-351 | On each stream of every run accepted raw and steady stamps strictly increase |
| MapperRuns.StartupBoundsFirstAcceptance | src/core/clock_mapper.cpp:319-328 | Nothing is accepted after the startup allowance while a stream is missing, so a stream's first acceptance falls inside it |
| MapperRuns.MappingIsAccurate | src/core/clock_mapper.cpp:378-451 | A gated window maps every accepted raw to within the frozen jitter bound of the Session time that raw was fitted at |
| MapperRuns.LostRouteStaysLost | src/core/clock_mapper.cpp:304-308 | A lost mapper is unchanged by every run and accepts nothing |
| MapperGates.EarlyChecks | src/core/clock_mapper.cpp:294-351 | A misrouted, fallback, unstamped, late or backwards observation loses a live route at once; an unstarted or repeated one leaves it as it is; every other passes on, and these alone |
| MapperGates.LostRouteRefuses | src/core/clock_mapper.cpp:304-308 | A lost route stays as it is and accepts nothing |
| MapperGates.NoEpochRefuses | src/core/clock_mapper.cpp:294-303 | A mapper without an epoch accepts nothing: each observation is a failure, one of another route a hard one, and a poll does nothing |
| MapperGates.AffineGateIsExact | src/core/clock_mapper.cpp:353-451 | A mapped route accepts a sample that passes on exactly when a full window predicted it, and the new window, if full, steps the offset, drifts either way, jitters and is uncertain within the limits, and maps to a nonzero stamp; it then reports that estimate, and a refusal is a soft failure |
| MapperGates.IdentityGateIsExact | src/core/clock_mapper.cpp:353-451 | An unmapped route accepts a sample that passes on exactly when its source's uncertainty is within the limit, and reports the raw stamp |
| MapperGates.AcceptanceCounts | src/core/clock_mapper.cpp:433-476 | An accepted sample counts exactly when its raw stamp is a new maximum; the route locks exactly when both streams are seen and the healthy or, degraded, the recovery count reaches its limit |
| MapperGates.PollIsExact | src/core/clock_mapper.cpp:135-162 | A poll loses a live route that lies ahead of it or missed its startup, counts a failure for a late stream, and does nothing otherwise; the pose is looked at first |
| MapperLocking.SmoothRouteLocks | src/core/clock_mapper.cpp:433-476 | In either mapping, a route that accepts every sample of its run is locked exactly when both streams have come and `min_lock_samples` of the samples carried a raw stamp above all before them |
| LineFits.AcceptedOnLine | src/core/clock_mapper.cpp:374-451 | A sample on the line of the window that arrives in order and within one offset step is accepted and maps to its own Session stamp, with the drift and uncertainty limits asked for only where they bind |
| MapperLocking.InGateFeedLocks | src/core/clock_mapper.cpp:294-476 | A route fed in-gate samples, of one affine relation within the frozen limits where it is mapped, between timely polls, accepts every one of them and locks as above; each premise speaks of the inputs alone |
| Levels.LevelSteps | src/core/clock_mapper.cpp:135-246 | On a level clock a route's sample, poll or failure moves its counters as a small counter machine says, and a sample is accepted |
| ShortLocks.FullLocksAreExact | src/core/clock_mapper.cpp:397-476 | Every lock of every run of an affine route holds `min_lock_samples` exactly when `recover_lock_samples` is no smaller or the first failure is the last; otherwise a soft authority failure and the recovery samples lock on fewer |
| ShortLocks.HardFullLocksAreExact | src/core/clock_mapper.cpp:397-476 | Where no authority failure is soft, one recovery sample fewer is enough, because silence and quality fail a route only once it holds a sample; otherwise one sample, silence and the recovery samples lock on fewer |
| GuardCalls.GazeboCall | src/core/session_clock_guard.cpp:352-509 | A clock observation keeps the invariant, logs at most its own transition, and moves the remembered clock exactly when it is admitted and advances |
| GuardOperations.ObserveCall | src/core/session_clock_guard.cpp:522-611 | An observation keeps the invariant; an accepted one found a live route and authority and fresh Gazebo evidence within the skew |
| GuardOperations.PollCall | src/core/session_clock_guard.cpp:613-650 | A poll keeps the invariant, and leaves a locked guard only with fresh streams and a fresh clock |
| GuardOperations.FenceCall | src/core/session_clock_guard.cpp:767-772 | The epoch fence keeps the invariant and loses the authority and every route |
| GuardInvariant.FailureSettles | src/core/session_clock_guard.cpp:298-324 | An authority failure restores every end-of-call fact, from any mid-call state when immediate, and with the station in bounds when soft |
| GuardInvariant.StationValidation | src/core/session_clock_guard.cpp:180-234 | A passing station check leaves a whole state with this reading remembered; a failing one keeps only the mid-call facts |
| GuardRuns.RunInv | src/core/session_clock_guard.cpp:60-147 | The invariant holds after construction and after every run of operations |
| GuardRuns.AggregateIsTheWorst | src/core/session_clock_guard.cpp:674-702 | After every run the authority is healthy exactly when locked, and the aggregate is the maximum of authority and routes under Locked < Initializing < Degraded < Lost |
| GuardRuns.LockedNeverInitializes | src/core/session_clock_guard.cpp:674-702 | Once locked, a guard is never initializing again |
| GuardRuns.LostIsFinal | src/core/session_clock_guard.cpp:298-324 | Lost is final for each route, for the authority and for the aggregate, under every further run |
| GuardRuns.LostAuthorityAcceptsNothing | src/core/session_clock_guard.cpp:550-611 | After the authority is lost no observation is accepted or published again, in any mode |
| GuardRuns.PhysicalFailsWhole | src/core/session_clock_guard.cpp:550-560 | In physical mode the authority is locked, or lost together with every route |
| GuardRuns.FenceIsFinal | src/core/session_clock_guard.cpp:767-772 | After an epoch-fence failure authority, aggregate and every route are lost for good |
| GuardRuns.PublicationIsSafe | src/core/session_clock_guard.cpp:522-611 | Publication is allowed only with authority and all routes locked on return, both streams of each seen, wall and Gazebo evidence within bounds, skew within bounds, a strictly greater raw stamp, and mapped equal to raw in simulation |
| GuardFeeds.RoutesAreMapperRuns | src/core/session_clock_guard.cpp:298-650 | After every run each route is in exactly the state its own mapper reaches by the operations the guard handed to it, so every theorem about mapper runs speaks of the guard's own operations |
| GuardFeeds.FeedSays | src/core/session_clock_guard.cpp:522-611 | A route is handed an observation only by an observation of its own slot, with the same raw and steady stamps, and with the station time of its receipt when the station is the authority |
| GuardReceipts.ObserveMoves | src/core/session_clock_guard.cpp:522-611 | An accepted observation enters its own route's memory stamped with station time and is mapped accurately; a refused one changes no route's timelines or window |
| GuardReceipts.ApplyMoves | src/core/session_clock_guard.cpp:298-650 | Any operation changes a route's timelines and window only by an accepted receipt of that route |
| GuardHistory.MemoryIsReceipts | src/core/session_clock_guard.cpp:522-611 | After every run each stream's timeline is its latest accepted receipt, and every fitted sample is an accepted receipt stamped with its station time |
| GuardHistory.ReceiptsIncrease | src/core/clock_mapper.cpp:341-351 | Over a whole guard run accepted raw and steady stamps of a stream strictly increase |
| GuardHistory.FirstReceiptIsTimely | src/core/clock_mapper.cpp:319-328 | The first receipt a stream accepts lies within the startup allowance of the epoch anchor |
| GuardHistory.StampsAreAccurate | src/core/session_clock_guard.cpp:149-163 | In the affine modes, once the window holds `min_lock_samples`, an accepted stamp is mapped within the frozen jitter bound of `W0 + (m - M0)` for an accepted receipt of the same raw |
| GuardHistory.LockedPollIsFresh | src/core/session_clock_guard.cpp:613-650 | If the guard is locked right after a poll, every stream has an accepted receipt and a required Gazebo clock an admitted one within the frozen ages |
| GuardClocks.ClockIsLatestReceipt | src/core/session_clock_guard.cpp:479-487 | After every run the remembered Gazebo clock is exactly the latest admitted receipt |
| GuardClocks.ReceiptsAdvanceTheClock | src/core/session_clock_guard.cpp:381-451 | The first admitted clock is timely; every later one advances both stamps strictly |
| GuardClocks.HybridRateIsBounded | src/core/session_clock_guard.cpp:451-477 | Any two admitted Gazebo receipts of a run are apart by a rate within the frozen bounds, whatever was rejected between them |
| GuardClocks.StationDriftIsStepped | src/core/session_clock_guard.cpp:180-234 | With an error limit below 2^63-1, the wall clock and the station's time line drift apart between any two validated readings of a run by at most one step limit for each reading after the first |
| GuardClocks.StationDriftIsBounded | src/core/session_clock_guard.cpp:180-234 | Under any error limit below 2^63-1 or from 2^64-2 on, the drift between any two validated readings of a run is at most twice the limit |
| GuardDriftLimits.ErrorBoundIsExact | src/core/session_clock_guard.cpp:21-30 | Twice the error limit bounds the drift of every pair of readings of every run exactly for those limits; for each other limit a run of three polls exceeds it |
| GuardDriftLimits.StepBoundIsExact | src/core/session_clock_guard.cpp:32-44 | One step limit per reading bounds the drift of every pair of every run exactly when the error limit is below 2^63-1; from there on a run is built that drifts further, for every step limit |
| QuietRuns.QuietRunIs | src/core/session_clock_guard.cpp:352-650 | In every mode, a run whose operations pass the authority's checks leaves the guard knowing what its inputs say, and has handed each route exactly its own stamped samples and polls |
| QuietRuns.PublishedWhenAllowed | src/core/session_clock_guard.cpp:522-611 | In every state an observation may be published exactly when it is accepted and the guard is healthy and locked on return |
| GuardLocking.InGateGuardLocks | src/core/session_clock_guard.cpp:522-716 | In every mode and for any routes, a guard whose authority inputs pass and whose samples are in gate is locked exactly when the authority has its clocks and every route has seen both streams and `min_lock_samples` new raw stamps, and is initializing until then |
| GuardLocking.InGateObservation | src/core/session_clock_guard.cpp:522-611 | Every observation of such a run is accepted, maps to its raw stamp in simulation and to the station time of its receipt otherwise, and may be published exactly when every route has enough samples by then |
| LockingRuns.OrdinaryRunLocks | src/core/session_clock_guard.cpp:60-147 | Every valid guard in every mode has such a run, of n samples on each stream of each route for any positive n its 64-bit clocks have room for, and is locked at its end exactly when n reaches `min_lock_samples` or there is no route |
| LockLimits.GuardFullLocksAreExact | src/core/session_clock_guard.cpp:298-324 | Under a physical or hybrid policy with routes, a locked guard, or a locked route, holds `min_lock_samples` in every run exactly when `recover_lock_samples`, plus one in physical mode, reaches `min_lock_samples` or the first failure is the last |
| LockLimits.PhysicalShortLock | src/core/session_clock_guard.cpp:613-650 | The physical run beyond: one sample on each stream, silence until a poll, and the recovery samples lock the guard on fewer |
| LockLimits.HybridShortLock | src/core/session_clock_guard.cpp:420-451 | The hybrid run beyond: a stalled Gazebo clock before any sample, its recovery, and the routes' recovery samples lock the guard on fewer |
| StaleLocks.SilenceKeepsLock | src/core/clock_mapper.cpp:454-476 | In every mode a locked guard with routes stays locked and publishes on a pose sample although the route's twist stream has no receipt within the sample age |
| StaleLocks.SilenceIsOverlooked | src/core/clock_mapper.cpp:454-476 | A poll degrades a guard for silence, `recover_lock_samples` pose samples lock it again, and it publishes with the twist stream silent all along |
| StaleLocks.FreshnessIsExact | src/core/session_clock_guard.cpp:613-650 | Under a policy with routes, a lock on return of an operation means a fresh receipt on every stream, in every run, exactly when the operation is a poll or an epoch-fence failure, after which no guard is locked |
| SilentStreams.SilentPollCloses | src/core/clock_mapper.cpp:135-162 | Every completed poll that finds a stream without a fresh receipt leaves its route and the guard degraded or lost |
| SilentStreams.SilenceLosesRoute | src/core/clock_mapper.cpp:225-246 | A route that accepts nothing while `lost_after_failures` completed polls find a stream of it silent is lost, and the guard with it |
| SilentStreams.SilenceIsOutlived | src/core/clock_mapper.cpp:433-452 | However many polls find a stream silent, a run with pose samples between them loses neither the route nor the guard |
| SilentStreams.SilenceLossIsExact | src/core/clock_mapper.cpp:225-246 | `lost_after_failures` silent polls lose the route in every run exactly when that count is 1 or there is no route |
| Fallbacks.FallsBackSilently | src/core/session_clock_guard.cpp:718-738 | Every guard with two routes that survives a first failure has a run that takes it from degraded to initializing, with nothing added to its log |
| GuardLog.EventLogGrammar | src/core/session_clock_guard.cpp:718-765 | Across drains sequences count from one, the log is one NewEpoch and then transitions with Lost only last and never two Locked in a row, and the last event names the aggregate unless it fell back from degraded to initializing |
| GuardLog.OneEventAtMost | src/core/session_clock_guard.cpp:718-738 | One operation appends at most one event and rewrites none |
| GuardEvents.EventsTellTheGuard | src/core/session_clock_guard.cpp:718-759 | Every event that an operation adds to any run names the state reached and carries the epoch, the Session time of the operation, and the reported age, Gazebo stamp, skew, wall error, wall step and rate |
| GuardEvents.FirstEventsTellTheGuard | src/core/session_clock_guard.cpp:113-146 | A fresh guard announces the epoch, and then its lock exactly when it is locked, with the same readings |
| GuardVerdicts.ClockVerdictIsExact | src/core/session_clock_guard.cpp:352-509 | After every run a Gazebo clock loses authority and routes for a failed station, a steady clock that does not advance, a stamp that runs back or a late first one; is a failure for a repeated stamp or a rate off its limits; is taken otherwise, unless zero before the first; and vouches, in hybrid from the second one on |
| GuardVerdicts.ObservationVerdictIsExact | src/core/session_clock_guard.cpp:522-611 | After every run an observation of a frozen route loses authority and routes, or is a failure of both, exactly for the station, the steady clock and the age of Gazebo's; otherwise it moves its own route alone, which fails for skew or is judged with the stated Session time, age and skew; publication is acceptance under a locked guard |
| GuardVerdicts.PollVerdictIsExact | src/core/session_clock_guard.cpp:613-650 | After every run a poll does the same to authority and routes for the same causes, and polls every route when the authority is usable |
| GuardVerdicts.FenceVerdictIsExact | src/core/session_clock_guard.cpp:767-772 | The fence is a hard failure of authority and routes |
| GuardDiagnostics.ClockDiagnosticsAreExact | src/core/session_clock_guard.cpp:352-509 | What a Gazebo clock leaves in the reported wall error and step, age, Session time, latest reading and rate; the rate is that of two successive clocks, even when it is refused |
| GuardDiagnostics.ObservationDiagnosticsAreExact | src/core/session_clock_guard.cpp:522-611 | What an observation leaves there: the station's reading, the age of the Gazebo clock unless the authority is lost, the skew of a simulated sample that gets that far, and nothing else |
| GuardDiagnostics.PollDiagnosticsAreExact | src/core/session_clock_guard.cpp:613-650 | What a poll leaves there; without a station, a completed poll reports Gazebo's stamp as Session time |
| GuardDiagnostics.FenceDiagnosticsAreExact | src/core/session_clock_guard.cpp:767-772 | The fence reports nothing new but the loss |
| GuardDiagnostics.FreshGuardIsExact | src/core/session_clock_guard.cpp:60-147 | What a new guard reports, and that each of its routes is fresh with its source's uncertainty |
| GuardDiagnostics.AnswerIsExact | src/core/clock_mapper.cpp:248-292 | After every run the answer names the frozen route's source and canonical body and the observation's slot, domain, stream and stamps under the guard's epoch, reports the route as the call leaves it, a mapped stamp only if accepted, and the reported age and skew |
| GuardAnswers.UnknownAnswerIsExact | src/core/session_clock_guard.cpp:522-548 | An observation of no frozen route changes nothing and is answered with its own words, no canonical body, and a lost state |
| GuardAnswers.AcceptedWithinPolicy | src/core/clock_mapper.cpp:397-421 | Over every run, an accepted observation that leaves a full window leaves the reported drift in either direction, jitter, uncertainty and offset step within the policy |
| SessionClockGuards.Create | src/core/session_clock_guard.cpp:60-147 | Construction succeeds exactly for a valid policy and nonzero epoch and anchors, and yields a guard with an empty run |
| SessionClockGuards.SessionClockGuard.ObserveGazeboClock | src/core/session_clock_guard.cpp:352-509 | The object after the call is the run extended by this operation, and the answer is the specified one |
| SessionClockGuards.SessionClockGuard.Observe | src/core/session_clock_guard.cpp:522-611 | The same for an observation and its envelope |
| SessionClockGuards.SessionClockGuard.Poll | src/core/session_clock_guard.cpp:613-650 | The same for a poll |
| SessionClockGuards.SessionClockGuard.FailEpochFence | src/core/session_clock_guard.cpp:767-772 | The same for the epoch fence |
| SessionClockGuards.SessionClockGuard.TakeEvents | src/core/session_clock_guard.cpp:761-765 | Returns everything pending and forgets it |
| SessionClockGuards.SessionClockGuard.AggregateState | src/core/session_clock_guard.cpp:674-702 | The scan over the routes computes the aggregate |
| SessionClockGuards.SessionClockGuard.CountLockedRoutes | src/core/session_clock_guard.cpp:708-716 | The scan counts exactly the locked routes |
| SessionClockGuards.SessionClockGuard.FailAuthority | src/core/session_clock_guard.cpp:298-324 | Fails the authority and every route's mapper in place |
| ExamplePolicies.ExamplesAreValid | config/example-hybrid-v24.cfg:1-38 | The example policy of every mode passes the four validators, so a guard can be built from it |
| ExamplePolicies.AuthorityOnlyPhysicalStartsLocked | src/core/session_clock_guard.cpp:113-146 | A physical guard without routes is locked from the start and logs it as its second event |
| ExamplePolicies.AuthorityOnlySimulationLocks | src/core/session_clock_guard.cpp:479-503 | A simulation guard without routes starts initializing and locks on its first timely positive clock |
| Admission.AdmissionAgreesWithGuard | src/ros/session_clock_guard_node.cpp:311-350 | In every reachable state the consumer accepts what the node publishes exactly when the aggregate is locked, the sequence nonzero, and the route count fits 32 bits |
| Admission.AdmissionIsExact | src/core/healthcheck.cpp:24-103 | Whatever the evidence, the consumer accepts it exactly when it says locked throughout, its diagnostics are within the consumer's limits and session, digests, mode, authority, mapping, epoch, counts, wire resolution and delay policy are the consumer's |
| Admission.RefusalIsFirstFault | src/core/healthcheck.cpp:24-103 | Evidence is refused for the first fault it has, in the order the faults are looked for, each fault stated over the evidence and the policy |
| Admission.ForeignAdmissionIsExact | src/core/healthcheck.cpp:24-103 | What a guard publishes after any run is accepted by any consumer, of whatever policy and epoch, exactly when the guard is locked, the sequence nonzero, the count fits, and the guard was built for the consumer's policy and epoch within the consumer's limits |
| LiveAdmission.LiveAdmissionTracker.Observe | src/core/healthcheck.cpp:122-151 | The tracker is ready, or rejected, exactly when the message history is; the changed-publisher branch never fires |
| LiveAdmission.SteadyUntilDecided | src/core/healthcheck.cpp:122-151 | A history stays undecided exactly while every message is admissible with the first one's sequence |
| LiveAdmission.NeverBoth | src/core/healthcheck.cpp:122-151 | No history is both ready and rejected |
| LiveAdmission.VerdictsAreFinal | src/core/healthcheck.cpp:122-126 | Both verdicts survive every further message |
| LiveAdmission.AdmittedExactlyWhenLocked | src/core/healthcheck.cpp:116-151 | A consumer watching a guard admits it exactly when it was locked at its first two messages, and rejects it otherwise |
| LiveAdmission.ReadyMeansTrusted | src/core/healthcheck.cpp:122-151 | A tracker is ready only after two messages in increasing order, with everything up to the second from its publisher, locked, and of its own Session, policy and epoch; a first message that is not rejects |
| LiveAdmission.ForeignIsNeverReady | src/core/healthcheck.cpp:122-151 | No history whose messages are all of another Session, policy or epoch is ever ready, and its first message rejects it |
| Decimals.UnsignedSpelling | src/core/frozen_config.cpp:76-94 | Every unsigned value has exactly one accepted spelling |
| Decimals.EpochSpelling | src/core/types.cpp:121-151 | Every nonzero epoch has exactly one accepted spelling, and a ROS parameter may wrap it in one pair of quotes |
| Utf8.LengthRecognisesEncodings | src/core/epoch_fence.cpp:56-86 | The length is n and the code point v exactly when the n-byte encoding of the scalar value v (section 3 of RFC 3629) starts at the position |
| Utf8.Utf8CodePoint | src/core/epoch_fence.cpp:111-124 | The gathering loop reads the specified code point |
| Utf8.AppendsEncodings | src/core/epoch_fence.cpp:98-109 | Appending a basic-plane scalar value appends its encoding; appending a surrogate appends no encoding |
| EpochState.UnitSound | src/core/epoch_fence.cpp:146-244 | A character or escape that is read is the canonical spelling of what it decodes to |
| EpochState.UnitComplete | src/core/epoch_fence.cpp:146-244 | The canonical spelling of any character reads back as that character |
| EpochState.StringSpelling | src/core/epoch_fence.cpp:146-178 | A string is read as d exactly when d is valid UTF-8 and its one canonical spelling stands there (JSON strings, section 7 of RFC 8259) |
| EpochState.CanonicalJsonCursor.StringValue | src/core/epoch_fence.cpp:146-178 | The cursor's loop reads exactly the specified string and stops after it |
| EpochState.CheckIdentity | src/core/epoch_fence.cpp:250-271 | Accepts exactly the bounded UTF-8 texts without NUL and without white space at either end |
| EpochState.ParseCanonicalEpochState | src/core/epoch_fence.cpp:405-446 | Reading field by field computes the specified parse |
| EpochState.EpochStateSpelling | src/core/epoch_fence.cpp:405-446 | A byte string parses to a state exactly when the state is valid and the bytes are its printed form |
| EpochTexts.EscapesAreLiteral | src/core/epoch_fence.cpp:180-244 | How each scalar value is written inside a string, code by code |
| EpochTexts.StringIsLiteral | src/core/epoch_fence.cpp:146-178 | A string reads as a text exactly when a quote, the text's scalar values so written, and a quote stand there |
| EpochTexts.IdentityIsLiteral | src/core/epoch_fence.cpp:250-271 | An identity is accepted exactly when it encodes scalar values without zero, the first and last outside the listed white space, in at most the allowed bytes |
| EpochTexts.EpochFileIsLiteral | src/core/epoch_fence.cpp:405-446 | A byte string parses to a state exactly when the state's fields are in bounds and the bytes are the file with the literal keys around them |
| Floats.FixedKeepsValue | src/core/frozen_config.cpp:104-133 | Rewriting general notation as fixed notation keeps the number, whatever the exponent |
| Floats.SpellingIsLeast | src/core/frozen_config.cpp:154-168 | The canonical spelling is the fixed spelling at a precision that reproduces the value, and no smaller precision reproduces it |
| Floats.CanonicalFloating | src/core/frozen_config.cpp:154-168 | The precision loop computes that spelling |
| Floats.DoubleSpelling | src/core/frozen_config.cpp:170-184 | A double is read from its canonical spelling and from no other text |
| ConfigText.SplitPairs | src/core/frozen_config.cpp:575-613 | Refuses a text exactly when no legal pairs with distinct keys spell it, and otherwise returns the pairs that do |
| ConfigText.JoinIsInjective | src/core/frozen_config.cpp:582-613 | A text determines its pairs |
| ConfigFields.ScalarsInvert | src/core/frozen_config.cpp:674-779 | The scalar fields read as a configuration exactly when the keys hold that configuration's texts |
| ConfigRoutes.RouteKeySpelling | src/core/frozen_config.cpp:654-671 | Every legal slot and field has exactly one route key |
| ConfigRoutes.LessIsByteOrder | src/core/frozen_config.cpp:646-672 | A slot comes before another exactly when it is a proper prefix of it or its first different byte is less |
| ConfigRoutes.RoutesInvert | src/core/frozen_config.cpp:783-811 | The routes of the slots read as a route list exactly when its texts are what the keys hold |
| CanonicalConfig.EntriesAreLegal | src/core/frozen_config.cpp:209-268 | The canonical pairs of a valid configuration are legal text with no key twice |
| FrozenConfigs.CollectSlots | src/core/frozen_config.cpp:646-672 | Succeeds exactly when every key is known, and yields the named slots in order |
| FrozenConfigs.CanonicalKeyOrder | src/core/frozen_config.cpp:209-268 | Appends exactly the keys of the canonical pairs, in order |
| FrozenConfigs.EntriesAssemble | src/core/frozen_config.cpp:615-811 | The canonical pairs of a configuration assemble to that configuration |
| FrozenConfigs.OrderedPairsAreEntries | src/core/frozen_config.cpp:815-819 | Accepted pairs whose keys are in canonical order are the canonical pairs |
| FrozenConfigs.RenderIsInjective | src/core/frozen_config.cpp:209-268 | Different canonical configurations have different texts |
| FrozenConfigs.Parse | src/core/frozen_config.cpp:570-820 | A text is accepted exactly when it is the canonical text of a valid, slot-ordered configuration under the digest, and then as that configuration |
| ConfigLiterals.SpelledIsLiteral | src/core/frozen_config.cpp:209-268 | A text is the canonical text of a configuration exactly when it joins the pairs of every literal key name with the spelling of the field of that name, present optional keys and routes included, in at most 1 MiB, and the configuration is valid, of a legal Session, under the digest, with spellable floats and routes in slot order |
| ExampleTexts.ExampleIsSpelled | config/example-hybrid-v24.cfg:1-38 | The text of each example file is the canonical text of its example policy, under a formatter that spells its floats as written |
| ExampleTexts.ReadExample | config/example-hybrid-v24.cfg:1-38 | Parsing that text returns that policy |

## Left out

- Floating-point rounding error: `double` and `long double` are exact reals, in
  the estimator and in the Gazebo real-time factor.
- `llround` of values above 2^63: unsigned rounding is the mathematical one up
  to 2^64-1.
- The C library's double reader and the stream's formatter are parameters of the
  policy parser (`Floats.Codec`); the exponent text is taken to be a signed run
  of digits, as the formatter writes it.
- Reason strings, log text, and the text of an error: a failure is an absent
  result, or a refusal constructor in the admission check.
- `routeStatus`, `routeStatuses` and `route`, and the slot, body and authority
  columns of a route's status: copies of fields.
- `run_mode` is a three-value type after parsing; other texts are refused by the
  parser, as the validators refuse them.
- Routes are visited in no particular order where the program visits them by
  slot; no result depends on it.
- The event sequence is a 64-bit counter that wraps, as in the program.
- sha256, file and lock operations of the epoch fence, `loadFile`, and the
  comparison of a parsed epoch state with the running policy.
- ROS subscriptions, publishers, timers, the publisher-set check against the ROS
  master, and topic names other than the Gazebo clock's.
- FrozenConfigs.Parse: a configuration whose float has no canonical spelling
  under the given formatter has no canonical text and is accepted from none.
- GuardHistory.LockedPollIsFresh: states freshness when a poll returns, because
  it holds after no other operation (`StaleLocks.FreshnessIsExact`).
- LockingRuns.OrdinaryRunLocks: the runs that are built need clocks that do not
  reach 2^64-1 on the way; `LockLimits`, `StaleLocks` and `SilentStreams` state
  their exact conditions for a policy, over guards with any anchors.
