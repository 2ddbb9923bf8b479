# A verified model of Cuirass

Cuirass guards calls to services: an executor runs each command behind a circuit
breaker and a semaphore, answers from a request cache where it may, falls back when
a command fails, and keeps metrics and a request log. This project models those
parts in Dafny and proves what they keep over whole runs. `dafny verify
dfyconfig.toml` checks all of it.

## How the model is laid out

Each component that the repository updates in place is a class with the same fields,
and each of its methods is proved equal to a step function on values. What a component
is for is then proved about those functions, over every run.

- `Clocks`: a clock is a fixed sequence of readings, in nanoseconds; every component
  reads the shared clock and the number of readings made is part of the state.
- `RollingNumber`, `RollingWindow`: the sliding-window counter against a log of its
  increments. Buckets rotate on access and restart at the time of the access, so the
  window in real time is not the nominal one. A sum counts exactly the latest increments;
  those at most `(n-1)*B` old are always counted, those more than `(2n-1)*B - n` old never,
  and neither bound can be improved.
- `Percentiles`, `PercentileBucket`, `PercentileModel`, `RollingPercentile`,
  `PercentileWindow`: the rolling percentile, its ring buffers and its interpolation.
- `BreakerModel`, `CircuitBreaker`, `CircuitBreakers`: the breaker and the executor's map
  of breakers. `BreakerRuns` are runs of calls that do not overlap; `BreakerSnapshot`,
  `BreakerHistory` and `BreakerLockstep` prove what such runs keep, and `BreakerParting`
  when the counters part, with the counters worked out in `BreakerExamples`. In the runs of
  `BreakerOverlap` functions overlap: each call is admitted in one step and ends in another, with
  any other steps between. The same evidence and spacing are proved of them, and the calls that
  do not overlap are the special case; `BreakerSnapshotOverlap` is about the snapshots in them.
  `BreakerInterleaving` is the protocol of the atomic operations, on real counters, among any
  number of threads; `BreakerJudgement` gives the evidence for trips and admissions there, and
  `BreakerScript` proves that every thread runs the code of its call on what it reads, whoever wins
  the swaps; `BreakerDecisions` tells what the breaker decides for each setting and state;
  `BreakerSolo` shows that a thread left alone makes exactly the calls of
  `BreakerModel`, and `BreakerLateTrip` builds on that the run in which a trip store is late.
- `Semaphore`, `SemaphoreProtocol`: permits, the semaphores of the groups, and any
  interleaving of runs that take and return permits while maxima change.
- `RequestLog`, `RequestLogText`, `RequestLogTimes`, `RequestLogExamples`, `RequestCache`, `MetricsModel`,
  `MetricsPercentage`, `CommandMetrics`: the log and its text, the cache, and the event counters and the
  error percentage of a command.
- `ExecutorModel`, `CommandExecutor`: one `Exec`, as a function and as a method of an object
  that owns breakers, semaphores and metrics. `ExecutorReplies` tells the reply and the events of an
  execution case by case. `ExecutorOutcomes`, `ExecutorCache`, `ExecutorAccounts`, `ExecutorTimes`,
  `ExecutorBreakers` and `ExecutorSnapshot` prove what executions report, what the cache answers,
  what the metrics count, which execution times they keep, that the breakers of an executor inherit
  everything proved of runs of one breaker, and that callers cannot tell an executor whose
  breakers drop their snapshots from one whose breakers store them, as long as the sleep windows
  cover the snapshot intervals.

Commands are described by how their functions would end if they were called: a response
with or without an error, or a panic. A timeout is the error `DeadlineExceeded` of a run.
Configuration values are parameters; durations and thresholds are nonnegative where a
statement says so.

## Where the code differs from its comments or from the evident intention

The model follows the code.

- `circuitbreaker/circuitbreaker.go:73-85` stores a new health snapshot only in a local
  variable, so a call that takes no fresh snapshot reads zeros. If calls do not overlap, no caller
  can notice exactly when the sleep window is at least the snapshot interval, whatever the
  nonnegative threshold; the same holds of all overlapping runs in which the breaker does not open
  while a trial is running. Otherwise a caller can notice whatever the properties: a trial that
  outlasts another one closes the breaker just after it has opened again.
- `circuitbreaker/circuitbreaker.go:119-134` counts requests and errors in two counters that
  re-anchor independently, so that a snapshot can show more errors than requests. If no call is
  forced closed or panics, and the clock stands still during calls, that never happens exactly
  when there is no snapshot interval; with panics, exactly when in addition the threshold is at
  least 100 percent.
- `circuitbreaker/circuitbreaker.go:191-195` opens the breaker and stores the trial time in
  two steps. If each admission is one step trials are always spaced by the sleep window, also when
  functions overlap; with the atomic operations interleaved, exactly when no two threads use the
  breaker.
- `num/rollingpercentile.go:57` clears the remainder of the number of buckets behind. The
  buckets cleared are those the counter would clear exactly when the access is less than a
  window late; over every run the values kept are those of its last ticks, which advance by
  the buckets cleared, so after a longer gap stale values can stay.
- `num/rollingnumber.go:43-44` says that the window can be larger than requested. It is larger
  exactly when a bucket would be shorter than a millisecond, and otherwise, dividing whole
  nanoseconds, smaller exactly when the number of buckets does not divide it.
- `executor.go:73-76` returns a nil error, and nothing else, when a command panics and its
  fallback is disabled, although the comment at `executor.go:67` says that panics are returned as
  errors; and it counts every rejected or late execution as a plain failure.
- `executor.go:172` gives the fallback a copy of the events, so that a cached response of a
  fallback shows `ResponseFromCache` alone.
- `semaphorefactory.go:30-35` replaces the semaphore of a group when its maximum changes. A group
  stays within the largest maximum it can be asked for exactly when there is no other maximum.
- `requestlog/log.go:22-23` explains the event of an open breaker as one of a closed breaker.

## Model

| member | source | states |
|---|---|---|
| RollingNumber.CalculateBucketSize | num/rollingnumber.go:46-54 | never below a millisecond; otherwise the largest whole size whose buckets fit the window |
| RollingNumber.WindowSizeReached | num/rollingnumber.go:43-54 | the buckets together are exactly, less than, or more than the window asked for: each if and only if a division condition holds |
| RollingNumber.BehindBound | num/rollingnumber.go:97-98 | moving d buckets takes at least d and at most d(2 - 1/B) bucket sizes B of real time |
| RollingNumber.Rotate | num/rollingnumber.go:95-110 | an access keeps the sizes and leaves an anchor less than a bucket size old |
| RollingNumber.RollingNumber.constructor | num/rollingnumber.go:30-39 | a new counter is the zero value anchored at its one clock reading |
| RollingNumber.RollingNumber.FindCurrentBucket | num/rollingnumber.go:95-110 | the rotation loop in place computes the rotated value, with one clock reading |
| RollingNumber.RollingNumber.Increment | num/rollingnumber.go:64-68 | the new value is the rotated one with one more in the current bucket |
| RollingNumber.RollingNumber.Sum | num/rollingnumber.go:71-82 | the sum of the rotated buckets, which also become the state |
| RollingNumber.RollingNumber.Reset | num/rollingnumber.go:85-91 | zero everywhere and a new anchor |
| RollingWindow.BucketHoldsOneTick | num/rollingnumber.go:64-110 | the bucket j back from the current one counts exactly the logged increments of the tick j back |
| RollingWindow.SumCountsWindow | num/rollingnumber.go:71-82 | the buckets add up to the increments with a tick among the last n |
| RollingWindow.WindowIsSuffix | num/rollingnumber.go:71-82 | those are the latest increments, with none left out in between |
| RollingWindow.ClearingAdvancesTicks | num/rollingnumber.go:99-107 | clearing any number of buckets, more than a window too, is advancing the ticks of the log |
| RollingWindow.RotateExplained | num/rollingnumber.go:95-110 | every access keeps a log and a tick that explain the buckets, with times in step with ticks |
| RollingWindow.IncrementExplained | num/rollingnumber.go:64-68 | an increment adds exactly one event, of its own time and tick, to that log |
| RollingWindow.RunExplained | num/rollingnumber.go:64-110 | over every run an explicit log and tick, followed access by access, explain the buckets; the log holds exactly the increments since the last reset |
| RollingWindow.BucketsOverRun | num/rollingnumber.go:64-110 | so over every run the bucket j back from the current one counts exactly the increments with the tick j back |
| RollingWindow.TotalCountsLatest | num/rollingnumber.go:71-82 | a counter that has recorded certain times sums exactly the latest of them, within the age bounds |
| RollingWindow.RollingSumIsRealTimeWindow | num/rollingnumber.go:64-110 | for every pattern of increments, sums and resets a sum counts exactly the latest increments since the last reset; all at most (n-1)B old, none past the limit age |
| RollingWindow.LimitAgeInBuckets | num/rollingnumber.go:95-110 | the limit age is (2n-1)B - n |
| RollingWindow.SureAgeIsSharp | num/rollingnumber.go:95-110 | an increment one nanosecond past (n-1)B can be lost, for every bucket size and number |
| RollingWindow.LimitAgeIsSharp | num/rollingnumber.go:95-110 | an increment of exactly the limit age can still be counted, for every bucket size and number |
| RollingWindow.TotalNeverGrows | num/rollingnumber.go:71-82 | reading again later, at any time, gives a sum between zero and the earlier one |
| Percentiles.Sort | num/rollingpercentile.go:79 | the same values in ascending order |
| Percentiles.PercentileInRange | num/rollingpercentile.go:104-123 | on a sorted non-empty slice all indexing is in bounds and the result lies between first and last value |
| Percentiles.PercentileMonotone | num/rollingpercentile.go:104-123 | a larger percentile gives at least as large a value, across interpolation boundaries and both clamps |
| Percentiles.PercentileMonotoneInValues | num/rollingpercentile.go:104-123 | pointwise larger sorted slices give at least as large a percentile |
| Percentiles.PercentileIsExact | num/rollingpercentile.go:104-123 | which value it is: with n ascending values and i the whole part of p*n/100, the i-th if that is whole, the last if there is none after it, else the linear interpolation rounded down; the first at p <= 0, the last at p >= 100, and 0 of no values |
| Percentiles.MeanIsExact | num/rollingpercentile.go:89-101 | the mean is the average rounded towards zero, and 0 of no values |
| Percentiles.MeanBetweenPercentiles | num/rollingpercentile.go:68-123 | the truncated mean of any values lies between their percentiles 0 and 100 |
| PercentileBucket.RingKeepsLatest | num/rollingpercentile.go:134-146 | after any additions the ring holds exactly the last min(n, size) values; once full, unrolled from its position, in order |
| PercentileBucket.RingIsLatest | num/rollingpercentile.go:139-150 | as a collection the values of a ring are the latest ones added |
| PercentileBucket.PercentileBucket.Add | num/rollingpercentile.go:139-146 | appends or overwrites in the array in place as the ring does |
| PercentileBucket.PercentileBucket.Reset | num/rollingpercentile.go:152-159 | empties the bucket in place or replaces its array by one of the size asked for |
| PercentileModel.MeanBetweenExtremes | num/rollingpercentile.go:68-102 | on one state and one clock reading `Get(0)` is at most `Mean`, and `Mean` at most `Get(100)` |
| RollingPercentile.RollingPercentile.constructor | num/rollingpercentile.go:22-36 | a new percentile has empty buckets and is anchored at its one clock reading |
| RollingPercentile.RollingPercentile.ClearBuckets | num/rollingpercentile.go:57-59 | the rotation loop empties exactly the buckets after the current one, going round |
| RollingPercentile.RollingPercentile.FindCurrentBucket | num/rollingpercentile.go:49-66 | turns the buckets by the gap, clearing only its remainder |
| RollingPercentile.RollingPercentile.Add | num/rollingpercentile.go:45-47 | the value joins the current bucket of the turned state |
| RollingPercentile.RollingPercentile.Get | num/rollingpercentile.go:68-82 | the percentile of the pooled values of the turned state |
| RollingPercentile.RollingPercentile.Mean | num/rollingpercentile.go:85-102 | the mean of the pooled values of the turned state |
| RollingPercentile.MeanOf | num/rollingpercentile.go:89-101 | the counting and summing loop computes the truncated mean, zero for no values |
| PercentileWindow.MovesLikeCounter | num/rollingpercentile.go:49-66 | the current bucket and the anchor move exactly like those of a rolling counter with the same accesses; only what is cleared differs |
| PercentileWindow.TurnExplained | num/rollingpercentile.go:49-66 | an access, however late, keeps every bucket the ring of the values of one tick of the last n, the tick advancing by the buckets cleared |
| PercentileWindow.RunExplained | num/rollingpercentile.go:45-66 | so does every run on a clock that does not go back |
| PercentileWindow.PooledValuesAreRecent | num/rollingpercentile.go:68-78 | the pooled values of any such run are exactly, per tick of the last n, the last min(count, maxBucketItems) values added in it |
| PercentileWindow.PercentileOfRecent | num/rollingpercentile.go:45-123 | after any such run a percentile read is exactly that of these values, and the mean is their average |
| PercentileWindow.PooledValuesByAge | num/rollingpercentile.go:45-78 | if no two accesses are more than (n-1)B apart, no pooled value is past the counter's limit age, and every value at most (n-1)B old is pooled unless maxBucketItems later ones of its tick displaced it |
| PercentileWindow.LogIsAdditions | num/rollingpercentile.go:45-47 | the log of a run holds exactly the values added, in order, at the times they were added |
| PercentileWindow.SameBucketsClearedIffShortGap | num/rollingpercentile.go:54-62 | the loops of percentile and counter clear the same buckets if and only if the access is less than a window late |
| PercentileWindow.LongGapKeepsStaleBuckets | num/rollingpercentile.go:57-61 | after a gap of a window or more every bucket beyond the remainder keeps its contents; after whole windows all do |
| PercentileWindow.LongGapHarmlessIffNoneKept | num/rollingpercentile.go:54-62 | after such a gap the buckets are still those of the window of the real gap if and only if no value was added in the last `n - behind % n` ticks |
| CircuitBreaker.CircuitBreaker.constructor | circuitbreaker/circuitbreaker.go:94-108 | a new breaker is closed, with zero counters anchored at the first two readings |
| CircuitBreaker.CircuitBreaker.TakeHealth | circuitbreaker/circuitbreaker.go:70-85 | a fresh snapshot at most once per interval, else the stored one, which stays zero |
| CircuitBreaker.CircuitBreaker.IsOpen | circuitbreaker/circuitbreaker.go:171-199 | the answer and the new state of the step that may trip the breaker |
| CircuitBreaker.CircuitBreaker.IsTrialCallAllowed | circuitbreaker/circuitbreaker.go:159-168 | a trial needs an open breaker, a sleep window since the time loaded first, and that time unchanged |
| CircuitBreaker.CircuitBreaker.IsRequestAllowed | circuitbreaker/circuitbreaker.go:147-155 | admission and trial, with the state after both questions |
| CircuitBreaker.CircuitBreaker.Settle | circuitbreaker/circuitbreaker.go:119-134 | the state and reply after a function has returned or panicked |
| CircuitBreaker.CircuitBreaker.Do | circuitbreaker/circuitbreaker.go:113-142 | the state and reply of a whole call, for each way the function can end |
| BreakerModel.DoAdmitsThenFinishes | circuitbreaker/circuitbreaker.go:113-142 | a call is its admission followed by what is done when the function has ended, or the refusal |
| BreakerSnapshot.RunSimilar | circuitbreaker/circuitbreaker.go:70-85 | the bisimulation of runs whose calls do not overlap: a closed breaker's stored snapshot would not trip it or has expired |
| BreakerSnapshot.DroppingIsUnobservable | circuitbreaker/circuitbreaker.go:70-85 | if calls do not overlap, with a sleep window of at least the snapshot interval the breaker that drops its snapshots gives the same replies as one that stores them, on every run, with force flags changing between calls |
| BreakerSnapshot.ShortSleepShowsDropping | circuitbreaker/circuitbreaker.go:70-85 | with a shorter sleep window, for every nonnegative threshold and any volume threshold, some run shows the difference |
| BreakerSnapshot.DroppingUnobservableIffSleepCoversInterval | circuitbreaker/circuitbreaker.go:70-85 | for every nonnegative threshold, sleep window and interval: unobservable on all runs of calls that do not overlap if and only if the sleep window is at least the snapshot interval |
| BreakerHistory.RunTracked | circuitbreaker/circuitbreaker.go:113-142 | in every run of calls that do not overlap both counters record exactly the requests and errors since creation or the last successful trial |
| BreakerHistory.EveryTripHasEvidence | circuitbreaker/circuitbreaker.go:171-199 | in such runs a call that opens the breaker does not run its function and took a fresh snapshot of enough requests, none past the limit age, with errors*100 above threshold*requests |
| BreakerHistory.MarksSpaced | circuitbreaker/circuitbreaker.go:147-168 | in such runs trips and trials are in time order, no call is both, and each trial is more than a sleep window after the mark before it |
| BreakerHistory.TrialsAreSpaced | circuitbreaker/circuitbreaker.go:147-168 | in such runs n trials within [a, b] satisfy (n-1)(sleepWindow+1) <= b-a, over any stretch |
| BreakerHistory.OnlyTrialsPassOpenBreaker | circuitbreaker/circuitbreaker.go:113-155 | in such runs, while the breaker is open and unforced only trials pass, and it closes exactly when one succeeds |
| BreakerOverlap.RunKept | circuitbreaker/circuitbreaker.go:113-142 | over every run in which functions overlap, both counters record exactly the requests and errors since creation or the last successful trial, the marks are spaced, and the last mark is the breaker's trial time |
| BreakerOverlap.EveryTripHasEvidence | circuitbreaker/circuitbreaker.go:171-199 | whatever is running, only an unforced call or question opens the breaker, it admits no function, and it took a fresh snapshot of the latest requests and errors, enough and bad enough |
| BreakerOverlap.OnlyTrialsPassOpenBreaker | circuitbreaker/circuitbreaker.go:113-155 | whatever is running, an open breaker admits only trials unless forced, and it closes if and only if one of the running trials succeeds |
| BreakerOverlap.TrialsAreSpaced | circuitbreaker/circuitbreaker.go:147-168 | overlapping trials too: n trials admitted within [a, b] satisfy (n-1)(sleepWindow+1) <= b-a, over any stretch of any run |
| BreakerOverlap.StretchIsRun | circuitbreaker/circuitbreaker.go:113-142 | calls that do not overlap each other do the same to the breaker whatever other functions are running |
| BreakerOverlap.CallsAreSpecialCase | circuitbreaker/circuitbreaker.go:113-142 | runs without overlap are runs of whole calls `Do`, with the same breaker, history and marks |
| BreakerDecisions.QuestionIsAnswered | circuitbreaker/circuitbreaker.go:171-182 | forced closed answers false, otherwise forced open answers true, an open breaker answers true, all without a change or a clock reading; unforced, the answer is whether the breaker is open afterwards |
| BreakerDecisions.ClosedQuestionDecides | circuitbreaker/circuitbreaker.go:184-199 | an unforced question to a closed breaker, more than an interval after the last snapshot, counts the latest requests and errors and opens the breaker if and only if these are enough and bad enough; before, it changes nothing |
| BreakerDecisions.QuestionsAreAnswered | circuitbreaker/circuitbreaker.go:171-199 | so over every run in which functions overlap |
| BreakerDecisions.ForcedCallIsDecided | circuitbreaker/circuitbreaker.go:113-155 | a disabled breaker lets a call through and a forced-open one refuses it, both uncounted; forced closed it runs, counted, and never as a trial |
| BreakerDecisions.OpenCallIsDecided | circuitbreaker/circuitbreaker.go:147-168 | an unforced call of an open breaker is admitted, as a trial, if and only if more than a sleep window has passed since the trial time; else it is refused and counted as an error |
| BreakerDecisions.ClosedCallIsDecided | circuitbreaker/circuitbreaker.go:147-155 | an unforced call of a closed breaker is admitted if and only if the breaker stays closed, and is no trial; a bad fresh snapshot opens it |
| BreakerDecisions.EndIsDecided | circuitbreaker/circuitbreaker.go:119-134 | the end of a function: a panic or a plain success changes nothing, an error is counted and told as an open circuit by a trial, and a successful trial closes the breaker and sets the counters to zero, the errors first |
| BreakerDecisions.NewIsDecided | circuitbreaker/circuitbreaker.go:94-108 | a new breaker is closed, with ten buckets of a second each, the error counter made first |
| BreakerSnapshotOverlap.DroppingUnobservableIffSleepCoversInterval | circuitbreaker/circuitbreaker.go:70-85 | over all runs, with any overlap, in which the breaker does not open while a trial is running: dropping is unobservable if and only if the sleep window is at least the snapshot interval |
| BreakerSnapshotOverlap.OverlappingTrialsShowDropping | circuitbreaker/circuitbreaker.go:70-85 | for every nonnegative threshold, sleep window and interval, and any volume threshold, some run with two overlapping trials shows the difference |
| BreakerLockstep.CountersInLockstep | circuitbreaker/circuitbreaker.go:113-142 | with no snapshot interval or forced-closed calls, no panics or a threshold of at least 100, and a clock that stands still during calls, the counters agree on bucket and anchor and no bucket has more errors than requests |
| BreakerLockstep.SnapshotsAtMostHundredPercent | circuitbreaker/circuitbreaker.go:70-85 | every snapshot of such a run has at most as many errors as requests |
| BreakerParting.CalmSnapshotsProperIffNoInterval | circuitbreaker/circuitbreaker.go:70-85 | on all runs without panics and forced-closed calls every snapshot has at most as many errors as requests if and only if there is no snapshot interval |
| BreakerParting.SnapshotsWithPanicsProperIff | circuitbreaker/circuitbreaker.go:119-134 | if functions may panic, if and only if in addition the threshold is at least 100 percent |
| BreakerParting.ForcedCallsPart | circuitbreaker/circuitbreaker.go:147-176 | whatever the configuration, forced-closed calls without a panic can give a snapshot with more errors than requests |
| BreakerParting.SlowFailureBreaksLockstep | circuitbreaker/circuitbreaker.go:119-130 | with any thresholds one slow failing call leaves an error without a request in the window; a question then opens the breaker if and only if the volume threshold is not positive |
| BreakerInterleaving.RunInv | circuitbreaker/circuitbreaker.go:159-196 | in every interleaving each successful trial swap is more than a sleep window after the write it replaces |
| BreakerInterleaving.TrialsSpacedBetweenTrips | circuitbreaker/circuitbreaker.go:159-168 | n trial swaps with no trip store among them span at least n sleep windows, in every interleaving |
| BreakerInterleaving.TrialsSpacedIfTripsCurrent | circuitbreaker/circuitbreaker.go:191-195 | across trips too, if no trip store is older than the write it replaces |
| BreakerInterleaving.RunAlone | circuitbreaker/circuitbreaker.go:159-196 | with a single thread no trip store ever is |
| BreakerJudgement.RunRecorded | circuitbreaker/circuitbreaker.go:113-142 | in every interleaving the counters record exactly the requests and errors since creation or the last resets, each with the time of its own operation |
| BreakerJudgement.EveryTripWasJudged | circuitbreaker/circuitbreaker.go:171-199 | in every interleaving only a swap opens the breaker, by a thread whose last two operations summed the latest requests and the latest errors, none past the limit age, enough and too many |
| BreakerJudgement.OnlyTrialsPassOpenBreaker | circuitbreaker/circuitbreaker.go:147-168 | in every interleaving a running function is a trial, whose thread swapped the trial time a sleep window after the time it replaced, or its thread found the breaker closed in the same call |
| BreakerScript.RepliesFollowTheCode | circuitbreaker/circuitbreaker.go:113-199 | in every interleaving the reply of a call or question is the one its straight-line code gives on exactly what the thread has read, with every swap compared and written as in the code |
| BreakerScript.RunningIsAdmitted | circuitbreaker/circuitbreaker.go:147-168 | in every interleaving a function runs as a trial if and only if its thread has won the swap of the trial time, and otherwise because the second question of the call was answered false |
| BreakerScript.PlainRunsFoundNoTrip | circuitbreaker/circuitbreaker.go:147-199 | a function that runs as a plain call belongs to a thread whose second question found the breaker closed and then, with its last operation, a health that does not trip |
| BreakerScript.AnswerMeans | circuitbreaker/circuitbreaker.go:184-199 | a question is answered true if and only if the state was found open or the health read trips, whoever wins the swap that opens the breaker |
| BreakerScript.SwapsAreAtomic | circuitbreaker/circuitbreaker.go:74-75 | a swap that finds what it expects writes its value and nothing else, and one that does not changes nothing |
| BreakerSolo.LoneCallIsDo | circuitbreaker/circuitbreaker.go:113-142 | in the protocol a thread that runs alone leaves the breaker exactly as a whole call `Do` does, from any state, gets its reply, and writes the trial time when that call trips or tries |
| BreakerSolo.LoneQuestionIsIsOpen | circuitbreaker/circuitbreaker.go:171-199 | and one that asks alone leaves it as `IsOpen` does, and gets its answer |
| BreakerLateTrip.LateTripStoreAllowsCloseTrials | circuitbreaker/circuitbreaker.go:191-195 | with two threads or more, for every nonnegative configuration, a run from a new breaker that earns its trip by failing calls stores it late and lets two trials pass one sleep window apart |
| BreakerLateTrip.TrialsAlwaysSpacedIffOneThread | circuitbreaker/circuitbreaker.go:159-196 | all trials are more than a sleep window apart in every run if and only if there is at most one thread |
| Semaphore.Semaphore.TryAcquire | util/semaphore.go:13-20 | takes a permit if and only if one is left |
| Semaphore.Semaphore.Release | util/semaphore.go:22-29 | gives a permit back, and panics if and only if none is out |
| Semaphore.SemaphoreFactory.Get | semaphorefactory.go:26-36 | the group's semaphore while its capacity is the maximum asked for, else a new one in its place |
| SemaphoreProtocol.PermitsBalanced | semaphorefactory.go:26-36 | in every interleaving, with any changes of maxima, each semaphore has as many permits out as runs hold, never more than its capacity, and no release panics |
| SemaphoreProtocol.GroupUsesOneSemaphore | semaphorefactory.go:30-35 | with a constant maximum all runs of a group use one semaphore |
| SemaphoreProtocol.ConstantMaximumIsRespected | executor.go:108-117 | with a constant maximum a group never has more concurrent runs than that |
| SemaphoreProtocol.GetFollowsFactory | semaphorefactory.go:26-36 | the protocol's `Get` changes the groups' semaphores as the factory's method does |
| SemaphoreProtocol.TryAcquireFollowsFactory | util/semaphore.go:13-20 | the protocol's `TryAcquire` changes the current semaphore of its group alone, if it is that one |
| SemaphoreProtocol.ReleaseFollowsFactory | util/semaphore.go:22-29 | the protocol's `Release` never panics and gives one permit back to the semaphore it came from; the groups' semaphores change only if that is still the current one of its group |
| SemaphoreProtocol.OverfillExceeds | semaphorefactory.go:30-35 | for any two maxima a group can have more runs than the larger one |
| SemaphoreProtocol.BoundedIffMaximumConstant | semaphorefactory.go:30-35 | over all runs and interleavings a group stays within the largest of its possible maxima if and only if there is only one |
| RequestLog.ExecutionInfo.ExecutionTime | requestlog/log.go:90-97 | the measured time, or zero if that is negative |
| RequestLog.WriteCommand | requestlog/log.go:191-201 | the loop over a buffer writes the name and the events separated by commas |
| RequestLog.RequestLog.AddExecutionInfo | requestlog/log.go:125-129 | appends to the log |
| RequestLog.RequestLog.String | requestlog/log.go:147-176 | the two loops over map and slice render the group-by of the log, with counts and times |
| RequestLog.GroupedIffLogged | requestlog/log.go:154-164 | a text has a group if and only if some execution has that text |
| RequestLogText.OrderDistinct | requestlog/log.go:154-164 | each text has one group |
| RequestLogText.OrderByFirst | requestlog/log.go:154-164 | groups are in the order of their first executions |
| RequestLogText.GroupsPartitionLog | requestlog/log.go:147-176 | group counts add up to the size of the log and group times to its total time |
| RequestLogText.EventsFromText | requestlog/log.go:191-201 | the joined texts of two event lists are equal only if the lists are |
| RequestLogText.TextTellsCommand | requestlog/log.go:191-201 | equal texts mean equal name and events, for all names, so grouping by text is grouping by name and events |
| RequestLogTimes.DecimalParsed | requestlog/log.go:205-215 | the digits written for a number parse to that number |
| RequestLogTimes.GroupTextTells | requestlog/log.go:205-215 | the text of a group tells its count and its whole milliseconds |
| RequestLogExamples.EventsAreNamed | requestlog/log.go:42-62 | the text of each event |
| RequestLogExamples.SeveralEvents | requestlog/log.go:191-201 | the text of a command with three events |
| RequestLogExamples.OneExecution | requestlog/log.go:205-215 | the text of a log with one execution, for any execution: its command text and its whole milliseconds in brackets |
| RequestLogExamples.ThreeAlike | requestlog/log.go:205-215 | the text of a group of three: one time, and the multiplier |
| RequestLogExamples.TwoGroups | requestlog/log.go:166-174 | two groups are separated by a comma and a space |
| MetricsModel.ErrorPercentageInRange | metrics/commandmetrics.go:60-83 | within 0 and 100, whatever the clock does between the nine counter reads, each counter having its own anchor |
| MetricsModel.LedgerFollowsCounters | metrics/commandmetrics.go:85-107 | the counters are those of a ledger that dates every credit |
| MetricsModel.LedgerCountsCredits | metrics/commandmetrics.go:85-98 | the ledger has exactly one date for every credit; a response from cache is credited as that alone |
| MetricsModel.RollingSumCountsCredits | metrics/commandmetrics.go:118-126 | after any updates a rolling sum counts exactly the latest credits of its event within the age bounds, although its counter was made when the event first occurred |
| MetricsPercentage.ErrorPercentageOfUpdates | metrics/commandmetrics.go:60-83 | after any updates there are counts of the five outcomes and then of the four failures, each of the latest credits at its own reading, and the percentage is the share of the second in the first, rounded down, or 0 of nothing; if the clock stands still during the nine readings it is that of the one window: 0 without failures, 100 without successes |
| CommandMetrics.CommandMetrics.constructor | metrics/commandmetrics.go:39-47 | no counters, and an empty percentile of execution times |
| CommandMetrics.CommandMetrics.FindEventCounter | metrics/commandmetrics.go:100-107 | the counter of an event, made and installed if it is new; the others stay |
| CommandMetrics.CommandMetrics.CountEvents | metrics/commandmetrics.go:90-92 | the loop counts every event of the list, with a new counter where needed |
| CommandMetrics.CommandMetrics.RollingSum | metrics/commandmetrics.go:118-126 | the sum of the event's counter, which rotates, or zero |
| CommandMetrics.CommandMetrics.TotalRequests | metrics/commandmetrics.go:60-67 | the sum of five rolling sums read one after the other |
| CommandMetrics.CommandMetrics.ErrorPercentage | metrics/commandmetrics.go:77-83 | the quotient of two such readings, within 0 and 100 |
| CommandMetrics.CommandMetrics.Update | metrics/commandmetrics.go:85-98 | counts the credited events and, unless cached, short-circuited or rejected, records the time; counters and percentile stay apart |
| CommandMetrics.HasEvent | metrics/commandmetrics.go:109-116 | the backwards loop finds an event if and only if it is in the list |
| RequestCache.RequestCache.Get | requestcache/cache.go:58-70 | the entry for name and key, or none |
| RequestCache.RequestCache.Add | requestcache/cache.go:74-92 | the entry with the events marked as cached and a time of zero |
| CircuitBreakers.CbMap.Set | executor.go:270-274 | the breaker joins the map; the others keep their state |
| CircuitBreakers.CbMap.Add | executor.go:233-239 | a new breaker with the given properties for a name that has none |
| ExecutorModel.AttemptedInSteps | executor.go:107-121 | the guarded run is finding the breaker, its admission, the run with a permit, and the end of the call |
| CommandExecutor.CommandExecutor.GetCircuitBreakerForCommand | executor.go:230-241 | the command's breaker is found or made; nothing else changes but the clock |
| CommandExecutor.CommandExecutor.RunWithPermit | executor.go:108-117 | the command runs if and only if a permit is left, which is given back even if it panics; else the semaphore rejects |
| CommandExecutor.CommandExecutor.Attempt | executor.go:105-121 | the named results and the recovered value after `cb.Do`, with the new state of breakers and semaphores |
| CommandExecutor.CommandExecutor.LogRequest | executor.go:160-165 | metrics updated once, and one entry for the log if there is one in use |
| CommandExecutor.CommandExecutor.ExecFallback | executor.go:169-194 | response, error and events of a fallback that succeeds, fails, is missing or panics |
| CommandExecutor.CommandExecutor.Handle | executor.go:71-83 | the deferred handler: success, fallback, or fallback disabled, and what is cached |
| CommandExecutor.CommandExecutor.Exec | executor.go:68-123 | the whole execution: new state, response, error, accounts and calls, cached or not |
| ExecutorOutcomes.ExecEvents | executor.go:68-123 | on every path one account under the command's name: the cached events for a cached response, else one of a fixed finite language; one log entry if the log is used |
| ExecutorOutcomes.OneAccount | metrics/commandmetrics.go:85-98 | such events are credited with exactly one of the five terminal events and `ResponseFromCache` |
| ExecutorOutcomes.DoRunsTheFunction | circuitbreaker/circuitbreaker.go:113-142 | the breaker runs the function if and only if it admits the call, and passes its end on, except that a trial that fails is an open circuit |
| ExecutorOutcomes.WhatIsThrown | executor.go:105-122 | which error and value are thrown, by admission, permit and end of the run: refused, rejected, or what the command gave; any error of a trial counts as an open circuit |
| ExecutorOutcomes.CauseIsThrown | executor.go:105-122 | what is thrown, if anything, is what admission, permit and the end of the run say before the call |
| ExecutorOutcomes.NoErrorIffSuccessOrUnrescuedPanic | executor.go:68-123 | the error is nil if and only if the last event is a success or the breaker admits the call, the group has a permit, the command panics and its fallback is disabled; then it returns nothing |
| ExecutorReplies.RepliesWithoutFallback | executor.go:68-123 | response, error, events and functions called of a success, and of a failure with the fallback disabled, case by case: refused, rejected, failed, failed as a trial, panicked |
| ExecutorReplies.RepliesOfFallback | executor.go:169-226 | and with the fallback enabled: its own response; the error the command returned or its panic carried, an open circuit, a rejection, or the fallback's own panic; the first event by the cause and the second by the end of the fallback |
| ExecutorOutcomes.FallbackDecides | executor.go:169-194 | told by the state before: with the fallback enabled it runs if and only if something is thrown; one that returns an error yields the original failure, one that panics its own panic |
| ExecutorOutcomes.EventTellsCauseIffFallbackEnabled | executor.go:74-79 | told by the state before: the first event tells the cause if and only if the fallback is enabled or the cause is a plain failure; without a cause the only event is a success |
| ExecutorOutcomes.PermitsReturned | executor.go:108-117 | on every path each semaphore keeps its permits; an admitted execution leaves its group a semaphore of the maximum asked for, the old one if it had that maximum, and any other execution changes none |
| ExecutorOutcomes.RejectedOnlyByZeroMaximum | executor.go:108-117 | in every run without overlapping executions the semaphore rejects only with a maximum of zero |
| ExecutorCache.ExecExtendsCache | executor.go:80-99 | no entry is overwritten or lost; the execution's own key has an entry afterwards if and only if, told by the state before, it had one, the fallback is enabled, or nothing is thrown |
| ExecutorCache.CacheOffIsIgnored | executor.go:85-99 | without a cache in the request, a key of the command, or the cache switched on, an execution is the same as with no cache at all, and leaves the cache alone |
| ExecutorCache.RunExtendsCache | executor.go:80-99 | the same over any run |
| ExecutorCache.LaterExecutionsAnsweredFromCache | executor.go:85-99 | every later execution of a cached name and key returns the same response and error, calls neither function, and logs `Success` and `ResponseFromCache`, or `ResponseFromCache` alone |
| ExecutorAccounts.RunFollows | executor.go:160-165 | over every run of a new executor the counters of each command are those of the ledger of its executions |
| ExecutorAccounts.ExecutionsAreCountedOnce | executor.go:68-123 | over every run the credits of the five terminal events and of `ResponseFromCache` add up to the number of executions of the command |
| ExecutorAccounts.CreditsAreExecutions | metrics/commandmetrics.go:85-98 | over every run each event is credited exactly once for each execution of the command that has it, a cached response counting as that alone |
| ExecutorAccounts.RollingSumsCountExecutions | metrics/commandmetrics.go:118-126 | and the executor's rolling sums count exactly the latest of those credits within the age bounds |
| ExecutorAccounts.ErrorPercentageOfExecutions | metrics/commandmetrics.go:77-83 | and the error percentage of the executor's own counters is the share of the failures among these credits |
| ExecutorTimes.MeasuredIsTimed | metrics/commandmetrics.go:85-98 | told by the state before, an execution is timed unless it is answered from the cache or, with the fallback enabled, ends as an open circuit or a rejection |
| ExecutorTimes.TimesFollow | metrics/commandmetrics.go:85-98 | over every run the percentile of a command has taken exactly the times of its timed executions, in order, each when it was accounted for |
| ExecutorTimes.PercentileOfExecutions | num/rollingpercentile.go:68-82 | so a percentile read then is exactly that of the latest of these times per tick of its window |
| ExecutorAccounts.LogHoldsEachExecutionOnce | executor.go:160-165 | the log gets exactly one entry per execution with the log switched on, in order, with its name |
| ExecutorBreakers.DoLater | circuitbreaker/circuitbreaker.go:113-142 | a call depends on the readings it makes, not on how many were made before |
| ExecutorBreakers.CommandsFollowTheirBreakers | executor.go:105-107 | over every run the breaker of each command is one that has taken exactly the calls of its executions that did not come from the cache |
| ExecutorBreakers.TrippingExecutionHasEvidence | executor.go:105-121 | an execution that opens its breaker does not run its command, and the evidence holds of that command's requests |
| ExecutorBreakers.OpenBreakerRunsOnlyTrials | executor.go:105-121 | with its breaker open and unforced a command runs only as a trial, and the breaker closes exactly when a trial succeeds |
| ExecutorBreakers.TrialsOfCommandAreApart | executor.go:105-121 | over every run of the executor two trials of a command are more than a sleep window apart |
| ExecutorSnapshot.DroppingIsUnobservableToCallers | executor.go:68-123 | over every run of executions that do not overlap, if each command's sleep window covers its snapshot interval, each execution of a new executor gives the same response, error, events, calls, metrics, cache and log whether breakers drop or store their snapshots |

## Left out

- HTTP streaming of metrics (`metricsstream/`), the examples, the command builder, the configuration library and the memo of properties: no state of their own worth proving; configuration is passed as parameters.
- The lookup of cache and log in a context: they are optional arguments of `Exec`.
- Goroutines, channels and real timeouts (`util/contextutil/execute.go`): a timeout is an outcome of the run.
- `IsCircuitBreakerOpen`, `Size`, `LastRequest` and other getters; the breaker's `IsOpen` is modelled, but not as a step of executor runs.
- Data races of the Go memory model: methods under a lock, and the two that are not, are atomic here; threads interleave only in the protocols of the breaker and of the semaphores.
- Concurrent creation of a breaker or of command metrics, nested executions, and a cache shared by overlapping executions: executor runs do not overlap. Permits held by other executions are part of the state.
- Rounding of floating-point numbers, 64-bit overflow, negative values converted to unsigned, and `panic(nil)`: integers and reals are exact, panic values are not nil. Percentile ranks are reals, and the error percentage of a fresh snapshot is compared without dividing, which agrees with the code at every threshold, also with no requests.
- A negative error threshold: the initial snapshot has an error percentage of 0 in the code, which exceeds it.
- Executors hold the metrics of their commands as values, made by the functions that the class `CommandMetrics` is proved to compute; that the metrics of different commands share no storage is not modelled.
- `Do` of the class `CircuitBreaker` takes the end of its function as an argument; the executor, whose function takes a permit when it is called, calls the two halves of `Do` around it.
- RollingPercentile.RollingPercentile.FindCurrentBucket: requires that the clock has not gone back behind the anchor, because the code converts the difference to an unsigned number.
- PercentileBucket.PercentileBucket.Add: requires a positive bucket size; with size 0 the code divides by zero. A nil slice is an array of length 0.
- CommandMetrics.CommandMetrics.Update: requires a clock that does not go back, for the same reason as the rolling percentile.
- The protocol of the breaker's atomic operations has no force flags; the bounds on snapshots assume a clock that stands still during each call.
- BreakerHistory.EveryTripHasEvidence: the configuration of the breaker is constant during a run; the force flags are not.
