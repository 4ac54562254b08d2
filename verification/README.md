# NTP exporter: a verified model of `internal/ntp`

The exporter queries NTP servers, directly or through pools, and publishes offset
and delay statistics. This project models the stateful algorithms behind that, in
Dafny, and proves what they guarantee over all inputs, all runs and all
interleavings.

| file | models |
|---|---|
| `ExecuteSteps`, `ExecuteInvariant`, `ExecuteTheorems` | `WorkerPool.Execute` as a system of goroutines over two buffered channels, a wait group and a context: its steps, the invariant of its reachable states, and what every run guarantees |
| `WorkerPools`, `ExecuteCompleteness` | the call under an arbitrary scheduler, `QueryAll`, a run that loses a result, and for which requests one exists |
| `Gate` | many callers of one worker pool, the mutex and the `running` flag |
| `Pools`, `RoundRobin` | `Pool.Query` with both branches, server selection, the best offset |
| `Sorting`, `RealSums`, `SampleTheory`, `Statistics`, `PublishedRecord` | the statistics as methods over pooled buffers, the inequalities and symmetries of the published numbers, and what each published field is in terms of the responses |
| `ObjectPool`, `Client` | the `sync.Pool`s with ownership on the heap, and `QueryMultiple`, which borrows from them |
| `DnsCache` | the DNS cache as an object with its history |
| `DnsRaces`, `DnsStores`, `DnsAnomalies` | the same cache under concurrent callers, which TTL each store gets, and runs that one caller at a time would not allow |
| `Registry` | the double-checked registries of circuit breakers and rate limiters |
| `Adaptive` | the two-phase sampler |
| `CommaList` | the comma-list parser of the configuration |
| `Types`, `Lists` | shared values, and lists as multisets |

How the pieces are modelled:

- A concurrent protocol is a step system: a state, the actions that are enabled in
  it, and the state after each. One action is one atomic step of one goroutine. A run
  is any sequence of enabled steps; "reachable" means "on some run". What makes Go
  panic (a second close, a send on a closed channel, a negative wait group) is
  recorded in the state and proved never to happen.
- Objects and in-place algorithms are classes and methods over arrays, proved
  against functions on sequences; the theorems are about those functions.
- The network, the resolver, the clock and the scheduler are parameters. A querier is
  a relation between a server and the outcomes it may give, so nothing is assumed
  about it except, where a call has to return, that it has an answer.
- Durations are 64-bit integers. Statistics are exact reals, and the square root is
  any function that gives roots of non-negative numbers.

What the proofs turned up about the code:

- `AbsDuration` cannot negate the least duration. `findBestOffset` returns the offset
  closest to zero exactly when that duration is not among the offsets, or is the only
  one (`Pools.BestIsClosest`, `Pools.LeastDurationWins`).
- When the context is cancelled, `Execute` may return a map without some of the
  servers and no error: a worker that waits to deliver may drop its result. Every map
  it returns is complete if and only if all requested servers are equal
  (`ExecuteCompleteness.MapsAreComplete`; a literal run is
  `WorkerPools.CancelledCallLosesAServer`). Which ones a given run misses is
  `ExecuteTheorems.MissingServers`.
- The parallel branch of `Pool.Query` gives the sequential branch's responses exactly
  when each server that answers is listed once and at least one sample is asked for
  (`Pools.ParallelRefinesSequential`): results are keyed by server, and
  `QueryMultiple` with a count below one always fails, while `Query` has no count.
- `PutResponseSlice` clears nothing for `QueryMultiple`, although its comment says so:
  the pooled slice keeps its length of zero while the loop appends to a copy of the
  header, so its array goes on pointing at the responses just returned
  (`Client.QueryMultiple`). Nothing reads those pointers, and the returned slice never
  shares the array.
- `Sample` agrees with `GetOptimalSampleCount` for a steady offset exactly when the
  offset is within the threshold, or both counts are equal, or time is left and the
  high-drift count is the larger one (`Adaptive.TwoPhasesAgree`).
- Round robin by wall clock reaches every server exactly when the query interval and
  the number of servers have no common factor (`Pools.AllSelected`): with the
  default interval of 30 seconds, kept exactly, and a list of four servers, two of them
  are never asked (`RoundRobin.DefaultsAskHalf`).
- `QueryAll` reports a packet loss of 0 for a server that never answered
  (`WorkerPools.FailedServerReportsNoLoss`); for what `QueryMultiple` returns, the
  reported loss is that of the responses exactly when there was no error
  (`WorkerPools.LossOfQuery`).
- The rule that a failure since the last store shortens the next TTL holds call by
  call (`DnsCache.DNSCache.Resolve`). With concurrent calls every store follows it, for
  a configuration with three different TTLs, if and only if calls for the same host do
  not overlap and its entry is not removed during one
  (`DnsAnomalies.RuleHoldsExactly`). The mechanism: a store goes by the entry its call
  had read, as it stood when the call chose (`DnsStores.StoreTTL`,
  `DnsStores.StoreAgainstRule`). So a failure can be forgotten although the entry
  stayed in the cache (`DnsAnomalies.NoticedButForgotten`), remembered although it was
  replaced (`DnsAnomalies.UnnoticedButRemembered`), and forgotten because it was
  (`DnsAnomalies.UnnoticedAndForgotten`).
- `CleanupExpired` is not invisible. It spares every hit on an entry then cached, but a
  host whose entry it took gets no stale answer when the lookup fails
  (`DnsCache.CleanupAndAnswers`), and the middle TTL at its next store
  (`DnsCache.CleanupAndStores`), which can cost a later hit
  (`DnsCache.CleanupCostsAHit`).
- An answer from a cache entry is younger than the entry's TTL exactly when it is a hit
  (`DnsRaces.YoungerThanTTL`). The stale answer given when a lookup fails has no age
  limit (`DnsAnomalies.StaleHasNoAgeLimit`).

The program builds a new `Pool` for every collection (internal/collector/base.go:127), so
there a pool's cache is always empty and its worker pool idle when `Query` is called; what
is proved about warm caches and busy worker pools is about the classes.

## Model

| member | source | states |
|---|---|---|
| `ExecuteTheorems.ChannelSafety` | internal/ntp/workerpool.go:67-141 | In every reachable state nothing panics, each submitted job is in exactly one place (queued, with a worker, sent, collected, dropped), the two channels are within capacity, and at most min(size, n) jobs are in flight |
| `ExecuteSteps.WorkersIsMinimum` | internal/ntp/workerpool.go:36-43 | The smaller of the configured size and the number of servers; a size below one counts as one |
| `ExecuteTheorems.JobsInOrder` | internal/ntp/workerpool.go:85-106 | In every run the queue holds the jobs submitted last, in the order of submission |
| `ExecuteTheorems.NobodyAskedAfterCancel` | internal/ntp/workerpool.go:125-138 | In every run a job that no worker has put to the querier when the context is cancelled never is: whatever is reported for it is the bare context error |
| `ExecuteTheorems.CancelledCallTakesFew` | internal/ntp/workerpool.go:124-138 | In every run each worker takes at most one job more once the context is cancelled |
| `ExecuteTheorems.OneDropPerWorker` | internal/ntp/workerpool.go:134-138 | No run drops more results than there are workers that have left their loop |
| `ExecuteTheorems.ReplyTells` | internal/ntp/workerpool.go:96-117 | The context error only after cancellation, "no results" only when nothing was collected from a cancelled but completely submitted batch, otherwise a map |
| `ExecuteTheorems.LastResultWins` | internal/ntp/workerpool.go:108-111 | Of several results for one server the one collected last is in the map |
| `ExecuteTheorems.SendsNeverBlock` | internal/ntp/workerpool.go:86-98 | Whenever a worker has a result to send, also the send without a cancellation alternative after the caller has given up, the channel has room; so has the jobs channel for the submitter |
| `ExecuteTheorems.Progress` | internal/ntp/workerpool.go:67-141 | No deadlock: until the call returns, some step other than cancellation is enabled, given that the querier returns |
| `ExecuteTheorems.ProgressFrom` | internal/ntp/workerpool.go:67-141 | The same with an explicit choice of the step |
| `ExecuteTheorems.StepDecreases` | internal/ntp/workerpool.go:67-141 | Every step lowers a measure over jobs not submitted, queued jobs, worker positions and uncollected results |
| `ExecuteTheorems.RunsAreBounded` | internal/ntp/workerpool.go:48-118 | Every run ends: none has more than 7n + 3w + 7 steps |
| `ExecuteTheorems.NothingLeftBehind` | internal/ntp/workerpool.go:75-106 | On return, by any path, all workers have exited, the closer is done or was never started, and no step is left |
| `ExecuteTheorems.ResultsAreGenuine` | internal/ntp/workerpool.go:108-155 | Every returned entry is keyed by a requested server and holds what the querier gave for it, or the context error of a cancelled call |
| `ExecuteTheorems.ReturnAccountsForAllJobs` | internal/ntp/workerpool.go:85-117 | When the call returns its map, each job was collected, dropped or left in the queue, and only one of the three; without cancellation, collected |
| `ExecuteTheorems.MissingServers` | internal/ntp/workerpool.go:108-138 | Which servers a given run misses: those all of whose jobs were dropped or left in the queue, and no others; for which requests a run may miss one is `MapsAreComplete` |
| `ExecuteTheorems.CompleteWithoutCancellation` | internal/ntp/workerpool.go:108-117 | Without cancellation the call succeeds and its keys are exactly the requested servers, each with an answer of the querier |
| `ExecuteCompleteness.MapsAreComplete` | internal/ntp/workerpool.go:85-138 | For every request: each map that any run returns has all requested servers if and only if these are all equal; a run that is not cancelled returns a complete map in any case |
| `ExecuteCompleteness.SingleServerRun` | internal/ntp/workerpool.go:121-141 | For every request some cancelled run returns, without error, the result of one server only |
| `ExecuteInvariant.InvStep` | internal/ntp/workerpool.go:48-141 | Every step of every goroutine keeps control, conservation and provenance |
| `ExecuteInvariant.ReachableInv` | internal/ntp/workerpool.go:48-141 | The invariant holds in every reachable state |
| `WorkerPools.RunBatch` | internal/ntp/workerpool.go:67-117 | Under any scheduler the call terminates, with a reply that some run of the system gives |
| `WorkerPools.EveryRunIsScheduled` | internal/ntp/workerpool.go:67-141 | Conversely, every run is the run of a scheduler that looks only at the current state |
| `WorkerPools.WorkerPool.Execute` | internal/ntp/workerpool.go:48-118 | "No servers" exactly for none, "busy" exactly when running; otherwise the reply of a run, and the flag is as before on every path |
| `WorkerPools.CancelledCallLosesAServer` | internal/ntp/workerpool.go:134-138 | A reachable end of a cancelled call: a map without one of the servers, and no error |
| `WorkerPools.LossReported` | internal/ntp/workerpool.go:165-177 | The reported packet loss is that of the responses if and only if there was no error, or as many responses came in as were asked for, and at least one |
| `WorkerPools.LossOfQuery` | internal/ntp/workerpool.go:165-177 | For an outcome of `QueryMultiple`: if and only if there was no error |
| `WorkerPools.FailedServerReportsNoLoss` | internal/ntp/workerpool.go:167-173 | A server that never answered is reported with loss 0, where the statistics of no responses say 1 |
| `WorkerPools.ReportDescribes` | internal/ntp/workerpool.go:165-177 | Every field of a report: zeros throughout for a failed server, otherwise the record of its responses |
| `WorkerPools.Summarise` | internal/ntp/workerpool.go:165-177 | Whatever the map order, each server gets its own report, and the buffer pool gets its buffers back |
| `WorkerPools.QueryAll` | internal/ntp/workerpool.go:159-180 | The reports of the entries that a run of `Execute` returned, or nothing if it failed |
| `Gate.MutualExclusion` | internal/ntp/workerpool.go:49-65 | At every point of every run with any number of callers: at most one is past the gate, the flag is set exactly while one is, and who is inside is in a state that `Execute` reaches on its own |
| `Gate.OnlyTheAdmittedClears` | internal/ntp/workerpool.go:53-65 | The flag is cleared only by the one call past the gate, never by a rejected one, and set only by a call being admitted |
| `Gate.VerdictIsFair` | internal/ntp/workerpool.go:53-59 | In every run a call is turned away if and only if another call was past the gate when it made its test, and admitted if and only if none was |
| `Gate.TestDecides` | internal/ntp/workerpool.go:54-59 | The same of the single test |
| `Gate.ServedOneAfterAnother` | internal/ntp/workerpool.go:48-65 | Calls that do not overlap are all served: each that is done has a reply, or had no servers |
| `Gate.GateProgress` | internal/ntp/workerpool.go:49-65 | While some call has not returned, some call can step |
| `Gate.GateDecreases` | internal/ntp/workerpool.go:49-118 | Every step of every call lowers the work left |
| `Gate.GateRunsAreBounded` | internal/ntp/workerpool.go:49-118 | All runs of all callers end |
| `Gate.StuckMeansDone` | internal/ntp/workerpool.go:61-65 | When no step is left, every call has returned and the flag is down |
| `Pools.ParallelRefinesSequential` | internal/ntp/pool.go:126-172 | For a steady querier and no cancellation, under every schedule and every map order, the parallel branch leaves the sequential branch's multiset of responses if and only if every answering server is listed once and samples >= 1 |
| `Pools.BranchesAgree` | internal/ntp/pool.go:107-187 | For samples >= 1 the best offsets of both branches are as far from zero; for distinct servers the whole responses agree up to order and sign |
| `Pools.ParallelIsPart` | internal/ntp/pool.go:126-142 | However queries fail and whenever the context is cancelled, the parallel branch leaves a part of the multiset that the sequential branch collects undisturbed, and no response twice |
| `Pools.ClientIsTruthful` | internal/ntp/client.go:153-195 | For a server whose successful attempts agree, `QueryMultiple` gives what that lemma asks of the querier, whichever attempts fail and whenever the context is done |
| `Pools.ParallelAtMost` | internal/ntp/pool.go:135-141 | The parallel branch never has more responses than servers, cancelled or not |
| `Pools.CollectFirsts` | internal/ntp/pool.go:135-141 | In whatever order the map is iterated: the first response of each result without error, and their count |
| `Pools.InTurnEnds` | internal/ntp/pool.go:145-164 | The sequential branch asks until the context is done at a server still to be asked, or there are no more; its responses are exactly the answers up to there, in order; it fails with the context's error if and only if the context was done at one |
| `Pools.EarlyStopKeepsTheFirst` | internal/ntp/pool.go:144-171 | Stopping early keeps exactly the first `limit` responses of the whole loop, so it loses some if and only if there are more |
| `Pools.EarlyStopDropsNobody` | internal/ntp/pool.go:91-94 | After truncation to the limit the early stop changes neither the responses nor the error |
| `Pools.FindBestOffset` | internal/ntp/pool.go:214-231 | The first offset of least `AbsDuration` |
| `Pools.BestIsClosest` | internal/ntp/pool.go:213-231 | It is the closest to zero if and only if the least duration is not among the offsets or is the only one |
| `Pools.LeastDurationWins` | pkg/mathutil/math.go:14-19 | A concrete list on which it is not |
| `Pools.BestOfSameResponses` | internal/ntp/pool.go:214-231 | How far from zero the best offset is does not depend on order or repetition |
| `Pools.Selected` | internal/ntp/pool.go:190-211 | Only servers of the pool are selected; which ones over time is `AllSelected` |
| `Pools.AllSelected` | internal/ntp/pool.go:196-203 | A round-robin pool of n distinct servers queried every k seconds selects each of them within n queries if and only if gcd(k, n) = 1 |
| `Pools.Pool.constructor` | internal/ntp/pool.go:35-54 | Strategy and limit default when empty or zero; the DNS cache is new and empty |
| `Pools.Pool.EnableWorkerPool` | internal/ntp/pool.go:57-63 | A new idle worker pool of the given size, five if not positive |
| `Pools.Pool.Servers` | internal/ntp/pool.go:71-94 | The first min(length, `maxServers`) addresses of an answer, the fallback alone for a failure, nothing only without fallback |
| `Pools.Pool.Resolve` | internal/ntp/pool.go:66-104 | The same of what the cache answers; the cache is left as its own `Resolve` leaves it |
| `Pools.Pool.QueryInTurn` | internal/ntp/pool.go:143-171 | With the early stop in place, the responses and the error of the loop without it |
| `Pools.Pool.QueryInParallel` | internal/ntp/pool.go:126-142 | What some schedule and map order give, or nothing when `Execute` fails |
| `Pools.Pool.Query` | internal/ntp/pool.go:107-187 | The servers are the first few the cache answers, or the fallback alone; `ActiveServers` = number of responses <= `TotalServers` = number of servers <= `maxServers`, the best offset is that of the responses, and each branch leaves what the lemmas above compare; a cancelled loop returns what it has, without best offset; the cache is left as its own `Resolve` leaves it |
| `RoundRobin.AskedExactly` | internal/ntp/pool.go:196-203 | Queried every k seconds, the indices ever asked among n are exactly those congruent to t0 modulo gcd(k, n), each within n queries |
| `RoundRobin.FairExactlyWhenCoprime` | internal/ntp/pool.go:196-203 | Every server is asked within n queries if and only if gcd(k, n) = 1 |
| `RoundRobin.EverySecondIsFair` | internal/ntp/pool.go:196-203 | So with k = 1 |
| `RoundRobin.DefaultsAskHalf` | internal/config/defaults.go:44-45 | With the default interval of 30 seconds and four servers only every other server is ever asked |
| `RoundRobin.AskedAreCongruent` | cmd/ntp-exporter/main.go:167 | A fixed interval never leaves the residue class of the first query |
| `RoundRobin.CongruentAreAsked` | internal/ntp/pool.go:202-203 | The query that asks a given server of that class |
| `RoundRobin.Bezout` | internal/ntp/pool.go:202 | The greatest common divisor divides both numbers and is a combination of them |
| `Statistics.CalculateStatistics` | internal/ntp/statistics.go:21-69 | The published record is a function of the responses and the total alone, whatever the pooled buffers contained; all buffers are returned |
| `PublishedRecord.RecordDescribes` | internal/ntp/statistics.go:21-69 | Every field of that record from the responses: n times the mean is the sum; n - 1 times the squared deviation is the sum of squares about the mean, for offsets and for round-trip times; the asymmetry is the largest difference of two round-trip times; the median is in the middle of any sorted arrangement; count and loss; zeros with loss 1 for no responses |
| `PublishedRecord.OneRecordFits` | internal/ntp/statistics.go:21-69 | No other record fits that description |
| `PublishedRecord.MedianIsMedian` | internal/ntp/statistics.go:99-103 | The median is the middle element of any sorted arrangement, or the midpoint of the two middle ones |
| `Statistics.ComputeMedian` | internal/ntp/statistics.go:85-104 | The median of the samples, computed in a borrowed copy: the input array is not touched |
| `Statistics.ComputeMean` | internal/ntp/statistics.go:108-118 | The mean |
| `Statistics.ComputeDeviation` | internal/ntp/statistics.go:123-138 | The root of the N-1 variance, zero below two samples |
| `Statistics.ComputeMin` | internal/ntp/statistics.go:142-154 | The minimum, zero for no samples |
| `Statistics.ComputeMax` | internal/ntp/statistics.go:158-170 | The maximum, zero for no samples |
| `Statistics.PacketLoss` | internal/ntp/statistics.go:71-80 | The share of the samples not received, and 0 exactly when no more were asked for than came in |
| `Statistics.CalculatePacketLoss` | internal/ntp/statistics.go:71-80 | Computes that ratio, also when the total is zero or less than what was received |
| `Statistics.PublishedBounds` | internal/ntp/statistics.go:51-66 | For every list of responses: mean and median within one standard deviation of each other, 0 <= jitter <= asymmetry, and one is zero exactly when the other is |
| `Statistics.JitterAsymmetryBounds` | internal/ntp/statistics.go:60-66 | asymmetry^2 <= 2(n-1) jitter^2 and (n-1) jitter^2 <= n/4 asymmetry^2 |
| `Statistics.OrderDoesNotMatter` | internal/ntp/statistics.go:21-69 | The record depends only on the multiset of responses and the total |
| `Statistics.ClockShift` | internal/ntp/statistics.go:51-58 | A constant added to every offset moves mean and median by it and nothing else |
| `SampleTheory.MedianMinimisesDistance` | internal/ntp/statistics.go:82-104 | The sorted-middle median minimises the sum of absolute deviations |
| `SampleTheory.MeanMinimisesSquares` | internal/ntp/statistics.go:106-118 | The mean minimises the sum of squared deviations |
| `SampleTheory.MeanMedianBound` | internal/ntp/statistics.go:85-138 | (mean - median)^2 is at most the N-1 variance (a single sample has both equal) |
| `SampleTheory.RangeDeviationBounds` | internal/ntp/statistics.go:123-170 | Range and standard deviation bound each other |
| `SampleTheory.PermutationInvariance` | internal/ntp/statistics.go:85-170 | Mean, median, variance and range of a permutation are the same |
| `SampleTheory.ShiftedMedian` | internal/ntp/statistics.go:85-104 | The median of shifted samples is the shifted median |
| `SampleTheory.ShiftedVariance` | internal/ntp/statistics.go:123-138 | The variance of shifted samples is the same |
| `RealSums.CauchySchwarz` | internal/ntp/statistics.go:123-138 | The squared sum of distances is at most n times the sum of squares |
| `Sorting.SortPrefix` | internal/ntp/statistics.go:174-176 | Sorts a slice in place; what is beyond it stays |
| `Sorting.SortedIsUnique` | internal/ntp/statistics.go:172-176 | Only one sorted list has given contents, so any sorting algorithm gives this result |
| `ObjectPool.SlicePool.Take` | internal/ntp/objectpool.go:65-70 | A slice of length zero that nobody holds, old or new, with a backing array shared with no lent slice; its contents are unspecified |
| `ObjectPool.SlicePool.GiveBack` | internal/ntp/objectpool.go:112-120 | Only a borrower gives back; the pool owns slice and array afterwards |
| `ObjectPool.GetFloat64Slice` | internal/ntp/objectpool.go:101-110 | As `Take`, and reslicing to the requested capacity is in bounds; a stored array is kept exactly if it is large enough |
| `ObjectPool.PutFloat64Slice` | internal/ntp/objectpool.go:113-120 | As `GiveBack`; nothing happens for nil |
| `ObjectPool.GetResponseSlice` | internal/ntp/objectpool.go:66-70 | As `Take` |
| `ObjectPool.PutResponseSlice` | internal/ntp/objectpool.go:73-83 | Clears exactly the pointers within the slice's length, no others |
| `ObjectPool.ResponsePool.GetResponse` | internal/ntp/objectpool.go:51-53 | A zeroed struct that nobody holds |
| `ObjectPool.ResponsePool.PutResponse` | internal/ntp/objectpool.go:56-63 | Zeroes the struct and takes it back |
| `Client.Query` | internal/ntp/client.go:115-141 | On success a struct nobody else holds, with the server, the reply's clock offset and its round-trip time; otherwise none is taken |
| `Client.Append` | internal/ntp/client.go:173 | Appending in place while there is room, else in a new array |
| `Client.QueryMultiple` | internal/ntp/client.go:147-196 | The result is a new array outside the pool, with the successful replies in order up to cancellation, in structs held by nobody else; the returned pooled slice still points at them |
| `Client.OutcomeOfAttempts` | internal/ntp/client.go:153-195 | From the attempts alone: the loop stops at the first that finds the context done, or after `count`; response number m has server, offset and round-trip time of the m-th successful attempt before that, and there are no others; the context's error exactly if it stopped early, an error if nothing succeeded |
| `Client.AtMostCount` | internal/ntp/client.go:153-195 | Never more responses than asked for |
| `Client.SteadyServer` | internal/ntp/client.go:153-195 | A server with one answer gives `count` equal responses, or an error when silent or not asked |
| `DnsCache.AdaptiveTTL` | internal/ntp/dnscache.go:138-157 | Always the minimum, the middle or the maximum; which one when is stated by `DNSCache.Resolve` and `DnsStores.StoreTTL` |
| `DnsCache.FirstStore` | internal/ntp/dnscache.go:98-109 | The first store of a host: its TTL is equally far from both bounds, up to one, rounded toward zero, and for ordered non-negative bounds the host is hit exactly until half their sum has passed |
| `DnsCache.MiddleIsHalfway` | internal/ntp/dnscache.go:140 | The middle TTL is equally far from both bounds, up to one |
| `DnsCache.MiddleWithin` | internal/ntp/dnscache.go:140 | The middle is between the bounds |
| `DnsCache.DNSCache.constructor` | internal/ntp/dnscache.go:36-52 | Empty, with default bounds for zeros |
| `DnsCache.DNSCache.Resolve` | internal/ntp/dnscache.go:55-118 | Answer and cache afterwards in every case; an error if and only if the lookup fails and no entry exists; the TTL of every store follows the rule on the host's history: middle if absent, minimum after a failure since its last store, else maximum |
| `DnsCache.DNSCache.Invalidate` | internal/ntp/dnscache.go:160-168 | Removes that host only, and forgets its history |
| `DnsCache.DNSCache.Clear` | internal/ntp/dnscache.go:171-177 | Removes everything |
| `DnsCache.DNSCache.CleanupExpired` | internal/ntp/dnscache.go:207-228 | Removes exactly the entries past expiry and counts them; no hit on an entry then cached is lost, now or later |
| `DnsCache.SurvivesByExpiry` | internal/ntp/dnscache.go:214-218 | An entry outlives a cleanup if and only if its expiry has not passed, and then unchanged |
| `DnsCache.CleanupAndAnswers` | internal/ntp/dnscache.go:61-96 | A later call answers alike with and without a cleanup before it if and only if it is for an address, its lookup succeeds, or the cleanup did not take the host's entry |
| `DnsCache.CleanupAndStores` | internal/ntp/dnscache.go:98-109 | The entry the next lookup stores is the same if and only if the cleanup did not take the host's entry, or that would have given the middle TTL anyway; otherwise it gets the middle instead of the minimum or maximum, and hits are lost exactly between the two expiries |
| `DnsCache.CleanupCostsAHit` | internal/ntp/dnscache.go:140-157 | A cache and times at which a cleanup costs a later hit |
| `DnsCache.DNSCache.Stats` | internal/ntp/dnscache.go:180-204 | The valid entries are those that would hit; valid and expired make the total |
| `DnsRaces.BoundedStaleness` | internal/ntp/dnscache.go:55-118 | Under every interleaving of calls, invalidations, clears and cleanups, a hit at time t returns a real lookup's answer stored less than its TTL before t; the TTL is minimum, middle or maximum, hence at most the maximum if the bounds are in order |
| `DnsRaces.YoungerThanTTL` | internal/ntp/dnscache.go:66-93 | In every run an answer from an entry is younger than the entry's TTL if and only if it is a hit |
| `DnsRaces.AnswersAreReal` | internal/ntp/dnscache.go:80-117 | Every answer, fresh, hit or stale, is what a lookup for that host answered |
| `DnsRaces.CallsNeverStick` | internal/ntp/dnscache.go:55-118 | A call can always go on, whatever the others do |
| `DnsRaces.CleanupSparesCachedHits` | internal/ntp/dnscache.go:207-228 | In every state of every run cleanup does to the cache what the object's does: it removes exactly the expired entries, and no hit on an entry then cached is lost, now or later |
| `DnsRaces.StepInv` | internal/ntp/dnscache.go:55-228 | Every step keeps the invariant behind these |
| `DnsRaces.RunInv` | internal/ntp/dnscache.go:55-228 | So every run does |
| `DnsRaces.FailureIsNoticed` | internal/ntp/dnscache.go:81-93 | In every run, counting the error of a failed lookup changes what the cache shows if and only if the entry the call had read is still the cached one; what that means for later stores is `StoreTTL` |
| `DnsStores.StoreTTL` | internal/ntp/dnscache.go:98-107 | In every run, the TTL of a store is the middle if its call had read no entry, the minimum if an error had been counted on that entry when the call chose, else the maximum |
| `DnsStores.ErrorsAreCounted` | internal/ntp/dnscache.go:84-86 | In every run, an entry's error count is the number of errors calls have counted on it |
| `DnsStores.StoreAgainstRule` | internal/ntp/dnscache.go:98-109 | In every run, a store gets the TTL of the history rule if and only if: no entry was read and none is there now; or the entry read is still there, and an error had been counted on it or no lookup has failed since it was stored; or it was replaced, and an error had been counted on it exactly when a lookup has failed since the replacement (the "only if" for three different TTLs). This is the mechanism; the condition a caller can arrange is `RuleHoldsExactly` |
| `DnsStores.SerialStoresFollowRule` | internal/ntp/dnscache.go:55-118 | The rule holds for every store of a host whose calls do not overlap and whose entry is not removed during one, whatever happens to other hosts |
| `DnsStores.RunKept` | internal/ntp/dnscache.go:55-228 | In every run a host is cached exactly when its history says so, and errors on the cached entry are failures since its store |
| `DnsStores.RuleHoldsSerially` | internal/ntp/dnscache.go:55-118 | The same for runs in which at most one call for the host is busy and nothing removes its entry then |
| `DnsAnomalies.RuleHoldsExactly` | internal/ntp/dnscache.go:55-228 | For three different TTLs and a hostname that is no address: all stores in all runs with at most m >= 1 overlapping calls for the host, with or without removals of its entry during one, follow the rule if and only if m = 1 and without removals |
| `DnsAnomalies.StoreBreaksRule` | internal/ntp/dnscache.go:101-109 | A run about to store with another TTL goes on to a run, within the same limits, that does |
| `DnsAnomalies.RemovedMeanwhile` | internal/ntp/dnscache.go:98-168 | A run with one call at a time whose entry is removed meanwhile: the store gets the maximum, the rule says the middle |
| `DnsAnomalies.NoticedButForgotten` | internal/ntp/dnscache.go:98-107 | For every configuration and host: a run with two overlapping calls in which a failure is counted on the cached entry, and the next store still gets the maximum |
| `DnsAnomalies.UnnoticedButRemembered` | internal/ntp/dnscache.go:81-107 | A run in which a failure is counted on a replaced entry, and a call that had read that entry still stores with the minimum |
| `DnsAnomalies.UnnoticedAndForgotten` | internal/ntp/dnscache.go:81-107 | A run in which it is counted on a replaced entry, and a call that reads the new one stores with the maximum |
| `DnsAnomalies.StaleHasNoAgeLimit` | internal/ntp/dnscache.go:80-93 | For every age a run that returns a stale answer older than that |
| `DnsRaces.AloneIsResolve` | internal/ntp/dnscache.go:55-118 | From any state of any run, a call that nobody interferes with answers and changes the cache as the object's `Resolve` does |
| `Registry.OneObjectPerServer` | internal/ntp/circuitbreaker.go:81-115 | In every interleaving, calls that have returned got the same object if and only if they asked for the same server, and it was made for that server; the same for limiters (internal/ntp/ratelimit.go:47-67), which differ in identity only |
| `Registry.NeverOverwritten` | internal/ntp/circuitbreaker.go:91-114 | No key is ever overwritten or removed |
| `Registry.ReturnedStaysInstalled` | internal/ntp/circuitbreaker.go:81-115 | What a call returned stays installed |
| `Registry.NothingMadeInVain` | internal/ntp/circuitbreaker.go:94-114 | When all calls have returned there is exactly one object per server asked for, and the lock is free |
| `Registry.NoDeadlock` | internal/ntp/ratelimit.go:47-67 | Some call can step until all have returned |
| `Registry.RunsEnd` | internal/ntp/ratelimit.go:47-67 | n calls end within 8n steps |
| `Registry.StepInv` | internal/ntp/ratelimit.go:47-67 | Every step keeps lock, table and objects consistent |
| `Registry.BreakerOfServer` | internal/ntp/circuitbreaker.go:100-114 | A call gets the breaker with its server's name and the configured settings |
| `Registry.ServerRegistry.GetForServer` | internal/ntp/ratelimit.go:47-67 | As one caller sees it: the installed object, one installed meanwhile, or a new one, and no key changes; all interleavings are the subject of `OneObjectPerServer` |
| `Adaptive.AdaptiveSampler.constructor` | internal/ntp/adaptive.go:33-55 | Defaults for zeros |
| `Adaptive.AdaptiveSampler.TakeMore` | internal/ntp/adaptive.go:86-130 | More samples exactly for high drift, time left and a second batch without error |
| `Adaptive.AdaptiveSampler.Continue` | internal/ntp/adaptive.go:77-123 | The statistics kept are always those of the responses returned |
| `Adaptive.AdaptiveSampler.Sample` | internal/ntp/adaptive.go:58-138 | The outcome of both phases as the two lemmas below describe it: an error only from the first batch, which is kept otherwise; every borrowed buffer is returned |
| `Adaptive.BothPhases` | internal/ntp/adaptive.go:58-137 | From the two batches alone: an error of the first is the result; the second is appended if and only if the median of the first is beyond the threshold, time is left and the second has no error; otherwise the first stays as it is |
| `Adaptive.FirstBatchIsKept` | internal/ntp/adaptive.go:62-117 | For any querier that returns at most what is asked: the first batch is a prefix of the result, which is no longer than the larger count |
| `Adaptive.TwoPhasesAgree` | internal/ntp/adaptive.go:200-209 | For a steady server, `Sample` returns as many responses as `GetOptimalSampleCount` says if and only if the offset is within the threshold, the counts are equal, or time is left and the high-drift count is larger |
| `Adaptive.ConstantMedian` | internal/ntp/adaptive.go:85-86 | The median of equal samples is their value |
| `Adaptive.SteadyIsClient` | internal/ntp/client.go:147-196 | The steady server is what `QueryMultiple` reports for one |
| `CommaList.SplitByComma` | internal/config/config.go:492-507 | The parts at all commas, without a trailing empty one |
| `CommaList.Trim` | internal/config/config.go:511-521 | The string without the blanks around it |
| `CommaList.TrimOfIsTrim` | internal/config/config.go:509-521 | What is left starts and ends without blank, and only blanks are removed |
| `CommaList.BlanksAreThree` | internal/config/config.go:514-518 | Spaces, tabs and newlines are trimmed, and no other character is |
| `CommaList.TwoItems` | internal/config/config.go:480-521 | A literal list with blanks around an item |
| `CommaList.TrimIsUnique` | internal/config/config.go:509-521 | There is only one way to do that |
| `CommaList.ParseCommaSeparated` | internal/config/config.go:480-488 | For every string: split at all commas, trim each, drop the empty ones |
| `CommaList.ParseInvertsJoin` | internal/config/config.go:480-521 | Parsing a comma-joined list gives the list back if and only if its items are non-empty, comma-free and trimmed |
| `CommaList.ParseIsWellFormed` | internal/config/config.go:480-488 | Every parsed list consists of such items |
| `CommaList.ParseIsStable` | internal/config/config.go:480-521 | Parse, join, parse equals parse |
| `CommaList.JoinSplit` | internal/config/config.go:492-507 | Splitting loses no character: joining the parts at all commas gives the string back, for every string |
| `CommaList.SplitJoin` | internal/config/config.go:492-507 | Splitting inverts joining for comma-free items |
| `Types.AbsDuration` | pkg/mathutil/math.go:14-19 | The absolute value, except that the least duration stays negative |

## Left out

- Floating point: statistics are exact reals, so rounding of `float64` and truncation of published durations to nanoseconds are not modelled; nor are NaN and infinities.
- Sorting.SortPrefix: an insertion sort stands where the code calls the standard library; by `Sorting.SortedIsUnique` the result is the same.
- DnsCache.DNSCache.Resolve: sums of TTLs and times are unbounded integers, without 64-bit overflow; the lookup and the address check are parameters.
- RoundRobin.FairExactlyWhenCoprime: times before 1970, where Go's remainder would be negative, are not modelled, and the interval is a whole number of seconds.
- Pools.Pool.Query: a limit below one makes the truncation panic; configurations with one are rejected when loaded (internal/config/validation.go:84), so it is a precondition. The resolution time is not part of the response. Servers share their array with the cache entry in the code; nobody writes to it, and here they are values.
- DnsRaces.BoundedStaleness: each critical section of the cache's lock is one step; the lock itself is not modelled there, as it is in `Registry` and `Gate`. The reading of an error count outside the lock is one step too.
- ExecuteTheorems.ResultsAreGenuine: the duration of a job, used only for display, is not part of a result, and responses are values there; their ownership is the subject of `Client`.
- Adaptive.AdaptiveSampler.Sample: the confidence score only goes to the log, and the time budget of the second phase is part of what the querier answers.
- CommaList.SplitByComma: strings are sequences of characters; bytes that are not valid UTF-8, which Go's loop replaces, are not modelled.
- Client.Query: rate limiting, time-out and validation of a reply decide which reply, if any, comes back, and its errors are not told apart; fields of a response that no modelled code reads are left out, and so are the pauses between queries.
- The pools of strings and of raw NTP packets, which repeat the pattern of the modelled ones.
- Registry.BreakerOfServer: `ReadyToTrip` and `OnStateChange` are functions handed to the breaker library and not among the modelled settings.
- Registry.ServerRegistry.GetForServer: objects carry their server's name only, and the other callers act between the two locks; the lock protocol with all its interleavings is the step system of `Registry`.
- Internals of the circuit breaker and token bucket libraries: objects here have an identity and settings only.
- Coherence, trust score, confidence and anomaly detection: single-function case splits over floating point.
- Configuration defaults and validation, logging, metrics, the HTTP server and the periodic cleanup loop: straight-line wiring.
