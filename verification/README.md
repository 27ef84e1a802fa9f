# mAPI-ng, verified

A Dafny model of the parts of mAPI-ng that decide whether its numbers can be trusted, with proofs
over all inputs and whole runs.

* **Latency sketches** (`SketchMapping`, `SketchBuckets`, `SparseBuckets`, `DDSketches`,
  `Quantiles`). The logarithmic bucket mapping over exact reals, the fixed-array sketch, its wire
  form, and the four quantile implementations: the dense walk, the client's domain scan, the
  server's sorted-key walk and the percentile expression of the dashboard SQL. The main results are
  the relative-error bound against the true order statistic, exact rollup along any merge tree, and the
  agreement of the four forms.
* **Client pipeline** (`SeriesModel`, `BoundedCounters`, `ErrorLabels`, `SeriesKeys`,
  `Aggregation`, `Rings`, `Uploads`, `Pipeline`). Series objects are proved to be exact folds of
  their records. The sharded map with concurrent `Observe` calls is a step system as fine as the
  locks, with series objects shared by reference. The uploader is an object over the circular ring.
  The main results are exactly-once conservation from `Observe` to delivery, loss accounting, an
  ordered delivery history, that no pending upload is ever left without an armed retry timer, and that
  a graceful stop leaves every accepted request delivered or evicted. How windows leave the ring is told
  by the events and send outcomes alone.
* **End to end** (`Dashboard`): the percentile that a query shows over the summaries of delivered windows
  is within the relative error of the true quantile of the observed requests it is about.
* **Server batcher** (`Batcher`): rows are split in order among past batches, current batch and
  channel over every run, and the close drain settles them all, dropping what fills no batch only after
  three failed attempts.
* **Guards and caches** (`CardinalityGuard`, `TtlCaches`): lazily swept maps that answer exactly as
  their history says.
* **Codecs and order statistics** (`Base64Url`, `Token`, `Session`, `Medians`).

`dafny verify dfyconfig.toml` checks everything. Strings are byte sequences; times are integers in
nanoseconds; what the environment decides (send and insert outcomes, clocks, schedules, the hash, the
MAC, the database) enters as parameters, so every result holds for all of them.

## Where the code does less than its comments say

* A flush leaves an empty shard's map in place and copies it after unlocking
  (client/uploader.go:185-191). An `Observe` in that gap is then flushed while still live, and its
  record is counted twice (`Aggregation.RaceDuplicates`). Exactly-once holds if and only if no copy
  meets a map filled in that gap (`Aggregation.ExactlyOnce`); it always holds when unlock and copy
  happen as one step (`Aggregation.AtomicSwapsNeverRace`).
* The comment on error exemplars names 4xx, 5xx and requests without status. A status from 1 to 99 is filed
  under no status and is no error; outside that range the two agree (`SeriesKeys.ErrorsAreClasses`).
* The comment on `Decode` leaves out that the bare prefix is invalid as well (`Token.DecodeFails` is the
  complete list).
* The dashboard SQL and the Go quantiles agree if and only if the group holds mass: on an empty group
  Go answers 0 and the SQL answers value(0), about one second (`Quantiles.SqlAgrees`).
* A key without origin does not decode to itself when its secret contains a dot
  (`Token.KeyRoundTrip` is the exact condition). A session with a bar in one of its fields can never
  be decoded (`Session.SessionRoundTrip`).
* The outlier rule flags fewer than half of the instances with traffic if and only if the middle pair of
  their sorted p95s does not jump from at most zero to at least the floor (`Medians.OutliersAreFew`); with
  such a gap one of two can be flagged (`Medians.GapFlagsOneOfTwo`). A percentile column is never zero, so
  rows read from storage always meet the bound (`Medians.StoredOutliersAreFew`).

## Model

| member | source | states |
|---|---|---|
| SketchMapping.Index | client/sketch/ddsketch.go:82-84 | the index i of v is the one whose bucket (gamma^(i-1), gamma^i] holds v |
| SketchMapping.IndexAdjoint | client/sketch/ddsketch.go:81-84 | v <= gamma^j iff index(v) <= j, so the index is the least such j |
| SketchMapping.ValueAccuracy | client/sketch/ddsketch.go:16-24 | the representative of a value's bucket is within relative error (gamma-1)/(gamma+1) of it |
| SketchMapping.Clamp | client/sketch/ddsketch.go:91-101 | the result is in the domain and values inside it are unchanged |
| SketchMapping.ClampMonotone | client/sketch/ddsketch.go:91-101 | clamping keeps the order of values |
| SketchMapping.DomainSpan | client/sketch/ddsketch.go:60-79 | the edge indices are -1388 and 412, the domain spans 1801 indices, and the init-time size check never fires |
| SketchBuckets.Slot | client/sketch/ddsketch.go:118-122 | every observation lands inside the part of the array that belongs to the domain |
| SketchBuckets.SketchSnoc | client/sketch/ddsketch.go:118-122 | one more observation bumps exactly its slot |
| SketchBuckets.MergeIsConcatenation | client/sketch/ddsketch.go:124-132 | merging two sketches gives the sketch of all their observations |
| SketchBuckets.SketchIsOrderFree | client/sketch/ddsketch.go:124-132 | a sketch depends only on the multiset of observations |
| SketchBuckets.RollupExact | client/sketch/ddsketch.go:4-9 | any merge tree over any partition of the same observations gives the same buckets and the same quantiles |
| SketchBuckets.SketchMass | client/sketch/ddsketch.go:118-132 | n observations have mass n and none of it lies past the domain |
| SketchBuckets.QuantileRank | client/sketch/ddsketch.go:222-232 | the rank is between 1 and the total for every q |
| SketchBuckets.QuantileRankIsCeil | client/sketch/ddsketch.go:222-232 | for q in [0,1] the rank is the least r >= 1 with q * total <= r |
| SketchBuckets.RankSlot | client/sketch/ddsketch.go:142-156 | the slot chosen is the one where the cumulative count first reaches the rank |
| SketchBuckets.RankSlotIsOrderStatistic | client/sketch/ddsketch.go:139-159 | the rank-k slot of a sketch is the slot of the k-th smallest observation |
| SketchBuckets.QuantileMonotone | client/sketch/ddsketch.go:145-159 | quantiles grow with q, so p50 <= p95 <= p99 |
| SketchBuckets.QuantileAccuracy | client/sketch/ddsketch.go:139-159 | for every sample and q the estimate is within relative error alpha of the clamped order statistic of rank ceil(q*n) |
| SparseBuckets.FromToMap | client/sketch/ddsketch.go:161-189 | decoding the wire form of a sketch with an empty tail gives the same buckets |
| SparseBuckets.ToFromMap | client/sketch/ddsketch.go:161-189 | encoding a decoded in-domain map gives the map less its zero entries |
| SparseBuckets.DenseIsSparse | client/sketch/ddsketch.go:139-144 | the quantile of the array and of its wire form are equal |
| SparseBuckets.SumMapIsMerge | server/internal/storage/query.go:49 | key-wise addition of wire maps is merging of sketches |
| DDSketches.DDSketch.constructor | client/sketch/ddsketch.go:110-113 | a new sketch is the sketch of no observation |
| DDSketches.DDSketch.Add | client/sketch/ddsketch.go:118-122 | exactly the observation's slot and the count grow by one; count = mass and empty tail are kept |
| DDSketches.DDSketch.Merge | client/sketch/ddsketch.go:127-132 | buckets and count are added, also when a sketch is merged into itself; the invariant is kept |
| DDSketches.DDSketch.Quantile | client/sketch/ddsketch.go:145-159 | the dense walk returns the quantile that the buckets determine and never reaches its fallback |
| DDSketches.DDSketch.Buckets | client/sketch/ddsketch.go:163-171 | the loop builds exactly the non-zero buckets keyed by absolute index |
| DDSketches.DDSketch.FromBuckets | client/sketch/ddsketch.go:176-189 | whatever the map order, the sketch is the one the map stands for, stray indices folded into the edges, and is valid |
| DDSketches.DDSketch.FoldIn | client/sketch/ddsketch.go:178-187 | one wire entry extends the decoded map by that entry |
| DDSketches.RoundTrip | client/sketch/ddsketch.go:161-189 | shipping and rebuilding any reachable sketch gives an equal sketch |
| Quantiles.TotalCount | client/sketch/ddsketch.go:196-200 | the loop sums the counts in any map order |
| Quantiles.ClientQuantile | client/sketch/ddsketch.go:196-220 | in-domain maps give the determined quantile; with stray keys the result is the rank key among in-domain keys, or the top bucket when they do not reach the rank |
| Quantiles.SortKeys | server/internal/storage/sketch.go:40-44 | the keys come out strictly ascending and complete |
| Quantiles.WalkKeys | server/internal/storage/sketch.go:54-63 | the walk stops at the first key whose cumulative count reaches the rank and never runs off the end |
| Quantiles.ServerQuantile | server/internal/storage/sketch.go:31-63 | the sorted walk returns the determined quantile, q above 1 counting as 1 |
| Quantiles.ServerRank | server/internal/storage/sketch.go:46-52 | the server's rank equals the client's clamped one, also for q above 1 |
| Quantiles.SqlPercentile | server/internal/storage/dashboard.go:89-96 | a percentile column is positive for every group, also an empty one |
| Quantiles.FirstReaching | server/internal/storage/query.go:33-36 | the position is that of the first cumulative count at or past the rank, 0 if there is none |
| Quantiles.SqlBucketIsRankKey | server/internal/storage/query.go:50-61 | the SQL picks the rank key when the rank is within the mass and the default key 0 otherwise |
| Quantiles.SqlAgrees | server/internal/storage/query.go:46-70 | with sum(count) equal to the sketch mass the SQL agrees with Go iff the mass is positive; on mass 0 it yields value(0) |
| Quantiles.ZeroEntries | server/internal/storage/sketch.go:54-60 | zero entries of a bucket map never change a quantile |
| Quantiles.FormsAgree | client/sketch/ddsketch.go:191-195 | dense walk, domain scan, sorted walk and SQL return one answer for every in-domain map with mass |
| Quantiles.GroupIsSketch | server/internal/storage/query.go:46-54 | the grouped sumMap and sum(count) of any rows are the sketch and the number of all their observations |
| Quantiles.DashboardAccuracy | server/internal/storage/dashboard.go:89-96 | the percentile of a group of windows is within relative error alpha of the true order statistic of all their requests |
| Rings.HoldsNewestPushes | client/internal/buffer/buffer.go:22-24 | after any run of pushes and pops the queue is exactly the newest pushes that have not departed |
| Rings.Ring.constructor | client/internal/buffer/buffer.go:31-38 | an empty ring with capacity at least 1 |
| Rings.Ring.Push | client/internal/buffer/buffer.go:44-56 | the circular array represents the bounded queue after the push; the oldest is returned exactly when the ring was full; slots outside the window are nil |
| Rings.Ring.Append | client/internal/buffer/buffer.go:52-54 | the element lands behind the newest one |
| Rings.Ring.Peek | client/internal/buffer/buffer.go:60-65 | the oldest element, or nil when empty |
| Rings.Ring.PopOldest | client/internal/buffer/buffer.go:70-79 | the oldest element leaves, its slot becomes nil, the rest keeps its order |
| Rings.Ring.Len | client/internal/buffer/buffer.go:81-82 | the number of elements held |
| ErrorLabels.AsciiUpperAlnum | client/series.go:142-153 | only upper-case letters and digits come out, those are left alone, and exactly the lower-case letters change, each to the letter of the same position |
| ErrorLabels.SanitizeErrorClass | client/series.go:121-140 | the loop with its cap and trailing trim computes the sanitized label |
| ErrorLabels.SanitizeIsNormal | client/series.go:115-119 | every result uses only [A-Z0-9_], has at most 64 bytes and no leading, trailing or doubled underscore |
| ErrorLabels.NormalIsFixed | client/series.go:115-140 | labels in normal form are unchanged, so normal forms are exactly the possible results |
| ErrorLabels.SanitizeIdempotent | client/series.go:121-140 | sanitizing twice is sanitizing once, for every byte string |
| ErrorLabels.SanitizeCanonical | client/series.go:121-140 | only letters and digits matter: every other byte acts as an underscore and case is ignored |
| ErrorLabels.SanitizeKeepsLetters | client/series.go:121-140 | the letters of a label are a prefix of the input's, and all of them unless the cap was reached |
| BoundedCounters.CountsExact | client/maping.go:264-275 | a capped counter holds the first cap distinct keys, each with its exact number of occurrences |
| BoundedCounters.CountsConserve | client/maping.go:264-275 | counted occurrences plus those of refused keys are all occurrences |
| SeriesModel.FoldSums | client/maping.go:219-237 | count and the four sums are exact over the records |
| SeriesModel.FoldSketch | client/maping.go:219-229 | the series sketch is the sketch of all durations and its mass is the request count |
| SeriesModel.FoldSlowest | client/series.go:233-239 | max duration and slowest exemplar are those of the slowest record |
| SeriesModel.SlowestIsFirstMaximum | client/series.go:236-239 | that record is the first of those reaching the maximum |
| SeriesModel.FoldErrors | client/series.go:240-243 | the error exemplars are those of the first two errors |
| SeriesModel.FoldRetainsFirst | client/series.go:155-167 | the first twenty distinct codes and labels are kept, with exact counts |
| SeriesModel.FoldReasons | client/series.go:169-177 | every request without a status is counted under its folded reason |
| SeriesModel.FoldReasonMass | client/maping.go:232-234 | the reason counts add up to the number of requests without a status |
| SeriesModel.FoldReasonsBounded | client/series.go:169-171 | the uncapped reason map never has more than six keys |
| SeriesModel.CountSplits | client/maping.go:219-234 | count = counted codes + no-status reasons + code increments refused by the cap |
| SeriesModel.ReservoirShape | client/series.go:246-265 | the reservoir of any records holds the slowest once, in front, and the first two errors, at most three exemplars in all |
| SeriesModel.SummaryMass | client/uploader.go:204-223 | a summary carries the sketch of its durations, whose mass is its request count |
| SeriesModel.SummarySums | client/uploader.go:211-221 | count, the two durations and the two byte counts shipped are each the sum of their own record field |
| SeriesModel.SummaryExemplars | client/uploader.go:217-218 | the maximum and the exemplars shipped are those of the slowest record and the first two errors |
| SeriesModel.SummaryBreakdowns | client/uploader.go:216-220 | the three breakdowns shipped count the codes, labels and reasons of the records, the first twenty distinct codes and labels |
| SeriesModel.ExemplarOf | client/series.go:89-106 | each id and the clock land in their own field, a negative duration becomes zero and a 32-bit code is kept |
| SeriesModel.CodeOf | client/maping.go:266-275 | a positive status modulo 2^32, and 0 for none |
| SeriesModel.Seconds | client/maping.go:229 | a thousand million nanoseconds are one second |
| SeriesModel.ReasonOf | client/series.go:172-177 | known reasons are kept and all others become the last one |
| SeriesModel.Series.constructor | client/maping.go:211-216 | a new series is valid and stands for no record |
| SeriesModel.Series.Observe | client/maping.go:219-238 | after any calls the series is exactly the fold of all records observed, in order, and its sketch is valid |
| SeriesModel.Series.ObserveValue | client/maping.go:219-238 | the in-place update of sketch and fields is one step of the fold |
| SeriesModel.Series.ObserveFields | client/maping.go:219-238 | the same for everything but the sketch |
| SeriesModel.Series.AddCounters | client/maping.go:219-237 | count grows by one and each sum by its field when positive |
| SeriesModel.Series.RecordCode | client/maping.go:266-275 | a positive status bumps its 32-bit code under the cap of twenty |
| SeriesModel.Series.RecordErrorClass | client/series.go:158-167 | a non-empty normalized label is bumped under the cap of twenty |
| SeriesModel.Series.ObserveExemplar | client/series.go:232-244 | the maximum, the slowest slot and the first error slots after one more record |
| SeriesModel.Series.Exemplars | client/series.go:250-265 | the slowest first, then the kept errors other than it, in order and with multiplicity |
| SeriesModel.Series.Summarize | client/uploader.go:204-223 | the summary shipped is that of the records observed; its count is their number and its sketch mass |
| SeriesKeys.Hash | client/series.go:290-306 | the byte loops and the two class bytes compute FNV-1a over the bytes of the whole key with 32-bit wrap-around |
| SeriesKeys.Classify | client/series.go:181-194 | each class is an exact range of statuses by their hundreds |
| SeriesKeys.KeyOf | client/maping.go:204 | a record belongs to the series of its own method, route and class |
| SeriesKeys.ErrorsAreClasses | client/series.go:108-113 | an error is exactly a 4xx, 5xx or no-status request iff the status is not in 1 to 99 |
| Aggregation.ObserveKnown | client/maping.go:207-219 | a record for a live series is never lost, and is added once unless the series is shared with a swapped-out map |
| Aggregation.ObserveNew | client/maping.go:207-218 | the first record of a series is added once |
| Aggregation.UnlockPlaces | client/uploader.go:184-190 | the locked part of a swap moves records without losing or copying any |
| Aggregation.MergeBag | client/uploader.go:177-193 | shard key sets are disjoint, so copying into the merge never overwrites a series |
| Aggregation.CopyTaken | client/uploader.go:186-191 | copying a replaced map moves its records |
| Aggregation.CopyShared | client/uploader.go:186-191 | copying a map left in place duplicates exactly what it holds by then |
| Aggregation.BuildPlaces | client/uploader.go:160-167 | building a window keeps every record |
| Aggregation.ExactlyOnce | client/uploader.go:150-194 | over every interleaving, every accepted record is in exactly one place once iff no copy raced with an Observe, and none is ever lost |
| Aggregation.SwappedOutIsFrozen | client/uploader.go:150-153 | without such a race, in every continuation of a run the maps swapped out so far, copied or not, reach the same records, also after the build |
| Aggregation.FrozenIffNotLive | client/maping.go:207-238 | with or without a race, a series keeps its records in every continuation iff no live shard refers to it |
| Aggregation.RunKeyed | client/maping.go:203-217 | over every run each summary of a window holds requests of its own method, route and class only |
| Aggregation.SeriesInOrder | client/maping.go:207-238 | over every run, racy or not, the series objects made for a key hold one after the other exactly its observed records in their order |
| Aggregation.LastFlush | client/uploader.go:268-271 | a flush with nothing observed meanwhile leaves all accepted records in windows, each once, iff no copy ever raced |
| Aggregation.AtomicSwapsNeverRace | client/uploader.go:177-180 | runs in which each copy directly follows its unlock have no race |
| Aggregation.RaceDuplicates | client/uploader.go:185-191 | under every hash, an Observe between unlock and copy of its empty shard leaves its record in two places |
| Uploads.BackoffDoubles | client/uploader.go:131-138 | doubling with the cap yields min(base * 2^k, max) after k failures |
| Uploads.FlushKeeps | client/uploader.go:160-175 | a flush, evicting or not, keeps the ordered history and the loss account |
| Uploads.DeliveryKeeps | client/uploader.go:103-117 | a delivery keeps them too: the stamp carries every loss not yet reported |
| Uploads.LoopSafety | client/uploader.go:40-75 | over every run of the loop: the ring is a suffix of the flushed windows with one fate for each earlier one, stamps plus counter equal the evicted summaries, the delivered windows are those whose send got through, in order, and the timer is armed iff uploads are pending with the right backoff |
| Uploads.LoopFollowsEvents | client/uploader.go:40-117 | over every run, told by the events alone: windows flushed, ring length, sends, failures in a row, and the order of departures; only a flush onto a full ring evicts and only a successful send delivers |
| Uploads.FailedSendKeeps | client/uploader.go:88-101 | a failed send leaves ring, history and loss counter unchanged |
| Uploads.NothingLostEarly | client/maping.go:171-176 | while no more windows were flushed than fit, none is evicted |
| Uploads.RingCapacity | client/maping.go:171-176 | the capacity is at least eight |
| Uploads.RingSpansFiveMinutes | client/maping.go:171-176 | the capacity is eight iff at most eight windows fit into 300 seconds, and otherwise the number that fit |
| Uploads.Recorder.constructor | client/maping.go:158-166 | the uploader starts empty, unarmed and at the base backoff |
| Uploads.Recorder.Flush | client/uploader.go:160-175 | pushes a non-empty window, counts the summaries of an evicted one, and reports whether it pushed |
| Uploads.Recorder.SendStamped | client/uploader.go:109-117 | one send of this request with the counter of send time; only a success takes it off the counter |
| Uploads.Recorder.TryDrainOldest | client/uploader.go:88-101 | empty, sent and failed outcomes; the oldest request is the one sent, only a success removes it, and nothing else changes |
| Uploads.Recorder.OnFlush | client/uploader.go:53-59 | the flush case of the loop as a step of the specified uploader |
| Uploads.Recorder.OnRetry | client/uploader.go:60-72 | the retry case of the loop, with the empty outcome unreachable |
| Uploads.Recorder.Run | client/uploader.go:49-75 | the loop over any events is the specified run |
| Uploads.Recorder.Shutdown | client/uploader.go:253-287 | the last flush evicts at most the oldest of a full ring; then each successful send, and nothing else, takes one window off, as many as the outcomes of the attempts say; the drain stops only on an empty ring or at the deadline, and the error says exactly whether the context expired |
| Uploads.Recorder.DrainPending | client/uploader.go:273-285 | the drain loop of the stop, with history, loss account and sends kept |
| Uploads.EnoughSuccessesDrain | client/uploader.go:273-287 | as many successes before the deadline as windows pending deliver all of them |
| Pipeline.HistorySplit | client/internal/buffer/buffer.go:40-79 | the flushed windows are those in the ring, the delivered and the evicted ones |
| Pipeline.FlushedAreBuilt | client/uploader.go:160-175 | what the uploader flushes is what the aggregation built, in order |
| Pipeline.Conservation | client/uploader.go:150-194 | over every run the observed requests are exactly those in shards, being swapped, in the ring, delivered and evicted, iff no copy raced; with the uploader's invariants |
| Pipeline.RecorderConserves | client/maping.go:151-176 | the same as a count for the configured recorder: FNV shards and a ring sized for the flush window |
| Pipeline.ShutdownConserves | client/uploader.go:253-287 | once the ring has drained behind the last flush, the accepted requests are exactly the delivered and the evicted ones iff no copy raced |
| Pipeline.Lifetime | client/uploader.go:253-287 | run loop and graceful stop of one recorder together: windows leave as events and outcomes tell, enough successes make the stop return nil, and a nil error means that accepted requests are exactly the delivered and evicted ones iff no copy raced |
| Dashboard.GroupOfSummaries | server/internal/storage/dashboard.go:99-118 | sumMap over shipped summaries is the merged sketch of the requests behind them |
| Dashboard.SummariesAccuracy | server/internal/storage/dashboard.go:89-118 | the percentile over any summaries, in any row order, is within alpha of the true quantile of all their requests |
| Dashboard.RestrictBag | server/internal/storage/debug.go:167-173 | filtering summaries by series keeps exactly the requests of those series |
| Dashboard.EverySelectionHasRows | server/internal/storage/debug.go:145-175 | any windows and filter have rows, and these stand for exactly the requests of the selected series |
| Dashboard.SelectionAccuracy | server/internal/storage/debug.go:145-175 | the same for the rows of any windows that a filter on the series lets through, against the requests of those series |
| Dashboard.DeliveredAccuracy | client/uploader.go:150-194 | the same for the delivered windows of every run of recorder and uploader |
| Dashboard.ObservedAccuracy | client/uploader.go:253-287 | after a drained stop with no race and no eviction, the percentile of any query is within alpha of the true quantile of all requests observed for the series it selects |
| Batcher.Tries | server/internal/storage/writer.go:217-228 | attempts go up to the first success, at least one and at most the limit |
| Batcher.FlushKeeps | server/internal/storage/writer.go:198-207 | a steady flush keeps every row accounted for, in order |
| Batcher.ReceiveKeeps | server/internal/storage/writer.go:248-253 | receiving a row keeps order, batch below the threshold and batch sizes |
| Batcher.RunSteady | server/internal/storage/writer.go:270-284 | at every select: accepted rows are past batches, batch and channel in order; batch below FlushRows; each insert had 1 to FlushRows rows and one attempt; the log tells the attempts truthfully |
| Batcher.RunAccepts | server/internal/storage/writer.go:138-153 | over every run the accepted rows are those handed in while the channel had room, in order, told by the events alone, and a tick leaves nothing in the batch |
| Batcher.ReceiveKeepsLeftOver | server/internal/storage/writer.go:248-253 | receiving a row does not change which rows will fill no batch at the close |
| Batcher.FinalFlushTruthful | server/internal/storage/writer.go:209-232 | the rows left at close are given up only after three failed attempts |
| Batcher.DrainSettles | server/internal/storage/writer.go:286-302 | after the drain nothing is pending; every batch had one attempt, except that the rows filling no batch, if any, are the last batch and were given up only after three failures |
| Batcher.InsertedOrDropped | server/internal/storage/writer.go:192-197 | each row of a past batch was inserted or dropped, never both |
| Batcher.CloseSettlesAll | server/internal/storage/writer.go:177-190 | over every run, the rows handed in while the channel had room are exactly the inserted and the dropped ones once the drain is over, with those attempts and a truthful log |
| Batcher.StreamBatcher.constructor | server/internal/storage/writer.go:104-112 | an empty stream |
| Batcher.StreamBatcher.Enqueue | server/internal/storage/writer.go:138-153 | no tenant, closed, accepted or waiting for room, in that order; an accepted row goes to the end of the channel, and nothing else changes |
| Batcher.StreamBatcher.FlushBatch | server/internal/storage/writer.go:198-207 | one attempt and the batch is gone |
| Batcher.StreamBatcher.InsertWithRetry | server/internal/storage/writer.go:217-228 | the retry loop makes exactly the specified attempts |
| Batcher.StreamBatcher.FinalFlushBatch | server/internal/storage/writer.go:213-232 | the final flush of the stream |
| Batcher.StreamBatcher.ReceiveOne | server/internal/storage/writer.go:248-253 | the next row joins the batch, flushing at the threshold |
| Batcher.StreamBatcher.DrainAll | server/internal/storage/writer.go:289-302 | the drain loop is the specified drain |
| Batcher.Writer.constructor | server/internal/storage/writer.go:91-115 | two empty, separate streams and an open writer; a threshold that is not positive becomes 100000 rows |
| Batcher.Writer.Turn | server/internal/storage/writer.go:270-283 | one turn of the select; the two streams never touch each other, a tick empties both batches, a ready row is taken, an accepted one kept, and nothing enters after the close or without a tenant |
| Batcher.Writer.Run | server/internal/storage/writer.go:238-302 | from an empty writer to the end of the drain, both streams accept the rows handed in while there was room and are settled, what was left over at the close with up to three attempts |
| CardinalityGuard.FreshIsWindow | server/internal/guardrail/cardinality.go:8-16 | the series fresh by last admission are exactly those admitted within the hour |
| CardinalityGuard.AnswerIsHistorical | server/internal/guardrail/cardinality.go:77-123 | a series is admitted iff it was admitted within the hour, or the guard is off, or fewer than cap distinct series of the tenant were |
| CardinalityGuard.GuardFollowsHistory | server/internal/guardrail/cardinality.go:85-131 | over every run with a clock that never runs backwards, swept maps and frozen marks are what the history says |
| CardinalityGuard.RunIsConsistent | server/internal/guardrail/cardinality.go:85-123 | every answer of a run is the historical one |
| CardinalityGuard.RunNeverExceedsCap | server/internal/guardrail/cardinality.go:18-22 | with a fixed cap no hour holds more than cap distinct admitted series of a tenant |
| CardinalityGuard.TenantsIsolated | server/internal/guardrail/cardinality.go:91-106 | what the guard holds about a tenant depends on that tenant's requests alone |
| CardinalityGuard.Cardinality.constructor | server/internal/guardrail/cardinality.go:45-51 | an empty guard |
| CardinalityGuard.Cardinality.EvictStale | server/internal/guardrail/cardinality.go:62-69 | exactly the entries younger than an hour survive |
| CardinalityGuard.Cardinality.Allow | server/internal/guardrail/cardinality.go:85-123 | decision, frozen flag and new state of one call |
| CardinalityGuard.Cardinality.Frozen | server/internal/guardrail/cardinality.go:127-131 | the tenant's frozen mark |
| TtlCaches.SweepInvisible | server/internal/control/resolver.go:156-173 | after any run a call answers as a cache that never sweeps would |
| TtlCaches.BoundedStaleness | server/internal/control/resolver.go:115-154 | every answer that is not a rejection comes from a call that did look that key up, within the last 30 s, or 5 s if negative |
| TtlCaches.MissesAreReal | server/internal/control/resolver.go:115-128 | a call looks its key up exactly when a cache that never sweeps would have to |
| TtlCaches.LookupsAnswer | server/internal/control/resolver.go:115-143 | over every run a call answers with the latest lookup of its key while that is fresh, otherwise with its own, and is rejected only when that fails |
| TtlCaches.FailureLeavesCache | server/internal/control/resolver.go:129-135 | a database failure rejects unless a fresh entry answers, and leaves the cache unchanged |
| TtlCaches.StoreBoundsSize | server/internal/control/resolver.go:24-32 | after a store at most 4096 entries remain, or all others are fresh |
| TtlCaches.LookupsAreSpaced | server/internal/guardrail/limitcache.go:38-51 | two lookups of one key are at least the first result's lifetime apart |
| TtlCaches.TtlCache.constructor | server/internal/guardrail/limitcache.go:62-69 | an empty cache |
| TtlCaches.TtlCache.GetFresh | server/internal/control/resolver.go:145-154 | hits exactly the present, unexpired entries |
| TtlCaches.TtlCache.Store | server/internal/control/resolver.go:161-173 | sweeps first when at the threshold, then stores |
| TtlCaches.TtlCache.Sweep | server/internal/control/resolver.go:164-171 | exactly the unexpired entries survive |
| TtlCaches.TtlCache.Ask | server/internal/guardrail/limitcache.go:71-87 | a fresh entry answers; otherwise the lookup does and is stored with its lifetime; rejected iff it fails |
| Base64Url.CharOf | proto/token/token.go:33-40 | every sextet has its own character, read back by the decoder |
| Base64Url.GroupIsBigEndian | proto/token/token.go:40 | three bytes and their four sextets are the same 24-bit number |
| Base64Url.EncodingShape | proto/token/token.go:33-35 | the encoding has no dot, is empty only for empty input, and has ceil(8n/6) characters |
| Base64Url.RoundTrip | proto/token/token.go:67-75 | decoding inverts encoding for every byte string, with both partial groups |
| Base64Url.DecodesIff | proto/token/token.go:67-75 | exactly strings over the alphabet and line breaks decode, unless one character is left over after groups of four |
| Token.IndexByte | proto/token/token.go:56 | the first position of a byte, or -1 |
| Token.StructuredRoundTrip | proto/token/token.go:36-75 | a key with an origin decodes to origin and secret, and is invalid when the secret is empty |
| Token.PlainDecode | proto/token/token.go:43-65 | a key without origin decodes to its secret unless that contains a dot |
| Token.BareDecode | proto/token/token.go:60-64 | a key is its own secret iff it is non-empty and lacks the prefix |
| Token.DecodeFails | proto/token/token.go:43-75 | the invalid keys: empty, bare prefix, or structured with an undecodable origin or an empty secret |
| Token.KeyRoundTrip | proto/token/token.go:33-65 | a key decodes to what it was built from iff the secret is non-empty and, without origin, has no dot |
| Token.OriginIndependent | server/internal/control/resolver.go:116-123 | one secret under two embedded origins gives the same answer and the same cache |
| Token.Resolver.constructor | server/internal/control/resolver.go:79-89 | a resolver with an empty cache |
| Token.Resolver.Resolve | server/internal/control/resolver.go:113-143 | an undecodable key is rejected untouched; otherwise only the digest of the secret is asked for, and without a fresh entry the lookup is the answer |
| Session.IntRoundTrip | server/internal/auth/session.go:75 | every int64 survives decimal formatting and parsing |
| Session.SplitCount | server/internal/auth/session.go:105-108 | splitting yields one part more than there are bars |
| Session.DecodeSigned | server/internal/auth/session.go:86-104 | a cookie is parsed iff signer and verifier agree on the MAC of its payload |
| Session.AcceptedIsAuthentic | server/internal/auth/session.go:80-118 | whatever a cookie holds, it is accepted only with the MAC of its payload and before the expiry named there |
| Session.PayloadFields | server/internal/auth/session.go:66-78 | the signed record is the four fields between bars |
| Session.SessionRoundTrip | server/internal/auth/session.go:66-118 | a session decodes to itself with Exp cut to whole seconds iff no field has a bar and that instant is after now; otherwise decoding fails |
| Medians.MedianRobust | server/internal/web/verdict.go:206-213 | a range holding more than half of the sample holds the median |
| Medians.Median | server/internal/web/verdict.go:206-213 | the median is as far from the lower as from the upper middle value |
| Medians.CollectP95s | server/internal/web/verdict.go:193-198 | the p95 of exactly the buckets with traffic, in order |
| Medians.BaselineMedianP95 | server/internal/web/verdict.go:192-204 | a median from thirty trafficked buckets on, inside every range that holds more than half of them |
| Medians.FewReachTwice | server/internal/web/view_detail.go:91-95 | at most (n-1)/2 of n values reach twice the median iff their lower middle is positive |
| Medians.FlagRows | server/internal/web/view_detail.go:111-113 | one flag per instance, in order, by the three conditions |
| Medians.ToInstanceRows | server/internal/web/view_detail.go:96-127 | an instance is flagged iff two instances have traffic and its p95 is at least twice the fleet median and the floor; the flagged with traffic are fewer than half iff the middle pair has no gap |
| Medians.OutliersAreFew | server/internal/web/view_detail.go:91-113 | the flags mark at most (n-1)/2 of n instances with traffic iff the middle pair of the sorted p95s does not jump from at most zero to the floor |
| Medians.StoredHaveNoGap | server/internal/storage/debug.go:145-175 | rows read by the instance query never have that gap |
| Medians.StoredOutliersAreFew | server/internal/web/view_detail.go:91-113 | on rows read from storage fewer than half are flagged, hence none of two |
| Medians.GapFlagsOneOfTwo | server/internal/web/view_detail.go:111-113 | beside a zero p95, the other of two instances is flagged |

## Left out

- Floating-point rounding, NaN and wrap-around of 64-bit counters: reals and naturals are exact.
- Infinite observations, which the comment on `Add` folds to the lower bound and the code clamps to the nearer one: reals have no infinities.
- The in-flight peak gauge: its take is a load followed by a swap, so it is exact only for some schedules.
- Memory effects of the unsynchronized map copy beyond its value: the copy is one step. A window is the value its series had when it was built; that the maps it shares with them stay as they were is proved for swapped-out series.
- Observe calls on an inactive or closed recorder: they do nothing.
- An Enqueue that overlaps Close: its row may be accepted after the drain; an Enqueue is one step here.
- Batcher.StreamBatcher.Enqueue: reports a full channel as waiting instead of blocking, because blocking only delays the same step.
- Uploads.Recorder.Shutdown: the context expires after a given number of checks instead of at a time, because only the order of checks and sends matters.
- Quantiles.ServerQuantile: q is not negative, because converting a negative rank to an unsigned integer is left to the platform.
- Dashboard.ObservedAccuracy: starts from the delivered summaries as stored rows; rows that the guard refuses or a failed insert drops are accounted for by their own modules.
- TtlCaches.TtlCache.Ask: lookup and store are one step, so two calls never look the same key up at once.
- Token.Resolver.Resolve: the rate-limited error log is not modelled.
- Medians.ToInstanceRows: only the flag is modelled, the other columns are copied through.
- Injectivity of base64 decoding: the decoder skips line breaks and ignores left-over bits, and nothing is claimed about that.
- SHA-256, HMAC and random secrets: functions given from outside.
- Bucket maps with keys outside the domain in the agreement of all four quantile forms: the forms treat them differently; for the client scan the exact result is stated.
- Token-bucket rate limiting, transport, compression, SQL beyond the percentile expression, migrations, login flows, configuration, framework adapters, samplers: foreign code or plumbing.
- Pages, charts, formatters, diagnosis texts and thresholds: claims settled by reading one branch.
