# Receiver-side bandwidth estimator, modelled in Dafny

This project models the `Estimator` class of the serverless peer-connection
example (`examples/peerconnection/serverless/corpus/BandwidthEstimator.py`).
One estimator follows one RTP flow. It is fed one packet-arrival record per
`report_states` call and answers `get_estimated_bandwidth` in bits per second.
The estimate rests on three pieces of integer logic:

- **Loss counting.** Gaps are counted in the 16-bit wrapping sequence-number
  space (the RTP sequence number field, section 5.1 of RFC 3550). The rule is
  the class's own forward-distance rule, not the extended-sequence algorithm
  of RFC 3550 Appendix A.3.
- **Whole-history throughput.** The rate is `total_bytes * 8 * 1000 / duration`,
  measured from the first arrival to the last. When the time span is missing
  or empty, or the computed rate is 0, it falls back to a cached
  "last valid" value.
- **The estimate.** It is the throughput, floored at 100 kbps.

Files:

- `estimator_spec.dfy`, module `EstimatorSpec`. The record and state
  datatypes, and the invariant of reachable states. The functions that say
  what a report and each query do to the state, with their single-step
  lemmas.
- `estimator_trace.dfy`, module `EstimatorTrace`. `Feed`, the state after a
  whole sequence of reports, and the lemmas about feeds. These cover the
  counters, gap-free flows, the packet map, constant arrival times, and a
  1 Mbps example.
- `estimator.dfy`, module `BandwidthEstimator`. The class `Estimator`, whose
  fields are the Python instance fields and whose methods update them in
  place. Each method is proved to agree with the matching function of
  `EstimatorSpec`; `Valid()` is the invariant read off the fields.

Two facts about the code that the model makes explicit:

- A computed rate of 0 does not need zero bytes. The rounded-down rate at
  `BandwidthEstimator.py:119-120` is 0 exactly when `total_bytes * 8000` is
  below the duration in milliseconds, that is when fewer than one bit per
  second arrived. Any such rate keeps the cached value (lines 127-130).
  `EstimatorSpec.MeasuredRateZero` states the exact condition.
- The second duration check (`BandwidthEstimator.py:113-117`) can never fire,
  because line 108 already returned whenever `last_time_ms <= start_time_ms`.
  The model leaves out that dead branch.

## Model

| member | source | states |
|---|---|---|
| `BandwidthEstimator.Estimator.constructor` | examples/peerconnection/serverless/corpus/BandwidthEstimator.py:25-33 | a new estimator has no packets, no sequence number or timestamps, zero counters and a cached throughput of 300000 bps, and satisfies the invariant |
| `BandwidthEstimator.Estimator.ReportStates` | examples/peerconnection/serverless/corpus/BandwidthEstimator.py:65-95 | updating the fields in place does exactly what `Report` does to the state; it keeps the invariant; the packet count goes up by one; the loss count never decreases |
| `BandwidthEstimator.Estimator.GetPacketLossRate` | examples/peerconnection/serverless/corpus/BandwidthEstimator.py:100-104 | the loss rate lies in [0, 1) and is 0 exactly when no packet was counted missing |
| `BandwidthEstimator.Estimator.GetThroughput` | examples/peerconnection/serverless/corpus/BandwidthEstimator.py:106-130 | returns `Throughput` of the state before the call, always positive; only the cache changes, and it then holds the returned value |
| `BandwidthEstimator.Estimator.GetEstimatedBandwidth` | examples/peerconnection/serverless/corpus/BandwidthEstimator.py:132-149 | returns `Bandwidth` of the state before the call, at least 100000; only the cache changes; a second query from the new state gives the same value |
| `BandwidthEstimator.QueryTwice` | examples/peerconnection/serverless/corpus/BandwidthEstimator.py:132-138 | two estimates with no report between them are equal and at least 100000 |
| `EstimatorSpec.Initial` | examples/peerconnection/serverless/corpus/BandwidthEstimator.py:26-33 | the starting state satisfies the invariant, has no packets and caches the 300000 bps default |
| `EstimatorSpec.NextSequence` | examples/peerconnection/serverless/corpus/BandwidthEstimator.py:80 | the expected successor is always a 16-bit sequence number |
| `EstimatorSpec.RingDistance` | examples/peerconnection/serverless/corpus/BandwidthEstimator.py:80-86 | the forward distance on the 16-bit ring is below 65536 |
| `EstimatorSpec.Gap` | examples/peerconnection/serverless/corpus/BandwidthEstimator.py:79-86 | the code's three-branch increment: 0 for the first record; 0 exactly when the number is the expected successor; otherwise the forward ring distance from the expected number, which stays below 65536 |
| `EstimatorSpec.RingDistanceInverse` | examples/peerconnection/serverless/corpus/BandwidthEstimator.py:80-86 | walking the ring distance forward from a number reaches the target; a forward walk of d < 65536 steps measures d |
| `EstimatorSpec.GapCountsSkipped` | examples/peerconnection/serverless/corpus/BandwidthEstimator.py:79-86 | a jump that skips exactly g numbers after the last one, with or without a wrap past 65535, adds exactly g |
| `EstimatorSpec.GapWrapExamples` | examples/peerconnection/serverless/corpus/BandwidthEstimator.py:80-86 | 65535 then 0 adds nothing; 65534 then 1 adds 2; a duplicate adds 65535 |
| `EstimatorSpec.LossRate` | examples/peerconnection/serverless/corpus/BandwidthEstimator.py:100-104 | the rate lies in [0, 1]; it is 0 exactly when nothing is missing; it is 1 exactly when nothing was received but something is missing |
| `EstimatorSpec.LossRateBelowOne` | examples/peerconnection/serverless/corpus/BandwidthEstimator.py:100-104 | in every reachable state the loss rate is below 1 |
| `EstimatorSpec.MeasuredRate` | examples/peerconnection/serverless/corpus/BandwidthEstimator.py:108-120 | no rate exactly when a timestamp is unset or the last arrival is not after the first; otherwise the rate is the largest r with r*duration <= bytes*8000, i.e. bits per second rounded down |
| `EstimatorSpec.Throughput` | examples/peerconnection/serverless/corpus/BandwidthEstimator.py:106-130 | a positive measured rate is returned as it is; with no rate, or a rate of 0, the cached value is returned; a positive cache gives a positive result |
| `EstimatorSpec.MeasuredRateZero` | examples/peerconnection/serverless/corpus/BandwidthEstimator.py:119-130 | a measured rate is 0 exactly when bytes*8000 is below the duration in ms, i.e. fewer than one bit per second arrived |
| `EstimatorSpec.ThroughputOfSpan` | examples/peerconnection/serverless/corpus/BandwidthEstimator.py:113-130 | over a positive span d: with bytes*8000 >= d the query returns the t with t*d <= bytes*8000 < t*d + d; with less it returns the cached value |
| `EstimatorSpec.RefreshCache` | examples/peerconnection/serverless/corpus/BandwidthEstimator.py:119-130 | a throughput query changes only the cache; a positive measured rate becomes the cache; with no rate or a rate of 0 the state is unchanged |
| `EstimatorSpec.RefreshStoresThroughput` | examples/peerconnection/serverless/corpus/BandwidthEstimator.py:119-130 | after a throughput query the state differs only in the cache, which holds the value returned |
| `EstimatorSpec.QueryIdempotent` | examples/peerconnection/serverless/corpus/BandwidthEstimator.py:106-138 | a second throughput or bandwidth query returns the first one's value and changes nothing more |
| `EstimatorSpec.RefreshPreservesInv` | examples/peerconnection/serverless/corpus/BandwidthEstimator.py:119-124 | a throughput query keeps the invariant; in particular the cache stays positive |
| `EstimatorSpec.Bandwidth` | examples/peerconnection/serverless/corpus/BandwidthEstimator.py:132-138 | the estimate is at least 100000 and at least the throughput, and it equals one of the two |
| `EstimatorSpec.BandwidthFloor` | examples/peerconnection/serverless/corpus/BandwidthEstimator.py:133-138 | the estimate is at least 100000; below that floor it is exactly 100000; at or above it, it is the throughput |
| `EstimatorSpec.InitialQueries` | examples/peerconnection/serverless/corpus/BandwidthEstimator.py:102-111 | with no records the loss rate is 0, the throughput and the estimate are 300000, and a query changes nothing |
| `EstimatorSpec.Report` | examples/peerconnection/serverless/corpus/BandwidthEstimator.py:65-95 | one report: one more packet; its payload added; the loss count does not decrease; its arrival becomes the last time; the first arrival set only by the first report; the sequence number overwritten; the record filed under its number, other keys untouched |
| `EstimatorSpec.ReportUpdates` | examples/peerconnection/serverless/corpus/BandwidthEstimator.py:79-95 | on a well-formed report the loss count grows by the ring distance from the expected number (0 on the first report); on every 100th report the cache becomes what a throughput query on the updated counters with the old cache returns, so it is kept unless a positive rate is measured; otherwise it is unchanged |
| `EstimatorSpec.ReportPreservesInv` | examples/peerconnection/serverless/corpus/BandwidthEstimator.py:65-95 | a well-formed report keeps the invariant; in particular the cache stays positive |
| `EstimatorTrace.FeedSnoc` | examples/peerconnection/serverless/corpus/BandwidthEstimator.py:51-95 | a feed extended by one record is that one extra report after the feed |
| `EstimatorTrace.FeedCounters` | examples/peerconnection/serverless/corpus/BandwidthEstimator.py:65-89 | over a feed: the packet count grows by the number of records; the byte count grows by their payloads; the loss count never decreases; the first arrival is the first record's ever; the last time and sequence number are the last record's |
| `EstimatorTrace.FeedPreservesInv` | examples/peerconnection/serverless/corpus/BandwidthEstimator.py:65-95 | every state reached by well-formed reports satisfies the invariant, so the cached throughput stays positive |
| `EstimatorTrace.NoLossIffInOrder` | examples/peerconnection/serverless/corpus/BandwidthEstimator.py:79-86 | a feed adds nothing to the loss count if and only if every record carries the successor of the previous number, wrapping at 65535 |
| `EstimatorTrace.InOrderFlowHasNoLoss` | examples/peerconnection/serverless/corpus/BandwidthEstimator.py:79-104 | a gap-free flow from a fresh estimator has no missing packets and a loss rate of 0 |
| `EstimatorTrace.FeedKeepsLatestRecord` | examples/peerconnection/serverless/corpus/BandwidthEstimator.py:88-90 | the packet map holds, under each number, the latest record with that number; numbers not reported keep their entries |
| `EstimatorTrace.SameArrivalKeepsCache` | examples/peerconnection/serverless/corpus/BandwidthEstimator.py:108-111 | when every record arrives at one instant, no rate is measured, the cache never changes and the throughput is the cached value |
| `EstimatorTrace.FreshFlowReportsDefault` | examples/peerconnection/serverless/corpus/BandwidthEstimator.py:108-138 | a fresh estimator whose records share one arrival time, or that has none, estimates 300000 |
| `EstimatorTrace.OneMegabitExample` | examples/peerconnection/serverless/corpus/BandwidthEstimator.py:113-126 | 125000 bytes over 1000 ms with consecutive numbers give no loss, a throughput of exactly 1000000 and an unclamped estimate of 1000000 |

## Left out

- The log file and its setup (`OUTPUT_DIR`, directory creation, `open`, every `write` and `flush`, the `print` diagnostics, `__del__`). These are I/O and no returned value depends on them.
- The loss-rate computation inside `report_states` on every 100th packet. It only feeds a log line, so the model drops it. The throughput computation there is kept, because it can refresh the cache.
- The unguarded log write at line 97. It fails when the log file could not be opened; that is a logging defect, not estimator logic.
- Float arithmetic. The loss rate is an exact `real`. The throughput is integer floor division, which agrees with Python's `int()` of a true division for these non-negative operands, except for float rounding on astronomically large totals.
- Integer widths. Counters are unbounded, as Python integers are; no 64-bit limit is modelled.
- Malformed records. A missing dictionary key raises in Python. Here a record is a datatype with every field present and non-negative sizes and times. `ReportStates` requires a sequence number below 65536.
- Bounding the `packets` map. The map grows without limit, as in the source; no pruning is modelled.
- Concurrency. The estimator is used by one caller at a time.
