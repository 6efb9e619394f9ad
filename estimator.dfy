/**
 * The estimator object: the counters are fields that `ReportStates` and the
 * throughput query update in place. Each method is proved to do to the
 * fields what the matching function of `EstimatorSpec` does to a `Stats`
 * value, and `Valid()` is that module's invariant read off the fields.
 */
module BandwidthEstimator {
  import opened EstimatorSpec

  class Estimator {
    var packets: map<nat, PacketRecord>
    var lastSequenceSeen: Option<nat>
    var missingPackets: nat
    var totalPackets: nat
    var totalBytes: nat
    var startTimeMs: Option<nat>
    var lastTimeMs: Option<nat>
    var lastValidThroughput: nat

    /** The fields, read as one value. */
    function State(): Stats
      reads this
    {
      Stats(packets, lastSequenceSeen, missingPackets, totalPackets, totalBytes,
            startTimeMs, lastTimeMs, lastValidThroughput)
    }

    ghost predicate Valid()
      reads this
    {
      Inv(State())
    }

    constructor ()
      ensures Valid() && State() == Initial()
    {
      packets := map[];
      lastSequenceSeen := None;
      missingPackets := 0;
      totalPackets := 0;
      totalBytes := 0;
      startTimeMs := None;
      lastTimeMs := None;
      lastValidThroughput := DefaultThroughput;
    }

    /** Accounts for one arriving packet. */
    method ReportStates(stats: PacketRecord)
      requires Valid() && WellFormed(stats)
      modifies this
      ensures Valid()
      ensures State() == Report(old(State()), stats)
      ensures totalPackets == old(totalPackets) + 1
      ensures missingPackets >= old(missingPackets)
    {
      var sequenceNumber := stats.sequenceNumber;
      var arrivalTimeMs := stats.arrivalTimeMs;
      var payloadSize := stats.payloadSize;

      if startTimeMs.None? {
        startTimeMs := Some(arrivalTimeMs);
      }
      lastTimeMs := Some(arrivalTimeMs);
      totalBytes := totalBytes + payloadSize;

      if lastSequenceSeen.Some? {
        var expectedSequence := (lastSequenceSeen.value + 1) % SequenceSpace;
        if sequenceNumber != expectedSequence {
          if sequenceNumber > expectedSequence {
            missingPackets := missingPackets + (sequenceNumber - expectedSequence);
          } else {
            missingPackets := missingPackets + (SequenceSpace - expectedSequence + sequenceNumber);
          }
        }
      }

      lastSequenceSeen := Some(sequenceNumber);
      totalPackets := totalPackets + 1;
      packets := packets[sequenceNumber := stats];

      assert Valid();
      if totalPackets % LogInterval == 0 {
        // The loss rate and the throughput are computed here for the log;
        // only the throughput query leaves a trace in the state.
        var throughput := GetThroughput();
      }
    }

    /** The fraction of packets counted as lost. */
    function GetPacketLossRate(): (rate: real)
      reads this
      requires Valid()
      ensures 0.0 <= rate < 1.0
      ensures rate == 0.0 <==> missingPackets == 0
    {
      LossRateBelowOne(State());
      LossRate(State())
    }

    /** The throughput over the whole flow in bits per second, refreshing
        the cached last valid value when a positive rate is measured. */
    method GetThroughput() returns (throughput: nat)
      requires Valid()
      modifies this`lastValidThroughput
      ensures Valid()
      ensures throughput == Throughput(old(State())) && throughput > 0
      ensures State() == RefreshCache(old(State()))
      ensures lastValidThroughput == throughput
    {
      if lastTimeMs.None? || startTimeMs.None? || lastTimeMs.value <= startTimeMs.value {
        return lastValidThroughput;
      }
      var durationMs := lastTimeMs.value - startTimeMs.value;
      var calculatedThroughput := totalBytes * 8 * 1000 / durationMs;
      if calculatedThroughput > 0 {
        lastValidThroughput := calculatedThroughput;
        return calculatedThroughput;
      } else {
        return lastValidThroughput;
      }
    }

    /** The bandwidth estimate: the throughput, but never below 100 kbps.
        Asking again straight away gives the same answer. */
    method GetEstimatedBandwidth() returns (bandwidth: nat)
      requires Valid()
      modifies this`lastValidThroughput
      ensures Valid()
      ensures bandwidth == Bandwidth(old(State())) && bandwidth >= MinBandwidth
      ensures State() == RefreshCache(old(State()))
      ensures Bandwidth(State()) == bandwidth
    {
      ghost var before := State();
      bandwidth := GetThroughput();
      var minBandwidthBps := MinBandwidth;
      if bandwidth < minBandwidthBps {
        bandwidth := minBandwidthBps;
      }
      QueryIdempotent(before);
    }
  }

  /** Two estimates with no report in between agree, and so do the states
      they leave behind. */
  method QueryTwice(e: Estimator) returns (first: nat, second: nat)
    requires e.Valid()
    modifies e
    ensures first == second >= MinBandwidth
    ensures e.State() == RefreshCache(old(e.State()))
  {
    first := e.GetEstimatedBandwidth();
    second := e.GetEstimatedBandwidth();
    QueryIdempotent(old(e.State()));
  }
}
