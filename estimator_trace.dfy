/**
 * Properties of a whole feed of reports: what the estimator's counters say
 * after a sequence of `report_states` calls.
 */
module EstimatorTrace {
  import opened EstimatorSpec

  /** The state after reporting every record of `rs`, in order. */
  function Feed(s: Stats, rs: seq<PacketRecord>): Stats
    decreases |rs|
  {
    if rs == [] then s else Feed(Report(s, rs[0]), rs[1..])
  }

  predicate AllWellFormed(rs: seq<PacketRecord>)
  {
    forall i :: 0 <= i < |rs| ==> WellFormed(rs[i])
  }

  /** The payload bytes of all records of `rs`. */
  function PayloadTotal(rs: seq<PacketRecord>): nat
  {
    if rs == [] then 0 else rs[0].payloadSize + PayloadTotal(rs[1..])
  }

  /** Each record carries the sequence number that follows the one before
      it (the first one: the one after `last`, or anything if there is no
      previous record), wrapping from 65535 to 0. */
  predicate InOrder(last: Option<nat>, rs: seq<PacketRecord>)
    decreases |rs|
  {
    rs == [] ||
    ((last.None? || rs[0].sequenceNumber == NextSequence(last.value))
     && InOrder(Some(rs[0].sequenceNumber), rs[1..]))
  }

  /** The latest record of `rs` with sequence number `number`, if any. */
  function LatestWith(rs: seq<PacketRecord>, number: nat): Option<PacketRecord>
    decreases |rs|
  {
    if rs == [] then None
    else if rs[|rs| - 1].sequenceNumber == number then Some(rs[|rs| - 1])
    else LatestWith(rs[..|rs| - 1], number)
  }

  /** Reporting one more record extends a feed by one step. */
  lemma {:induction false} FeedSnoc(s: Stats, rs: seq<PacketRecord>, r: PacketRecord)
    ensures Feed(s, rs + [r]) == Report(Feed(s, rs), r)
    decreases |rs|
  {
    if rs == [] {
      assert rs + [r] == [r];
    } else {
      assert (rs + [r])[1..] == rs[1..] + [r];
      FeedSnoc(Report(s, rs[0]), rs[1..], r);
    }
  }

  /** Over a feed, the packet count goes up by the number of records, the
      byte count by their payloads, the loss count never goes down, the first
      arrival is fixed by the first record ever reported, and the latest
      arrival and sequence number are those of the last record. */
  lemma {:induction false} FeedCounters(s: Stats, rs: seq<PacketRecord>)
    ensures var t := Feed(s, rs);
            && t.totalPackets == s.totalPackets + |rs|
            && t.totalBytes == s.totalBytes + PayloadTotal(rs)
            && t.missingPackets >= s.missingPackets
            && t.startTimeMs == (if s.startTimeMs.Some? || rs == [] then s.startTimeMs
                                 else Some(rs[0].arrivalTimeMs))
            && (rs != [] ==> t.lastTimeMs == Some(rs[|rs| - 1].arrivalTimeMs))
            && (rs != [] ==> t.lastSequenceSeen == Some(rs[|rs| - 1].sequenceNumber))
    decreases |rs|
  {
    if rs != [] {
      var rest := rs[1..];
      FeedCounters(Report(s, rs[0]), rest);
      if rest != [] {
        assert rest[|rest| - 1] == rs[|rs| - 1];
      }
    }
  }

  /** Every state reached by a feed of well-formed records satisfies the
      invariant; in particular the cached throughput stays positive. */
  lemma {:induction false} FeedPreservesInv(s: Stats, rs: seq<PacketRecord>)
    requires Inv(s) && AllWellFormed(rs)
    ensures Inv(Feed(s, rs))
    decreases |rs|
  {
    if rs != [] {
      ReportPreservesInv(s, rs[0]);
      assert AllWellFormed(rs[1..]) by {
        forall i | 0 <= i < |rs[1..]| ensures WellFormed(rs[1..][i]) {
          assert rs[1..][i] == rs[i + 1];
        }
      }
      FeedPreservesInv(Report(s, rs[0]), rs[1..]);
    }
  }

  /** A feed adds nothing to the loss count if and only if every record
      carries the sequence number that follows the previous one. */
  lemma {:induction false} NoLossIffInOrder(s: Stats, rs: seq<PacketRecord>)
    ensures Feed(s, rs).missingPackets == s.missingPackets <==> InOrder(s.lastSequenceSeen, rs)
    decreases |rs|
  {
    if rs != [] {
      var next := Report(s, rs[0]);
      assert next.missingPackets == s.missingPackets + Gap(s.lastSequenceSeen, rs[0].sequenceNumber);
      assert next.lastSequenceSeen == Some(rs[0].sequenceNumber);
      FeedCounters(next, rs[1..]);
      NoLossIffInOrder(next, rs[1..]);
    }
  }

  /** A flow whose sequence numbers run on without a gap (wrapping at
      65535) has loss rate 0. */
  lemma InOrderFlowHasNoLoss(rs: seq<PacketRecord>)
    requires InOrder(None, rs)
    ensures Feed(Initial(), rs).missingPackets == 0
    ensures LossRate(Feed(Initial(), rs)) == 0.0
  {
    NoLossIffInOrder(Initial(), rs);
  }

  /** `packets[n]` holds the latest record reported with number `n`; numbers
      not reported keep what they had. */
  lemma {:induction false} FeedKeepsLatestRecord(s: Stats, rs: seq<PacketRecord>, number: nat)
    ensures var t := Feed(s, rs);
            match LatestWith(rs, number)
            case Some(r) => number in t.packets && t.packets[number] == r
            case None => (number in t.packets <==> number in s.packets)
                         && (number in s.packets ==> t.packets[number] == s.packets[number])
    decreases |rs|
  {
    if rs != [] {
      var init, r := rs[..|rs| - 1], rs[|rs| - 1];
      assert rs == init + [r];
      FeedSnoc(s, init, r);
      FeedKeepsLatestRecord(s, init, number);
    }
  }

  /** When every record arrives at the same instant the time span is empty:
      the throughput is never measured, the cache never changes, and the
      query returns the cached value. */
  lemma {:induction false} SameArrivalKeepsCache(s: Stats, rs: seq<PacketRecord>, at: nat)
    requires s.startTimeMs == s.lastTimeMs
    requires s.startTimeMs.None? || s.startTimeMs == Some(at)
    requires forall i :: 0 <= i < |rs| ==> rs[i].arrivalTimeMs == at
    ensures Feed(s, rs).lastValidThroughput == s.lastValidThroughput
    ensures MeasuredRate(Feed(s, rs)).None?
    ensures Throughput(Feed(s, rs)) == s.lastValidThroughput
    decreases |rs|
  {
    if rs != [] {
      var next := Report(s, rs[0]);
      assert next.startTimeMs == Some(at) && next.lastTimeMs == Some(at);
      SameArrivalKeepsCache(next, rs[1..], at);
    }
  }

  /** With no records, or with every record at one arrival time, a fresh
      estimator reports the 300 kbps default. */
  lemma FreshFlowReportsDefault(rs: seq<PacketRecord>, at: nat)
    requires forall i :: 0 <= i < |rs| ==> rs[i].arrivalTimeMs == at
    ensures Bandwidth(Feed(Initial(), rs)) == DefaultThroughput
  {
    SameArrivalKeepsCache(Initial(), rs, at);
  }

  /** 125000 bytes spread over one second measure as exactly 1 Mbps, above
      the floor. */
  lemma OneMegabitExample()
    ensures var first := PacketRecord(0, 0, 96, 7, 1, 0, 12, 62500);
            var second := PacketRecord(990, 1000, 96, 8, 1, 0, 12, 62500);
            var t := Feed(Initial(), [first, second]);
            && t.missingPackets == 0
            && Throughput(t) == 1000000
            && Bandwidth(t) == 1000000
  {
    var first := PacketRecord(0, 0, 96, 7, 1, 0, 12, 62500);
    var second := PacketRecord(990, 1000, 96, 8, 1, 0, 12, 62500);
    var rs := [first, second];
    var t := Feed(Initial(), rs);
    FeedCounters(Initial(), rs);
    assert PayloadTotal(rs) == 125000 by {
      assert rs[1..] == [second] && [second][1..] == [];
      assert PayloadTotal([second]) == 62500;
    }
    assert InOrder(None, rs) by {
      assert rs[1..] == [second];
      assert InOrder(Some(8), []);
    }
    NoLossIffInOrder(Initial(), rs);
    assert t.startTimeMs == Some(0) && t.lastTimeMs == Some(1000) && t.totalBytes == 125000;
    var bits, span := t.totalBytes * 8 * 1000, t.lastTimeMs.value - t.startTimeMs.value;
    assert bits == 1000000 * span;
    ExactDivision(bits, span, 1000000);
    assert MeasuredRate(t) == Some(1000000);
    assert Throughput(t) == 1000000;
  }
}
