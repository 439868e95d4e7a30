/** The Ether Dream backend's two readings of a status: the pacing estimate, which decays
    from the moment the request was sent and takes a prepared stream for a draining one,
    and the admission check, which decays from the moment the reply arrived. */
module EtherDreamEstimate {
  import opened Points
  import opened LeakyBucket
  import opened Repricing
  import opened DacStatus
  import opened StatusDecay

  const U16_MAX := 0xFFFF

  // ---- The pacing estimate -----------------------------------------------------------------------

  /** The status-driven estimator, and the rate reported while playing, or 0. */
  datatype Estimate = Estimate(anchor: Anchor, playingRate: nat)

  /** Whatever was before, a status decides everything. An idle ring counts as empty. */
  function Recorded(now: real, status: Status): Estimate {
    Estimate(Anchor(if status.playback.Idle? then 0 else status.fullness, Some(now), !status.playback.Idle?),
             if status.playback.Playing? then status.rate else 0)
  }

  /** The reported rate if there is one, otherwise the caller's. */
  function Reading(e: Estimate, now: real, pps: nat): nat {
    ReadAt(e.anchor, now, if e.playingRate > 0 then e.playingRate else pps)
  }

  class DacRateEstimator {
    const inner: StatusDecayEstimator
    var playingRate: nat

    function State(): Estimate
      reads this, inner
    {
      Estimate(inner.State(), playingRate)
    }

    constructor ()
      ensures fresh(inner) && State() == Estimate(Anchor(0, None, false), 0)
    {
      inner := new StatusDecayEstimator();
      playingRate := 0;
    }

    method RecordStatus(now: real, status: Status)
      modifies this, inner
      ensures State() == Recorded(now, status)
    {
      var idle := status.playback == Idle;
      playingRate := if status.playback == Playing then status.rate else 0;
      inner.SetPlaying(!idle);
      inner.RecordStatus(now, if idle then 0 else status.fullness);
    }

    method EstimatedFullness(now: real, pps: nat) returns (points: nat)
      ensures points == Reading(State(), now, pps)
    {
      var rate := if playingRate > 0 then playingRate else pps;
      points := inner.EstimatedFullness(now, rate);
    }
  }

  // ---- The device between two statuses --------------------------------------------------------------

  /** A status with the moments its request was sent, the device sampled it, and its reply
      arrived. */
  datatype Exchange = Exchange(status: Status, sent: real, sampled: real, received: real)
  {
    predicate Valid() {
      sent <= sampled <= received
    }

    /** A ring drains only while the device plays. */
    function Rate(): nat {
      if status.playback.Playing? then status.rate else 0
    }
  }

  /** The points that the device has yet to play. What an idle one holds is discarded by
      the next prepare. */
  function Playable(r: Exchange, now: real): real {
    if r.status.playback.Idle? then 0.0
    else Drained(Bucket(r.status.fullness as real, r.sampled), now, r.Rate())
  }

  predicate UnderReports(r: Exchange, now: real, pps: nat) {
    r.received <= now && (Reading(Recorded(r.sent, r.status), now, pps) as real) < Playable(r, now)
  }

  ghost predicate CanUnderReport(r: Exchange, pps: nat) {
    exists now :: UnderReports(r, now, pps)
  }

  /** A ring that stands still while the estimate drains it. */
  predicate StandsStill(r: Exchange) {
    r.status.playback.Prepared? || (r.status.playback.Playing? && r.status.rate == 0)
  }

  /** It is under-reported as soon as one point has been counted. */
  lemma StandingExactly(r: Exchange, pps: nat)
    requires r.Valid() && StandsStill(r)
    ensures CanUnderReport(r, pps) <==> r.status.fullness > 0 && pps > 0
  {
    var full := r.status.fullness;
    forall now
      ensures Playable(r, now) == full as real
    {
      assert Played(Since(now, r.sampled), 0) == 0.0;
    }
    if full > 0 && pps > 0 {
      var now := r.received + TimeFor(1, pps);
      OnePointCounted(r.sent, r.received, now, pps);
      assert UnderReports(r, now, pps);
    } else if pps == 0 {
      forall now
        ensures !UnderReports(r, now, pps)
      {
        assert Played(Since(now, r.sent), 0) == 0.0 && Whole(0.0) == 0;
      }
    }
  }

  lemma OnePointCounted(sent: real, received: real, now: real, pps: nat)
    requires sent <= received && pps > 0 && now == received + TimeFor(1, pps)
    ensures Whole(Played(Since(now, sent), pps)) >= 1
  {
    PlayedAdds(received - sent, TimeFor(1, pps), pps);
    assert Played(TimeFor(1, pps), pps) == 1.0;
    assert Since(now, sent) == (received - sent) + TimeFor(1, pps);
  }

  /** What is held when the reply arrives goes on draining from there. */
  lemma DrainsOn(b: Bucket, mid: real, now: real, rate: nat)
    requires b.at <= mid <= now && b.level >= 0.0
    ensures Drained(b, now, rate) == Drained(Bucket(Drained(b, mid, rate), mid), now, rate)
  {
    PlayedAdds(Since(mid, b.at), Since(now, mid), rate);
  }

  /** A playing ring: the time from request to reply is counted against it. */
  lemma PlayingExactly(r: Exchange, pps: nat)
    requires r.Valid() && r.status.playback.Playing? && r.status.rate > 0
    ensures var level := Playable(r, r.received);
            CanUnderReport(r, pps)
            <==> GapTells(r.status.fullness as real - level, level, Played(r.received - r.sent, r.status.rate))
  {
    var rate, full := r.status.rate, r.status.fullness;
    var ring := Bucket(full as real, r.sampled);
    var arrived := Bucket(Playable(r, r.received), r.received);
    FallsBelowExactly(full, r.sent, arrived, rate);
    forall now
      ensures UnderReports(r, now, pps) <==> FallsBelow(full, r.sent, arrived, now, rate)
    {
      ReadIsEstimated(Recorded(r.sent, r.status).anchor, now, rate);
      if r.received <= now {
        DrainsOn(ring, r.received, now, rate);
      }
    }
  }

  /** In every run, from one status to the next: some reading under-reports what is yet to
      be played if and only if the ring stands still, is not empty and the caller's rate is
      positive, or the device plays and the time from request to reply tells. */
  lemma UnderReportsExactly(r: Exchange, pps: nat)
    requires r.Valid()
    ensures var level := Playable(r, r.received);
            CanUnderReport(r, pps)
            <==> if r.status.playback.Idle? then false
                 else if StandsStill(r) then r.status.fullness > 0 && pps > 0
                 else GapTells(r.status.fullness as real - level, level,
                               Played(r.received - r.sent, r.status.rate))
  {
    if StandsStill(r) {
      StandingExactly(r, pps);
    } else if r.status.playback.Playing? {
      PlayingExactly(r, pps);
    }
  }

  /** If the device samples as its reply leaves, any delay of the request tells. */
  lemma SampledOnArrival(r: Exchange, pps: nat)
    requires r.Valid() && r.sampled == r.received && r.status.playback.Playing?
    ensures r.status.rate > 0 ==>
              (CanUnderReport(r, pps) <==> r.status.fullness > 0 && r.sent < r.sampled)
  {
    var rate, full := r.status.rate, r.status.fullness;
    if rate > 0 {
      PlayingExactly(r, pps);
      assert Played(0.0, rate) == 0.0;
      var gap := Played(r.received - r.sent, rate);
      PositiveGap(r.received - r.sent, rate);
      WholeBounds(gap);
      WholeNonnegative(gap);
    }
  }

  lemma PositiveGap(elapsed: real, rate: nat)
    requires elapsed >= 0.0 && rate > 0
    ensures Played(elapsed, rate) > 0.0 <==> elapsed > 0.0
  {
    if elapsed > 0.0 {
      assert elapsed * rate as real > 0.0;
    } else {
      assert elapsed * rate as real == 0.0;
    }
  }

  /** A prepared ring of 100 points, read 2 ms later at 30 kpps. */
  lemma PreparedExample()
    ensures var r := Exchange(Status(Prepared, 100, 0), 0.0, 0.0, 0.0);
            Reading(Recorded(r.sent, r.status), 0.002, 30000) == 40 && Playable(r, 0.002) == 100.0
  {
    assert Played(Since(0.002, 0.0), 30000) == 60.0;
    assert Played(Since(0.002, 0.0), 0) == 0.0;
  }

  // ---- Bounds -------------------------------------------------------------------------------------------

  /** While the device plays, the estimate is a lower bound up to rounding: less than one
      point above what is held, and below it by no more than plays between the request and
      the sample. */
  lemma EstimateIsLowerBound(r: Exchange, now: real, pps: nat)
    requires r.Valid() && r.status.playback.Playing? && r.status.rate > 0 && r.received <= now
    ensures var reading := Reading(Recorded(r.sent, r.status), now, pps) as real;
            Playable(r, now) - Played(r.sampled - r.sent, r.status.rate) <= reading < Playable(r, now) + 1.0
  {
    var rate := r.status.rate;
    PlayedAdds(r.sampled - r.sent, Since(now, r.sampled), rate);
    var counted := Played(Since(now, r.sent), rate);
    WholeBounds(counted);
    WholeNonnegative(counted);
  }

  /** The admission check's reading: frozen unless playing, decayed from `anchor`, never
      above the capacity. */
  function Decayed(raw: nat, capacity: nat, anchor: Option<real>, now: real, rate: nat, playing: bool): (points: nat)
    ensures points <= capacity && points <= raw
  {
    var full := Min(raw, capacity);
    if !playing || anchor.None? then full
    else
      var counted := Played(Since(now, anchor.value), rate);
      WholeNonnegative(counted);
      MinusNat(full, Min(Whole(counted), U16_MAX))
  }

  /** As the backend calls it, with the rate of its last write for a status without one. */
  function Admission(r: Exchange, capacity: nat, lastRate: nat, now: real): nat {
    Decayed(r.status.fullness, capacity, Some(r.received), now,
            if r.status.rate > 0 then r.status.rate else lastRate, r.status.playback.Playing?)
  }

  predicate AdmissionCovers(r: Exchange, capacity: nat, lastRate: nat, now: real) {
    Playable(r, now) <= Admission(r, capacity, lastRate, now) as real
  }

  lemma AdmissionAtRate(r: Exchange, capacity: nat, lastRate: nat, now: real)
    requires r.Valid() && r.status.fullness <= capacity <= U16_MAX && r.received <= now
    requires !(r.status.playback.Playing? && r.status.rate == 0)
    ensures AdmissionCovers(r, capacity, lastRate, now)
  {
    if r.status.playback.Playing? {
      PlayedAdds(r.received - r.sampled, Since(now, r.received), r.status.rate);
      WholeBounds(Played(Since(now, r.received), r.status.rate));
      WholeNonnegative(Played(Since(now, r.received), r.status.rate));
    } else {
      assert Played(Since(now, r.sampled), 0) == 0.0;
    }
  }

  /** The admission check never takes the ring for emptier than it is, except that a device
      that plays at a reported rate of 0 is counted down at the rate of the last write. */
  lemma AdmissionCoversExactly(r: Exchange, capacity: nat, lastRate: nat)
    requires r.Valid() && r.status.fullness <= capacity <= U16_MAX
    ensures (forall now :: r.received <= now ==> AdmissionCovers(r, capacity, lastRate, now))
       <==> !(r.status.playback.Playing? && r.status.rate == 0 && lastRate > 0 && r.status.fullness > 0)
  {
    if r.status.playback.Playing? && r.status.rate == 0 {
      forall now
        ensures Playable(r, now) == r.status.fullness as real
      {
        assert Played(Since(now, r.sampled), 0) == 0.0;
      }
      if lastRate > 0 && r.status.fullness > 0 {
        var now := r.received + TimeFor(1, lastRate);
        OnePointCounted(r.received, r.received, now, lastRate);
        assert !AdmissionCovers(r, capacity, lastRate, now);
      } else if lastRate == 0 {
        forall now | r.received <= now
          ensures AdmissionCovers(r, capacity, lastRate, now)
        {
          assert Played(Since(now, r.received), 0) == 0.0 && Whole(0.0) == 0;
        }
      }
    } else {
      forall now | r.received <= now
        ensures AdmissionCovers(r, capacity, lastRate, now)
      {
        AdmissionAtRate(r, capacity, lastRate, now);
      }
    }
  }

  /** So a chunk that the check admits fits into the ring. */
  lemma AdmittedChunkFits(r: Exchange, capacity: nat, lastRate: nat, now: real, points: nat)
    requires r.Valid() && r.status.fullness <= capacity <= U16_MAX && r.received <= now
    requires !(r.status.playback.Playing? && r.status.rate == 0)
    requires points <= MinusNat(capacity, Admission(r, capacity, lastRate, now))
    ensures Playable(r, now) + points as real <= capacity as real
  {
    AdmissionAtRate(r, capacity, lastRate, now);
  }
}
