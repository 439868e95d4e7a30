/** The software-only estimator: an integer fullness at an anchor time, rebased on
    every send so that the fraction of a point already played is carried along. */
module SoftwareDecay {
  import opened LeakyBucket
  import opened Repricing

  /** The estimator's fields as a value. */
  datatype Anchor = Anchor(fullness: nat, time: real)

  /** What `record_send` leaves. Only whole points are subtracted, and the anchor
      advances by the time of exactly those points. */
  function Sent(a: Anchor, now: real, n: nat, pps: nat): Anchor {
    if pps == 0 then Anchor(a.fullness + n, a.time)
    else
      var played := Played(Since(now, a.time), pps);
      WholeNonnegative(played);
      var consumed := Whole(played);
      Anchor(MinusNat(a.fullness, consumed) + n, a.time + TimeFor(consumed, pps))
  }

  function ReadAt(a: Anchor, now: real, pps: nat): nat {
    var played := Played(Since(now, a.time), pps);
    WholeNonnegative(played);
    MinusNat(a.fullness, Whole(played))
  }

  class SoftwareDecayEstimator {
    var fullness: nat
    var anchorTime: real

    function State(): Anchor
      reads this
    {
      Anchor(fullness, anchorTime)
    }

    constructor (now: real)
      ensures State() == Anchor(0, now)
    {
      fullness := 0;
      anchorTime := now;
    }

    method Reset(now: real)
      modifies this
      ensures State() == Anchor(0, now)
    {
      fullness := 0;
      anchorTime := now;
    }

    method RecordSend(now: real, n: nat, pps: nat)
      modifies this
      ensures State() == Sent(old(State()), now, n, pps)
    {
      if pps == 0 {
        fullness := fullness + n;
        return;
      }
      var played := Played(Since(now, anchorTime), pps);
      WholeNonnegative(played);
      var consumed: nat := Whole(played);
      fullness := (if fullness >= consumed then fullness - consumed else 0) + n;
      anchorTime := anchorTime + TimeFor(consumed, pps);
    }

    method EstimatedFullness(now: real, pps: nat) returns (points: nat)
      ensures points == ReadAt(State(), now, pps)
    {
      var played := Played(Since(now, anchorTime), pps);
      WholeNonnegative(played);
      var consumed: nat := Whole(played);
      points := if fullness >= consumed then fullness - consumed else 0;
    }
  }

  // ---- Against the ideal bucket ------------------------------------------------------

  /** At a send, the estimate less the fraction in flight is at most one point below
      the bucket and never above it. */
  predicate Follows(a: Anchor, b: Bucket, pps: nat) {
    && a.time <= b.at && b.level >= 0.0
    && var v := a.fullness as real - Played(Since(b.at, a.time), pps);
       b.level - 1.0 < v <= b.level
  }

  /** Splitting the time since the anchor at the last send. */
  lemma SplitAtSend(a: Anchor, b: Bucket, now: real, pps: nat)
    requires a.time <= b.at <= now
    ensures Played(Since(now, a.time), pps)
         == Played(Since(b.at, a.time), pps) + Played(Since(now, b.at), pps)
  {
    PlayedAdds(Since(b.at, a.time), Since(now, b.at), pps);
  }

  /** Rebasing leaves exactly the fraction of a point in flight. */
  lemma FractionLeft(a: Anchor, now: real, n: nat, pps: nat)
    requires pps > 0 && a.time <= now
    ensures var played := Played(Since(now, a.time), pps);
            var next := Sent(a, now, n, pps);
            && next.time <= now
            && Played(Since(now, next.time), pps) == played - Whole(played) as real
  {
    var played := Played(Since(now, a.time), pps);
    WholeNonnegative(played);
    WholeBounds(played);
    var step := TimeFor(Whole(played), pps);
    assert step * pps as real == Whole(played) as real;
    assert (now - a.time) * pps as real == played;
    ScaledOrder(step, now - a.time, pps as real);
    PlayedAdds(now - a.time - step, step, pps);
  }

  lemma SendKeepsFollowing(a: Anchor, b: Bucket, now: real, n: nat, pps: nat)
    requires Follows(a, b, pps) && b.at <= now
    ensures Follows(Sent(a, now, n, pps), Filled(b, now, n, pps), pps)
  {
    SplitAtSend(a, b, now, pps);
    if pps > 0 {
      var played := Played(Since(now, a.time), pps);
      WholeNonnegative(played);
      WholeBounds(played);
      FractionLeft(a, now, n, pps);
    }
  }

  lemma ReadIsClose(a: Anchor, b: Bucket, now: real, pps: nat)
    requires Follows(a, b, pps) && b.at <= now
    ensures -1.0 < ReadAt(a, now, pps) as real - Drained(b, now, pps) < 1.0
  {
    SplitAtSend(a, b, now, pps);
    var played := Played(Since(now, a.time), pps);
    WholeNonnegative(played);
    WholeBounds(played);
  }

  /** The estimator after a series of sends. */
  function AnchorAfter(start: real, sends: seq<Send>, pps: nat): Anchor {
    if sends == [] then Anchor(0, start)
    else
      var last := sends[|sends| - 1];
      Sent(AnchorAfter(start, sends[..|sends| - 1], pps), last.time, last.points, pps)
  }

  lemma {:induction false} SendsKeepFollowing(start: real, sends: seq<Send>, pps: nat)
    requires InOrder(start, sends)
    ensures Follows(AnchorAfter(start, sends, pps), BucketAfter(Bucket(0.0, start), sends, pps), pps)
    ensures BucketAfter(Bucket(0.0, start), sends, pps).at == LastTime(start, sends)
    decreases |sends|
  {
    if sends == [] {
      assert Played(0.0, pps) == 0.0;
    } else {
      var n := |sends|;
      var before, last := sends[..n - 1], sends[n - 1];
      SendsKeepFollowing(start, before, pps);
      SendKeepsFollowing(AnchorAfter(start, before, pps), BucketAfter(Bucket(0.0, start), before, pps),
                         last.time, last.points, pps);
    }
  }

  /** At a constant rate the estimate never strays a whole point from the ideal bucket,
      after any number of sends at any non-decreasing times, empty spells included. */
  lemma NeverOffByOne(start: real, sends: seq<Send>, pps: nat, now: real)
    requires InOrder(start, sends) && LastTime(start, sends) <= now
    ensures var estimate := ReadAt(AnchorAfter(start, sends, pps), now, pps) as real;
            var ideal := Drained(BucketAfter(Bucket(0.0, start), sends, pps), now, pps);
            -1.0 < estimate - ideal < 1.0
  {
    SendsKeepFollowing(start, sends, pps);
    ReadIsClose(AnchorAfter(start, sends, pps), BucketAfter(Bucket(0.0, start), sends, pps), now, pps);
  }

  // ---- A change of rate ------------------------------------------------------------------------------

  /** The bucket at the moment the rate changes. */
  function AtChange(start: real, sends: seq<Send>, pps: nat, change: real): Bucket {
    Bucket(Drained(BucketAfter(Bucket(0.0, start), sends, pps), change, pps), change)
  }

  lemma ReadIsEstimated(a: Anchor, now: real, pps: nat)
    ensures ReadAt(a, now, pps) as real == Estimated(a.fullness, a.time, now, pps)
  {
    WholeNonnegative(Played(Since(now, a.time), pps));
  }

  /** Some reading at the new rate is a whole point or more below the bucket. */
  ghost predicate CanReadLow(a: Anchor, b: Bucket, rate: nat) {
    exists now :: ReadsLow(a, b, now, rate)
  }

  predicate ReadsLow(a: Anchor, b: Bucket, now: real, rate: nat) {
    b.at <= now && ReadAt(a, now, rate) as real <= Drained(b, now, rate) - 1.0
  }

  /** After every run of sends at one rate, a change to another: all the time since the
      anchor is priced anew, and a reading is a whole point or more too low if and only if
      that costs a point. */
  lemma RateChangeExactly(start: real, sends: seq<Send>, pps: nat, change: real, rate: nat)
    requires InOrder(start, sends) && LastTime(start, sends) <= change
    ensures var a, b := AnchorAfter(start, sends, pps), AtChange(start, sends, pps, change);
            CanReadLow(a, b, rate)
            <==> GapCostsPoint(a.fullness as real - b.level, b.level, Played(Since(change, a.time), rate))
  {
    var a, b := AnchorAfter(start, sends, pps), AtChange(start, sends, pps, change);
    SendsKeepFollowing(start, sends, pps);
    FallsShortExactly(a.fullness, a.time, b, rate);
    forall now
      ensures ReadsLow(a, b, now, rate) <==> FallsShort(a.fullness, a.time, b, now, rate)
    {
      ReadIsEstimated(a, now, rate);
    }
  }

  /** A lower rate never does that. */
  lemma RateDropIsSafe(start: real, sends: seq<Send>, pps: nat, change: real, rate: nat, now: real)
    requires InOrder(start, sends) && LastTime(start, sends) <= change <= now && rate <= pps
    ensures Drained(AtChange(start, sends, pps, change), now, rate) - 1.0
          < ReadAt(AnchorAfter(start, sends, pps), now, rate) as real
  {
    var a, b := AnchorAfter(start, sends, pps), BucketAfter(Bucket(0.0, start), sends, pps);
    SendsKeepFollowing(start, sends, pps);
    PlayedAdds(Since(b.at, a.time), Since(change, b.at), pps);
    SlowerCountsLess(Since(change, a.time), rate, pps);
    PlayedAdds(Since(change, a.time), Since(now, change), rate);
    var counted := Played(Since(now, a.time), rate);
    WholeBounds(counted);
    WholeNonnegative(counted);
  }

  /** One send, and before it is played out a rise to a rate that would have played it: the
      estimate is 0 at once, whatever the device still holds. */
  lemma RiseEmptiesEstimate(points: nat, pps: nat, change: real, rate: nat)
    requires pps > 0 && change >= 0.0
    requires Played(change, pps) <= points as real <= Played(change, rate)
    ensures ReadAt(AnchorAfter(0.0, [Send(0.0, points)], pps), change, rate) == 0
    ensures AtChange(0.0, [Send(0.0, points)], pps, change).level == points as real - Played(change, pps)
  {
    FirstSend(points, pps);
    WholeBounds(Played(change, rate));
  }

  /** The first send, at the very start. */
  lemma FirstSend(points: nat, pps: nat)
    requires pps > 0
    ensures AnchorAfter(0.0, [Send(0.0, points)], pps) == Anchor(points, 0.0)
    ensures BucketAfter(Bucket(0.0, 0.0), [Send(0.0, points)], pps) == Bucket(points as real, 0.0)
  {
    var none: seq<Send> := [];
    assert [Send(0.0, points)][..0] == none;
    NothingYet(pps);
  }

  lemma NothingYet(pps: nat)
    ensures Played(0.0, pps) == 0.0 && Whole(Played(0.0, pps)) == 0
    ensures pps > 0 ==> TimeFor(0, pps) == 0.0
  {
  }
}
