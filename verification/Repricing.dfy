/** An anchored estimate against a bucket that began to leak, or to leak at this rate,
    only later than the anchor: the whole time since the anchor is counted at the present
    rate, so the estimate can fall below what is held. Here is exactly when. */
module Repricing {
  import opened LeakyBucket

  /** Rounded up to whole points. */
  function RoundedUp(points: real): int {
    if Whole(points) as real == points then Whole(points) else Whole(points) + 1
  }

  /** The points counted before the bucket leaked, `gap`, are more than the estimate has
      in excess: at once, in whole points, or once the running point is complete, if the
      bucket still holds something then. */
  predicate GapTells(excess: real, level: real, gap: real) {
    && level > 0.0
    && (excess < Whole(gap) as real || (excess < gap && RoundedUp(gap) as real - gap < level))
  }

  /** After `x` more points the estimate is below what is held. */
  predicate Below(fullness: nat, level: real, gap: real, x: real) {
    Remaining(fullness as real, Whole(gap + x) as real) < Remaining(level, x)
  }

  lemma BelowMeansGapTells(fullness: nat, level: real, gap: real, x: real)
    requires level >= 0.0 && gap >= 0.0 && x >= 0.0
    requires Below(fullness, level, gap, x)
    ensures GapTells(fullness as real - level, level, gap)
  {
    WholeBounds(gap);
    WholeBounds(gap + x);
    var up := RoundedUp(gap);
    if up as real - gap >= level {
      assert gap + x < up as real;
      assert Whole(gap + x) <= up - 1 <= Whole(gap);
    }
  }

  lemma GapTellsMeansBelow(fullness: nat, level: real, gap: real) returns (x: real)
    requires level >= 0.0 && gap >= 0.0
    requires GapTells(fullness as real - level, level, gap)
    ensures x >= 0.0 && Below(fullness, level, gap, x)
  {
    if fullness as real - level < Whole(gap) as real {
      x := 0.0;
    } else {
      WholeBounds(gap);
      var up := RoundedUp(gap);
      x := up as real - gap;
      WholeOfInteger(up);
      assert gap + x == up as real;
    }
  }

  lemma WholeOfInteger(k: int)
    ensures Whole(k as real) == k
  {
  }

  /** What is left of `fullness` when all the time since `anchor` counts at the rate. */
  function Estimated(fullness: nat, anchor: real, now: real, rate: nat): real {
    Remaining(fullness as real, Whole(Played(Since(now, anchor), rate)) as real)
  }

  /** At `now` it is below what a bucket holds. */
  predicate FallsBelow(fullness: nat, anchor: real, b: Bucket, now: real, rate: nat) {
    b.at <= now && Estimated(fullness, anchor, now, rate) < Drained(b, now, rate)
  }

  ghost predicate CanFallBelow(fullness: nat, anchor: real, b: Bucket, rate: nat) {
    exists now :: FallsBelow(fullness, anchor, b, now, rate)
  }

  lemma FallsBelowMeans(fullness: nat, anchor: real, b: Bucket, now: real, rate: nat)
    requires anchor <= b.at <= now
    ensures FallsBelow(fullness, anchor, b, now, rate)
       <==> Below(fullness, b.level, Played(Since(b.at, anchor), rate), Played(Since(now, b.at), rate))
  {
    PlayedAdds(Since(b.at, anchor), Since(now, b.at), rate);
  }

  lemma PointsOfTime(x: real, rate: nat)
    requires x >= 0.0 && rate > 0
    ensures x / rate as real >= 0.0 && Played(x / rate as real, rate) == x
  {
  }

  /** Some reading falls below the bucket if and only if the gap tells. */
  lemma FallsBelowExactly(fullness: nat, anchor: real, b: Bucket, rate: nat)
    requires anchor <= b.at && b.level >= 0.0
    ensures CanFallBelow(fullness, anchor, b, rate)
       <==> GapTells(fullness as real - b.level, b.level, Played(Since(b.at, anchor), rate))
  {
    var gap := Played(Since(b.at, anchor), rate);
    forall now | FallsBelow(fullness, anchor, b, now, rate)
      ensures GapTells(fullness as real - b.level, b.level, gap)
    {
      FallsBelowMeans(fullness, anchor, b, now, rate);
      BelowMeansGapTells(fullness, b.level, gap, Played(Since(now, b.at), rate));
    }
    if GapTells(fullness as real - b.level, b.level, gap) {
      var now := b.at;
      if rate > 0 {
        var x := GapTellsMeansBelow(fullness, b.level, gap);
        now := b.at + x / rate as real;
        PointsOfTime(x, rate);
      } else {
        assert Played(Since(b.at, anchor), 0) == 0.0 && Played(0.0, 0) == 0.0;
        assert Whole(0.0) == 0;
      }
      FallsBelowMeans(fullness, anchor, b, now, rate);
      assert FallsBelow(fullness, anchor, b, now, rate);
    }
  }

  // ---- By a whole point or more --------------------------------------------------------------------

  /** The same for an estimate that is allowed to be less than a point too low. */
  predicate GapCostsPoint(excess: real, level: real, gap: real) {
    && level >= 1.0
    && (|| excess + 1.0 <= Whole(gap) as real
        || (excess + 1.0 <= gap && RoundedUp(gap) as real - gap <= level - 1.0))
  }

  predicate PointBelow(fullness: nat, level: real, gap: real, x: real) {
    Remaining(fullness as real, Whole(gap + x) as real) <= Remaining(level, x) - 1.0
  }

  lemma PointBelowMeansGapCosts(fullness: nat, level: real, gap: real, x: real)
    requires level >= 0.0 && gap >= 0.0 && x >= 0.0
    requires PointBelow(fullness, level, gap, x)
    ensures GapCostsPoint(fullness as real - level, level, gap)
  {
    WholeBounds(gap);
    WholeBounds(gap + x);
    var up := RoundedUp(gap);
    if up as real - gap > level - 1.0 {
      assert gap + x < up as real;
      assert Whole(gap + x) <= up - 1 <= Whole(gap);
    }
  }

  lemma GapCostsMeansPointBelow(fullness: nat, level: real, gap: real) returns (x: real)
    requires level >= 0.0 && gap >= 0.0
    requires GapCostsPoint(fullness as real - level, level, gap)
    ensures x >= 0.0 && PointBelow(fullness, level, gap, x)
  {
    if fullness as real - level + 1.0 <= Whole(gap) as real {
      x := 0.0;
    } else {
      WholeBounds(gap);
      var up := RoundedUp(gap);
      x := up as real - gap;
      WholeOfInteger(up);
      assert gap + x == up as real;
    }
  }

  predicate FallsShort(fullness: nat, anchor: real, b: Bucket, now: real, rate: nat) {
    b.at <= now && Estimated(fullness, anchor, now, rate) <= Drained(b, now, rate) - 1.0
  }

  ghost predicate CanFallShort(fullness: nat, anchor: real, b: Bucket, rate: nat) {
    exists now :: FallsShort(fullness, anchor, b, now, rate)
  }

  lemma FallsShortMeans(fullness: nat, anchor: real, b: Bucket, now: real, rate: nat)
    requires anchor <= b.at <= now
    ensures FallsShort(fullness, anchor, b, now, rate)
       <==> PointBelow(fullness, b.level, Played(Since(b.at, anchor), rate), Played(Since(now, b.at), rate))
  {
    PlayedAdds(Since(b.at, anchor), Since(now, b.at), rate);
  }

  /** Some reading is a whole point too low if and only if the gap costs one. */
  lemma FallsShortExactly(fullness: nat, anchor: real, b: Bucket, rate: nat)
    requires anchor <= b.at && b.level >= 0.0
    ensures CanFallShort(fullness, anchor, b, rate)
       <==> GapCostsPoint(fullness as real - b.level, b.level, Played(Since(b.at, anchor), rate))
  {
    var gap := Played(Since(b.at, anchor), rate);
    forall now | FallsShort(fullness, anchor, b, now, rate)
      ensures GapCostsPoint(fullness as real - b.level, b.level, gap)
    {
      FallsShortMeans(fullness, anchor, b, now, rate);
      PointBelowMeansGapCosts(fullness, b.level, gap, Played(Since(now, b.at), rate));
    }
    if GapCostsPoint(fullness as real - b.level, b.level, gap) {
      var now := b.at;
      if rate > 0 {
        var x := GapCostsMeansPointBelow(fullness, b.level, gap);
        now := b.at + x / rate as real;
        PointsOfTime(x, rate);
      } else {
        assert Played(Since(b.at, anchor), 0) == 0.0 && Played(0.0, 0) == 0.0;
        assert Whole(0.0) == 0;
      }
      FallsShortMeans(fullness, anchor, b, now, rate);
      assert FallsShort(fullness, anchor, b, now, rate);
    }
  }

  /** At a lower rate less is counted, so nothing is lost. */
  lemma SlowerCountsLess(elapsed: real, slow: nat, fast: nat)
    requires elapsed >= 0.0 && slow <= fast
    ensures Played(elapsed, slow) <= Played(elapsed, fast)
  {
    ProductNonnegative(elapsed, (fast - slow) as real);
    assert elapsed * fast as real == elapsed * slow as real + elapsed * (fast - slow) as real;
  }
}
