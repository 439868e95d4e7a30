/** The ideal that the buffer estimators approximate: a bucket that leaks at the
    playback rate, over real time. */
module LeakyBucket {

  function Max(a: real, b: real): real {
    if a >= b then a else b
  }

  /** What a bucket holding `level` still holds after `drained` points leaked. */
  function Remaining(level: real, drained: real): real {
    Max(0.0, level - drained)
  }

  /** Elapsed time, never negative. */
  function Since(now: real, then_: real): (elapsed: real)
    ensures elapsed >= 0.0
  {
    if now >= then_ then now - then_ else 0.0
  }

  /** Whole points played in a stretch of time: the truncating cast. */
  function Whole(points: real): int {
    points.Floor
  }

  lemma WholeBounds(points: real)
    ensures Whole(points) as real <= points < Whole(points) as real + 1.0
  {
  }

  lemma WholeNonnegative(points: real)
    requires points >= 0.0
    ensures Whole(points) >= 0
  {
  }

  /** `saturating_sub` */
  function MinusNat(a: nat, b: nat): nat {
    if a >= b then a - b else 0
  }

  function Played(elapsed: real, pps: nat): (points: real)
    requires elapsed >= 0.0
    ensures points >= 0.0
  {
    ProductNonnegative(elapsed, pps as real);
    elapsed * pps as real
  }

  lemma ProductNonnegative(a: real, b: real)
    requires a >= 0.0 && b >= 0.0
    ensures a * b >= 0.0
  {
  }

  /** Points played add up over consecutive stretches. */
  lemma PlayedAdds(a: real, b: real, pps: nat)
    requires a >= 0.0 && b >= 0.0
    ensures Played(a + b, pps) == Played(a, pps) + Played(b, pps)
  {
  }

  /** The time that `k` points take. */
  function TimeFor(k: nat, pps: nat): (t: real)
    requires pps > 0
    ensures t >= 0.0 && t * pps as real == k as real
  {
    k as real / pps as real
  }

  lemma ScaledOrder(a: real, b: real, c: real)
    requires c > 0.0 && a * c <= b * c
    ensures a <= b
  {
  }

  /** A bucket at a moment. */
  datatype Bucket = Bucket(level: real, at: real)

  /** Its level later, at a constant rate. */
  function Drained(b: Bucket, now: real, pps: nat): real {
    Remaining(b.level, Played(Since(now, b.at), pps))
  }

  /** The bucket when `n` points are added. */
  function Filled(b: Bucket, now: real, n: nat, pps: nat): Bucket {
    Bucket(Drained(b, now, pps) + n as real, now)
  }

  /** A send at a time. */
  datatype Send = Send(time: real, points: nat)

  function LastTime(start: real, sends: seq<Send>): real {
    if sends == [] then start else sends[|sends| - 1].time
  }

  /** Sends in time order, none before `start`. */
  predicate InOrder(start: real, sends: seq<Send>) {
    sends != [] ==>
      var before := sends[..|sends| - 1];
      InOrder(start, before) && LastTime(start, before) <= sends[|sends| - 1].time
  }

  /** The bucket after a series of sends. */
  function BucketAfter(first: Bucket, sends: seq<Send>, pps: nat): Bucket {
    if sends == [] then first
    else
      var last := sends[|sends| - 1];
      Filled(BucketAfter(first, sends[..|sends| - 1], pps), last.time, last.points, pps)
  }
}
