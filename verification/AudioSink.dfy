/** The bounded queue between the producer and the audio callback. The callback may
    pop at any moment; between any two pushes it is given the chance to. */
module AudioSink {
  import opened Resample

  class AudioSinkState<P> {
    const capacity: nat
    var queue: seq<P>
    /** What the audio callback has taken so far. */
    ghost var popped: seq<P>

    ghost predicate Valid()
      reads this
    {
      |queue| <= capacity
    }

    /** Everything that ever got in, in order. */
    ghost function Accepted(): seq<P>
      reads this
    {
      popped + queue
    }

    constructor (capacity: nat)
      ensures Valid() && this.capacity == capacity && queue == [] && popped == []
    {
      this.capacity := capacity;
      queue := [];
      popped := [];
    }

    function RemainingCapacity(): (room: nat)
      requires Valid()
      reads this
      ensures room + |queue| == capacity
    {
      capacity - |queue|
    }

    function HasCapacityFor(count: nat): (granted: bool)
      requires Valid()
      reads this
      ensures granted <==> |queue| + count <= capacity
    {
      count == 0 || RemainingCapacity() >= count
    }

    /** The audio callback takes any number of points, oldest first. */
    method CallbackRuns()
      requires Valid()
      modifies this
      ensures Valid() && Accepted() == old(Accepted())
      ensures |queue| <= |old(queue)|
    {
      var taken: nat :| taken <= |queue|;
      popped := popped + queue[..taken];
      queue := queue[taken..];
    }

    /** A full queue drops the point instead of blocking. */
    method PushPoint(point: P)
      requires Valid()
      modifies this
      ensures Valid()
      ensures Accepted() == if |old(queue)| < capacity then old(Accepted()) + [point] else old(Accepted())
      ensures |queue| <= |old(queue)| + 1
    {
      if |queue| < capacity {
        queue := queue + [point];
      }
    }
  }

  lemma NextTaken<P>(before: seq<P>, points: seq<P>, i: nat)
    requires i < |points|
    ensures (before + points[..i]) + [points[i]] == before + points[..i + 1]
  {
  }

  /** Resample a chunk into the queue while the callback keeps popping. If capacity for
      exactly the pending outputs was there at the start, every output gets in, in
      order, whatever the callback does meanwhile. */
  method PushChunkResampled<P>(sink: AudioSinkState<P>, resampler: StreamingResampler<P>, input: seq<P>)
    returns (scratch: seq<P>, ghost out: seq<P>)
    requires sink.Valid() && resampler.Valid()
    modifies sink, resampler
    ensures sink.Valid() && resampler.Valid() && resampler.rates == old(resampler.rates)
    ensures resampler.stream == old(resampler.stream) + input && scratch == input
    ensures out == Due(resampler.catmull, resampler.rates, old(resampler.stream), resampler.stream)
    ensures |out| == old(resampler.PendingOutputCount(|input|))
    ensures old(sink.HasCapacityFor(resampler.PendingOutputCount(|input|))) ==>
              sink.Accepted() == old(sink.Accepted()) + out
  {
    ghost var room := sink.capacity - |sink.queue|;
    var emitted := resampler.Process(input);
    out := emitted;
    var i := 0;
    while i < |emitted|
      modifies sink
      invariant i <= |emitted| && sink.Valid()
      invariant |sink.queue| <= sink.capacity - room + i
      invariant |emitted| <= room ==> sink.Accepted() == old(sink.Accepted()) + emitted[..i]
    {
      sink.CallbackRuns();
      sink.PushPoint(emitted[i]);
      NextTaken(old(sink.Accepted()), emitted, i);
      i := i + 1;
    }
    sink.CallbackRuns();
    scratch := input;
  }

  // ---- How much capacity is needed ---------------------------------------------------

  /** The queue after pushes with no pop in between. */
  function PushAll<P>(queue: seq<P>, capacity: nat, points: seq<P>): seq<P>
    decreases |points|
  {
    if points == [] then queue
    else PushAll(if |queue| < capacity then queue + [points[0]] else queue, capacity, points[1..])
  }

  lemma {:induction false} PushAllKeepsPrefix<P>(queue: seq<P>, capacity: nat, points: seq<P>)
    requires |queue| <= capacity
    ensures var room := capacity - |queue|;
            PushAll(queue, capacity, points)
              == queue + points[..if |points| <= room then |points| else room]
    decreases |points|
  {
    if points != [] {
      PushAllKeepsPrefix(if |queue| < capacity then queue + [points[0]] else queue, capacity, points[1..]);
    }
  }

  /** The reservation is exactly right: without it, a callback that happens not to pop
      loses a point. */
  lemma ReservationIsNeeded<P>(queue: seq<P>, capacity: nat, points: seq<P>)
    requires |queue| <= capacity
    ensures PushAll(queue, capacity, points) == queue + points <==> |points| <= capacity - |queue|
  {
    PushAllKeepsPrefix(queue, capacity, points);
    if |points| > capacity - |queue| {
      assert |PushAll(queue, capacity, points)| < |queue + points|;
    }
  }
}
