/** The colour delay line: colours leave a fixed number of points after they enter,
    across chunk boundaries, while positions stay where they are. */
module ColorDelay {
  import opened Points

  // ---- The queue it refines ----------------------------------------------------

  /** Feed colours one at a time: push each, pop the oldest. What comes out. */
  function Popped(queue: seq<Color>, colors: seq<Color>): (out: seq<Color>)
    ensures |out| == |colors|
    decreases |colors|
  {
    if colors == [] then []
    else
      var pushed := queue + [colors[0]];
      [pushed[0]] + Popped(pushed[1..], colors[1..])
  }

  /** What is left in the queue. */
  function Left(queue: seq<Color>, colors: seq<Color>): (rest: seq<Color>)
    ensures |rest| == |queue|
    decreases |colors|
  {
    if colors == [] then queue else Left((queue + [colors[0]])[1..], colors[1..])
  }

  /** Feeding a chunk splits the queue followed by the chunk at the chunk's length. */
  lemma {:induction false} QueueSplits(queue: seq<Color>, colors: seq<Color>)
    ensures Popped(queue, colors) == (queue + colors)[..|colors|]
    ensures Left(queue, colors) == (queue + colors)[|colors|..]
    decreases |colors|
  {
    if colors != [] {
      var pushed := queue + [colors[0]];
      QueueSplits(pushed[1..], colors[1..]);
      assert queue + colors == [pushed[0]] + (pushed[1..] + colors[1..]);
    }
  }

  /** Chunk boundaries are invisible to the queue. */
  lemma QueueChunks(queue: seq<Color>, a: seq<Color>, b: seq<Color>)
    ensures Popped(queue, a + b) == Popped(queue, a) + Popped(Left(queue, a), b)
    ensures Left(queue, a + b) == Left(Left(queue, a), b)
  {
    QueueSplits(queue, a);
    QueueSplits(queue, a + b);
    QueueSplits(Left(queue, a), b);
    assert queue + (a + b) == Popped(queue, a) + (Left(queue, a) + b);
  }

  /** The queue for a new delay: pad the front with black, or drop from the front. */
  function Resized(queue: seq<Color>, delay: nat): (q: seq<Color>)
    ensures |q| == delay
  {
    if delay >= |queue| then Repeat(BLACK, delay - |queue|) + queue
    else queue[|queue| - delay..]
  }

  /** `points` with the colours replaced, the positions kept. */
  function Recolored(points: seq<Point>, colors: seq<Color>): (out: seq<Point>)
    requires |colors| == |points|
    ensures |out| == |points|
    ensures Colors(out) == colors
  {
    seq(|points|, i requires 0 <= i < |points| => Point(points[i].x, points[i].y, colors[i]))
  }

  /** A chunk through the delay line. */
  function Delayed(queue: seq<Color>, points: seq<Point>): (out: seq<Point>)
    ensures |out| == |points|
    ensures Colors(out) == Popped(queue, Colors(points))
  {
    Recolored(points, Popped(queue, Colors(points)))
  }

  /** The shifted chunk with its head filled in is the chunk through the queue. */
  lemma Reassembled(was: seq<Point>, now: seq<Point>, queue: seq<Color>)
    requires |now| == |was|
    requires forall k :: 0 <= k < |was| ==> now[k].x == was[k].x && now[k].y == was[k].y
    requires forall k :: 0 <= k < |was| && k < |queue| ==> now[k].color == queue[k]
    requires forall k :: |queue| <= k < |was| ==> now[k].color == was[k - |queue|].color
    ensures now == Delayed(queue, was)
  {
    var stream := queue + Colors(was);
    QueueSplits(queue, Colors(was));
    forall k | 0 <= k < |was|
      ensures now[k] == Delayed(queue, was)[k]
    {
      assert Popped(queue, Colors(was))[k] == stream[k];
    }
  }

  /** Without a delay, or without points, nothing moves. */
  lemma Unchanged(points: seq<Point>, queue: seq<Color>)
    requires queue == [] || points == []
    ensures Delayed(queue, points) == points && Left(queue, Colors(points)) == queue
  {
    QueueSplits(queue, Colors(points));
  }

  lemma ColorsOfTail(points: seq<Point>, from: nat)
    requires from <= |points|
    ensures Colors(points[from..]) == Colors(points)[from..]
  {
  }

  /** Rolling the queue forward by `keep` and appending the last `keep` colours. */
  lemma Rolls(queue: seq<Color>, colors: seq<Color>, keep: nat)
    requires keep == Min(|queue|, |colors|)
    ensures queue[keep..] + colors[|colors| - keep..] == Left(queue, colors)
  {
    QueueSplits(queue, colors);
    var stream := queue + colors;
    assert stream[|colors|..] == queue[keep..] + colors[|colors| - keep..];
  }

  // ---- The delay line ------------------------------------------------------------

  class ColorDelayLine {
    var delay: nat
    /** The last `delay` colours, oldest first. */
    var carry: seq<Color>
    /** The chunk tail that the in-place shift overwrites. */
    var scratch: seq<Color>

    ghost predicate Valid()
      reads this
    {
      |carry| == delay
    }

    constructor (delay: nat)
      ensures Valid() && this.delay == delay && carry == Repeat(BLACK, delay)
    {
      this.delay := delay;
      carry := Repeat(BLACK, delay);
      scratch := [];
    }

    method Reset()
      requires Valid()
      modifies this`carry
      ensures Valid() && carry == Repeat(BLACK, delay)
    {
      carry := Repeat(BLACK, |carry|);
    }

    method Resize(newDelay: nat)
      requires Valid()
      modifies this`delay, this`carry
      ensures Valid() && delay == newDelay
      ensures carry == Resized(old(carry), newDelay)
    {
      if newDelay == delay {
        return;
      }
      if newDelay == 0 {
        delay := 0;
        carry := [];
        return;
      }
      if newDelay > delay {
        var extra := newDelay - delay;
        carry := Repeat(BLACK, extra) + carry;
      } else {
        carry := carry[delay - newDelay..];
      }
      delay := newDelay;
    }

    /** Delay the colours of a chunk in place. Each point gets the colour that a
        queue fed point by point would release; positions are untouched. */
    method Apply(points: array<Point>, n: nat)
      requires Valid() && n <= points.Length
      modifies this`carry, this`scratch, points
      ensures Valid()
      ensures points[..n] == Delayed(old(carry), old(points[..n]))
      ensures points[n..] == old(points[n..])
      ensures carry == Left(old(carry), Colors(old(points[..n])))
    {
      if delay == 0 || n == 0 {
        Unchanged(points[..n], carry);
        return;
      }
      var keep := if delay <= n then delay else n;
      scratch := Colors(points[n - keep..n]);
      ghost var colors := Colors(points[..n]);
      ColorsOfTail(points[..n], n - keep);
      assert points[..n][n - keep..] == points[n - keep..n];
      Rolls(carry, colors, keep);
      DelayInPlace(points, n, carry);
      if keep == delay {
        assert carry[keep..] + scratch == scratch;
        carry := scratch;
      } else {
        carry := carry[keep..] + scratch;
      }
    }

    /** Shift the colours in place and let the carry fill the head. */
    static method DelayInPlace(points: array<Point>, n: nat, carry: seq<Color>)
      requires 0 < |carry| && n <= points.Length
      modifies points
      ensures points[..n] == Delayed(carry, old(points[..n]))
      ensures points[n..] == old(points[n..])
    {
      ShiftTail(points, n, |carry|);
      FillHead(points, if |carry| <= n then carry else carry[..n]);
      Reassembled(old(points[..n]), points[..n], carry);
    }

    /** Move the colours of `points[..n]` back by `delay`, last point first so that
        each source is read before it is overwritten. */
    static method ShiftTail(points: array<Point>, n: nat, delay: nat)
      requires 0 < delay && n <= points.Length
      modifies points
      ensures forall k :: 0 <= k < points.Length ==>
                points[k].x == old(points[k].x) && points[k].y == old(points[k].y)
      ensures forall k :: 0 <= k < points.Length && !(delay <= k < n) ==> points[k] == old(points[k])
      ensures forall k :: delay <= k < n ==> points[k].color == old(points[k - delay].color)
    {
      var i := n;
      while i > delay
        invariant i <= n && (i == n || delay <= i)
        invariant forall k :: 0 <= k < points.Length ==>
                    points[k].x == old(points[k].x) && points[k].y == old(points[k].y)
        invariant forall k :: 0 <= k < i || n <= k < points.Length ==> points[k] == old(points[k])
        invariant forall k :: i <= k < n ==> points[k].color == old(points[k - delay].color)
      {
        i := i - 1;
        points[i] := Point(points[i].x, points[i].y, points[i - delay].color);
      }
    }

    /** The carried colours fill the vacated head. */
    static method FillHead(points: array<Point>, head: seq<Color>)
      requires |head| <= points.Length
      modifies points
      ensures forall k :: 0 <= k < points.Length ==>
                points[k].x == old(points[k].x) && points[k].y == old(points[k].y)
      ensures forall k :: |head| <= k < points.Length ==> points[k] == old(points[k])
      ensures forall k :: 0 <= k < |head| ==> points[k].color == head[k]
    {
      var j := 0;
      while j < |head|
        invariant j <= |head|
        invariant forall k :: 0 <= k < points.Length ==>
                    points[k].x == old(points[k].x) && points[k].y == old(points[k].y)
        invariant forall k :: j <= k < points.Length ==> points[k] == old(points[k])
        invariant forall k :: 0 <= k < j ==> points[k].color == head[k]
      {
        points[j] := Point(points[j].x, points[j].y, head[j]);
        j := j + 1;
      }
    }
  }
}
