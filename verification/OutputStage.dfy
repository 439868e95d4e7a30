/** Blanking followed by the colour delay: the stage between the engine and the
    device, as functions of what it is fed, and what stays dark because of it. */
module OutputStage {
  import opened Points
  import opened ColorDelay

  const NANOS_PER_SEC := 1_000_000_000
  const USIZE_MAX := 0xFFFF_FFFF_FFFF_FFFF

  /** Points that a duration covers at a rate, rounded up. */
  function DurationToPoints(nanos: nat, pps: nat): (points: nat)
    ensures points <= USIZE_MAX
    ensures points < USIZE_MAX ==>
              (points - 1) * NANOS_PER_SEC < nanos * pps <= points * NANOS_PER_SEC
    ensures points == USIZE_MAX ==> nanos * pps > (USIZE_MAX - 1) * NANOS_PER_SEC
  {
    if nanos == 0 || pps == 0 then
      assert nanos * pps == 0;
      0
    else
      var points := (nanos * pps + NANOS_PER_SEC - 1) / NANOS_PER_SEC;
      if points <= USIZE_MAX then points else USIZE_MAX
  }

  /** The state the stage carries from chunk to chunk. */
  datatype Stage = Stage(blankLeft: nat, carry: seq<Color>)

  /** The first `k` points with their colour taken away, the rest as they are. */
  function BlankPrefix(points: seq<Point>, k: nat): (out: seq<Point>)
    ensures |out| == |points|
  {
    seq(|points|, i requires 0 <= i < |points| =>
      if i < k then Blanked(points[i].x, points[i].y) else points[i])
  }

  /** A chunk after disarm blanking or startup blanking. */
  function BlankedChunk(chunk: seq<Point>, armed: bool, left: nat, park: Point): (out: seq<Point>)
    ensures |out| == |chunk|
  {
    if armed then BlankPrefix(chunk, left) else Repeat(park, |chunk|)
  }

  /** The startup blank still owed after a chunk of `n` points. */
  function BlankLeft(left: nat, armed: bool, n: nat): nat {
    if armed then left - Min(left, n) else left
  }

  /** The colours waiting once the delay line has its present length. */
  function Waiting(s: Stage, delay: nat): (queue: seq<Color>)
    ensures |queue| == delay
  {
    Resized(s.carry, delay)
  }

  /** What one chunk becomes. */
  function Presented(s: Stage, chunk: seq<Point>, armed: bool, park: Point, delay: nat): (out: seq<Point>)
    ensures |out| == |chunk|
  {
    Delayed(Waiting(s, delay), BlankedChunk(chunk, armed, s.blankLeft, park))
  }

  /** The stage after one chunk. */
  function NextStage(s: Stage, chunk: seq<Point>, armed: bool, park: Point, delay: nat): (next: Stage)
    ensures |next.carry| == delay
  {
    var colors := Colors(BlankedChunk(chunk, armed, s.blankLeft, park));
    Stage(BlankLeft(s.blankLeft, armed, |chunk|), Left(Waiting(s, delay), colors))
  }

  // ---- Streams of chunks ----------------------------------------------------------

  /** Everything that a sequence of chunks becomes, armed or disarmed throughout. */
  function PresentedAll(s: Stage, chunks: seq<seq<Point>>, armed: bool, park: Point, delay: nat): seq<Point>
    decreases |chunks|
  {
    if chunks == [] then []
    else
      Presented(s, chunks[0], armed, park, delay)
      + PresentedAll(NextStage(s, chunks[0], armed, park, delay), chunks[1..], armed, park, delay)
  }

  lemma ResizedSame(queue: seq<Color>)
    ensures Resized(queue, |queue|) == queue
  {
    assert Repeat(BLACK, 0) == [];
  }

  lemma BlankingSplits(a: seq<Point>, b: seq<Point>, armed: bool, left: nat, park: Point)
    ensures BlankedChunk(a + b, armed, left, park)
         == BlankedChunk(a, armed, left, park) + BlankedChunk(b, armed, BlankLeft(left, armed, |a|), park)
  {
  }

  lemma ColorsOfConcat(a: seq<Point>, b: seq<Point>)
    ensures Colors(a + b) == Colors(a) + Colors(b)
  {
  }

  /** Recolouring two parts with the two parts of a colour sequence. */
  lemma DelayedChunks(queue: seq<Color>, a: seq<Point>, b: seq<Point>)
    ensures Delayed(queue, a + b) == Delayed(queue, a) + Delayed(Left(queue, Colors(a)), b)
  {
    ColorsOfConcat(a, b);
    QueueChunks(queue, Colors(a), Colors(b));
  }

  /** How the stream is cut into chunks does not matter: at a constant delay the
      output is the whole content, blanked and delayed once. */
  lemma {:induction false} ChunkingIsInvisible(s: Stage, chunks: seq<seq<Point>>, armed: bool, park: Point, delay: nat)
    ensures PresentedAll(s, chunks, armed, park, delay) == Presented(s, Flat(chunks), armed, park, delay)
    decreases |chunks|
  {
    if chunks != [] {
      FlatFront(chunks);
      var chunk, rest := chunks[0], Flat(chunks[1..]);
      var next := NextStage(s, chunk, armed, park, delay);
      ChunkingIsInvisible(next, chunks[1..], armed, park, delay);
      ResizedSame(next.carry);
      BlankingSplits(chunk, rest, armed, s.blankLeft, park);
      DelayedChunks(Waiting(s, delay), BlankedChunk(chunk, armed, s.blankLeft, park),
                    BlankedChunk(rest, armed, next.blankLeft, park));
    }
  }

  // ---- Darkness ---------------------------------------------------------------------

  predicate AllBlack(colors: seq<Color>) {
    forall i :: 0 <= i < |colors| ==> colors[i] == BLACK
  }

  /** The colour of each presented point, read off the queue and the content. */
  lemma PresentedColor(s: Stage, chunk: seq<Point>, armed: bool, park: Point, delay: nat, i: nat)
    requires i < |chunk|
    ensures Presented(s, chunk, armed, park, delay)[i].color
         == if i < delay then Waiting(s, delay)[i]
            else BlankedChunk(chunk, armed, s.blankLeft, park)[i - delay].color
  {
    var blanked := BlankedChunk(chunk, armed, s.blankLeft, park);
    var queue := Waiting(s, delay);
    QueueSplits(queue, Colors(blanked));
    assert (queue + Colors(blanked))[i]
        == if i < delay then queue[i] else Colors(blanked)[i - delay];
  }

  /** Armed from a clean carry, with a startup blank of `k` points and a delay of `d`:
      the first `d + k` points are dark however they are chunked, and from there on
      every point has exactly the colour authored `d` points earlier. */
  lemma DarkStart(s: Stage, chunks: seq<seq<Point>>, park: Point, delay: nat, i: nat)
    requires AllBlack(s.carry) && i < |Flat(chunks)|
    ensures var out := PresentedAll(s, chunks, true, park, delay);
            && |out| == |Flat(chunks)|
            && out[i].color == (if i < delay + s.blankLeft then BLACK else Flat(chunks)[i - delay].color)
            && out[i].x == Flat(chunks)[i].x && out[i].y == Flat(chunks)[i].y
  {
    ChunkingIsInvisible(s, chunks, true, park, delay);
    DarkAtFirst(s, Flat(chunks), park, delay, i);
  }

  /** The same for one stretch of content. */
  lemma DarkAtFirst(s: Stage, content: seq<Point>, park: Point, delay: nat, i: nat)
    requires AllBlack(s.carry) && i < |content|
    ensures var out := Presented(s, content, true, park, delay)[i];
            && out.color == (if i < delay + s.blankLeft then BLACK else content[i - delay].color)
            && out.x == content[i].x && out.y == content[i].y
  {
    PresentedColor(s, content, true, park, delay, i);
    PresentedPlace(s, content, true, park, delay, i);
    if i < delay {
      BlackResized(s.carry, delay);
    }
  }

  lemma BlackResized(queue: seq<Color>, delay: nat)
    requires AllBlack(queue)
    ensures AllBlack(Resized(queue, delay))
  {
  }

  /** Blanking and delaying armed content leaves every point in its place. */
  lemma PresentedPlace(s: Stage, chunk: seq<Point>, armed: bool, park: Point, delay: nat, i: nat)
    requires i < |chunk|
    ensures var out, blanked := Presented(s, chunk, armed, park, delay)[i], BlankedChunk(chunk, armed, s.blankLeft, park)[i];
            out.x == blanked.x && out.y == blanked.y
  {
  }

  /** How many colours of a sequence light the laser. */
  function LitCount(colors: seq<Color>): nat {
    if colors == [] then 0
    else LitCount(colors[..|colors| - 1]) + (if colors[|colors| - 1] == BLACK then 0 else 1)
  }

  lemma {:induction false} LitCountOfBlack(colors: seq<Color>)
    ensures AllBlack(colors) <==> LitCount(colors) == 0
    decreases |colors|
  {
    if colors != [] {
      var rest := colors[..|colors| - 1];
      LitCountOfBlack(rest);
      assert AllBlack(colors) <==> AllBlack(rest) && colors[|colors| - 1] == BLACK;
    }
  }

  lemma {:induction false} LitCountSplits(a: seq<Color>, b: seq<Color>)
    ensures LitCount(a + b) == LitCount(a) + LitCount(b)
    decreases |b|
  {
    if b == [] {
      assert a + b == a;
    } else {
      LitCountSplits(a, b[..|b| - 1]);
      assert (a + b)[..|a + b| - 1] == a + b[..|b| - 1];
    }
  }

  /** Disarmed with a carry that was not reset: what is lit are carried colours, so
      over any run of chunks, at most as many points as there are lit ones among them. */
  lemma DisarmedLitBound(s: Stage, chunks: seq<seq<Point>>, park: Point, delay: nat)
    requires Dark(park)
    ensures LitCount(Colors(PresentedAll(s, chunks, false, park, delay))) <= LitCount(s.carry)
  {
    ChunkingIsInvisible(s, chunks, false, park, delay);
    var n := |Flat(chunks)|;
    var queue, black := Waiting(s, delay), Colors(Repeat(park, n));
    var stream := queue + black;
    QueueSplits(queue, black);
    LitCountSplits(queue, black);
    LitCountOfBlack(black);
    assert stream == stream[..n] + stream[n..];
    LitCountSplits(stream[..n], stream[n..]);
    ResizedLit(s.carry, delay);
  }

  lemma ResizedLit(queue: seq<Color>, delay: nat)
    ensures LitCount(Resized(queue, delay)) <= LitCount(queue)
  {
    if delay >= |queue| {
      var pad := Repeat(BLACK, delay - |queue|);
      LitCountSplits(pad, queue);
      LitCountOfBlack(pad);
    } else {
      var cut := |queue| - delay;
      assert queue == queue[..cut] + queue[cut..];
      LitCountSplits(queue[..cut], queue[cut..]);
    }
  }

  /** Disarmed after the carry was reset: only dark points, and the carry stays clean
      at whatever delay comes next, ready for the next arm. */
  lemma DisarmedStaysDark(s: Stage, chunk: seq<Point>, park: Point, delay: nat)
    requires Dark(park) && AllBlack(s.carry)
    ensures AllBlack(Colors(Presented(s, chunk, false, park, delay)))
    ensures AllBlack(NextStage(s, chunk, false, park, delay).carry)
  {
    var queue, black := Waiting(s, delay), Colors(Repeat(park, |chunk|));
    QueueSplits(queue, black);
    assert AllBlack(queue + black);
    forall i | 0 <= i < |chunk|
      ensures Colors(Presented(s, chunk, false, park, delay))[i] == BLACK
    {
      PresentedColor(s, chunk, false, park, delay, i);
    }
  }

  /** The stage after disarmed chunks, each at its own delay. */
  function AfterDisarmed(s: Stage, chunks: seq<seq<Point>>, delays: seq<nat>, park: Point): Stage
    requires |delays| == |chunks|
    decreases |chunks|
  {
    if chunks == [] then s
    else AfterDisarmed(NextStage(s, chunks[0], false, park, delays[0]), chunks[1..], delays[1..], park)
  }

  lemma {:induction false} CarryStaysClean(s: Stage, chunks: seq<seq<Point>>, delays: seq<nat>, park: Point)
    requires |delays| == |chunks| && Dark(park) && AllBlack(s.carry)
    ensures AllBlack(AfterDisarmed(s, chunks, delays, park).carry)
    decreases |chunks|
  {
    if chunks != [] {
      DisarmedStaysDark(s, chunks[0], park, delays[0]);
      CarryStaysClean(NextStage(s, chunks[0], false, park, delays[0]), chunks[1..], delays[1..], park);
    }
  }

  /** From a disarm to the next arm and beyond: whatever the carry held before the
      disarm, and however many disarmed chunks follow it, the first `delay + k` points
      after arming with a startup blank of `k` are dark. */
  lemma DarkFromDisarmToArm(before: Stage, disarmed: seq<seq<Point>>, delays: seq<nat>, k: nat,
                            armed: seq<seq<Point>>, park: Point, delay: nat, i: nat)
    requires |delays| == |disarmed| && Dark(park)
    requires i < |Flat(armed)| && i < delay + k
    ensures var cleaned := before.(carry := Repeat(BLACK, |before.carry|));
            var atArm := AfterDisarmed(cleaned, disarmed, delays, park).(blankLeft := k);
            var out := PresentedAll(atArm, armed, true, park, delay);
            i < |out| && Dark(out[i])
  {
    var cleaned := before.(carry := Repeat(BLACK, |before.carry|));
    CarryStaysClean(cleaned, disarmed, delays, park);
    DarkStart(AfterDisarmed(cleaned, disarmed, delays, park).(blankLeft := k), armed, park, delay, i);
  }
}
