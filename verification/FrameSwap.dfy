/** Frame-swap delivery: whole hardware frames, composed and fitted to the device.

    The functions here say what a composed frame is without the step-by-step
    trimming the engine does, and relate it to what FIFO delivery emits. */
module FrameSwap {
  import opened Points
  import opened FifoMachine

  /** The fields that frame-swap delivery reads or writes. */
  datatype Swap = Swap(
    current: Option<Frame>,
    pending: Option<Frame>,
    drawable: seq<Point>,
    dirty: bool,
    composedPps: Option<nat>)

  const NEW_SWAP := Swap(None, None, [], true, None)

  /** Latest wins; the first frame of all becomes current at once. */
  function Submitted(s: Swap, frame: Frame): Swap {
    if s.current.None? then s.(current := Some(frame), dirty := true) else s.(pending := Some(frame))
  }

  /** A generated prefix followed by authored points. */
  datatype Parts = Parts(prefix: seq<Point>, authored: seq<Point>)

  /** The parts fitted to a capacity: the prefix gives way first, from its front,
      and authored points are cut, from their end, only once it is gone. */
  function Fit(parts: Parts, capacity: Option<nat>): seq<Point> {
    if capacity.None? then parts.prefix + parts.authored
    else if |parts.authored| >= capacity.value then parts.authored[..capacity.value]
    else
      var room := Min(|parts.prefix|, capacity.value - |parts.authored|);
      parts.prefix[|parts.prefix| - room..] + parts.authored
  }

  /** The frame that changes over to `to`; an empty one clears the display. */
  function ChangeParts(c: Config, from: seq<Point>, to: Frame): Parts {
    if to == [] then Parts([], [c.idle])
    else
      match PlanBetween(c, from, to)
      case Transition(points) => Parts(points, to)
      case Coalesce => Parts([], to[CursorAfterCoalesce(to)..])
  }

  /** The frame that loops by itself; coalescing leaves the last point out. */
  function LoopParts(c: Config, frame: Frame): Parts
    requires frame != []
  {
    match PlanBetween(c, frame, frame)
    case Transition(points) => Parts(points, frame)
    case Coalesce => Parts([], frame[..|frame| - CursorAfterCoalesce(frame)])
  }

  /** The self-loop frame of whatever is current. */
  function LoopFrame(c: Config, current: Option<Frame>, capacity: Option<nat>): seq<Point> {
    if current.None? then []
    else if current.value == [] then [c.idle]
    else Fit(LoopParts(c, current.value), capacity)
  }

  /** The next call has to compose: a frame waits, or the cached one is out of date. */
  predicate MustCompose(c: Config, s: Swap) {
    s.pending.Some? || s.dirty || s.composedPps != Some(c.pps)
  }

  /** One call of `compose_hardware_frame`; `drawable` is the frame it returns. */
  function Compose(c: Config, s: Swap, capacity: Option<nat>): Swap {
    if s.pending.Some? then
      Swap(s.pending, None,
           Fit(ChangeParts(c, PointsOf(s.current), s.pending.value), capacity),
           true, Some(c.pps))
    else if MustCompose(c, s) then
      Swap(s.current, None, LoopFrame(c, s.current, capacity), false, Some(c.pps))
    else s
  }

  /** A cached frame is the one that composing afresh would give. */
  predicate Coherent(t: TransitionFn, idle: Point, s: Swap, capacity: Option<nat>) {
    !s.dirty && s.composedPps.Some? ==>
      s.drawable == LoopFrame(Config(t, idle, s.composedPps.value), s.current, capacity)
  }

  /** Composing keeps the cache coherent, and with no frame waiting the result is
      always the self-loop frame for the rate of this call. */
  lemma ComposeIsCoherent(c: Config, s: Swap, capacity: Option<nat>)
    requires Coherent(c.transition, c.idle, s, capacity)
    ensures Coherent(c.transition, c.idle, Compose(c, s, capacity), capacity)
    ensures s.pending.None? ==>
              Compose(c, s, capacity).drawable == LoopFrame(c, s.current, capacity)
  {
    if !MustCompose(c, s) {
      assert Config(c.transition, c.idle, s.composedPps.value) == c;
    }
  }

  /** Fitting never exceeds the capacity, changes nothing that fits already, and
      loses authored points only when they alone are too many. */
  lemma FitRespectsCapacity(parts: Parts, capacity: nat)
    ensures |Fit(parts, Some(capacity))| == Min(|parts.prefix| + |parts.authored|, capacity)
    ensures |parts.authored| <= capacity ==>
              exists cut :: 0 <= cut <= |parts.prefix|
                         && Fit(parts, Some(capacity)) == parts.prefix[cut..] + parts.authored
    ensures |parts.authored| > capacity ==>
              Fit(parts, Some(capacity)) == parts.authored[..capacity]
    ensures |parts.prefix| + |parts.authored| <= capacity ==>
              Fit(parts, Some(capacity)) == Fit(parts, None)
  {
    var fitted := Fit(parts, Some(capacity));
    if |parts.authored| == capacity {
      assert fitted == parts.prefix[|parts.prefix|..] + parts.authored;
    } else if |parts.authored| < capacity {
      var room := Min(|parts.prefix|, capacity - |parts.authored|);
      var cut := |parts.prefix| - room;
      assert 0 <= cut <= |parts.prefix| && fitted == parts.prefix[cut..] + parts.authored;
    }
  }

  // ---- Agreement with FIFO delivery ------------------------------------------

  /** FIFO delivery has just gone round its current frame and nothing waits. */
  predicate AtLoopSeam(c: Config, s: State) {
    && Ready(s) && s.drawable != [] && s.pending.None?
    && (match PlanBetween(c, s.drawable, s.drawable)
        case Transition(points) =>
          s.block == points && s.blockCursor == 0 && s.selfLoop && s.cursor == 0
        case Coalesce =>
          s.blockCursor == |s.block| && s.cursor == CursorAfterCoalesce(s.drawable))
  }

  /** What FIFO delivery emits between two such seams. */
  function LoopPeriod(c: Config, frame: Frame): (period: seq<Point>)
    requires frame != []
    ensures period != []
  {
    match PlanBetween(c, frame, frame)
    case Transition(points) => points + frame
    case Coalesce => frame[CursorAfterCoalesce(frame)..]
  }

  function Copies(xs: seq<Point>, k: nat): seq<Point> {
    if k == 0 then [] else xs + Copies(xs, k - 1)
  }

  /** One period returns FIFO delivery to the seam it started from. */
  lemma OnePeriod(c: Config, s: State)
    requires AtLoopSeam(c, s)
    ensures var period := LoopPeriod(c, s.drawable);
            After(c, s, |period|) == s && Emitted(c, s, |period|) == period
  {
    match PlanBetween(c, s.drawable, s.drawable)
    case Transition(points) =>
      RunBlock(c, s, |points|);
      var drained := s.(blockCursor := |points|);
      RunStretch(c, drained, |s.drawable|);
      RunSplits(c, s, |points|, |s.drawable|);
      assert AfterStretch(c, drained, |s.drawable|) == s;
      assert points[0..0 + |points|] == points;
      assert s.drawable[0..|s.drawable|] == s.drawable;
    case Coalesce =>
      var n := |s.drawable| - s.cursor;
      RunStretch(c, s, n);
      assert AfterStretch(c, s, n) == s;
      assert s.drawable[s.cursor..s.cursor + n] == s.drawable[s.cursor..];
  }

  /** `k` periods of FIFO delivery are `k` copies of the period. */
  lemma {:induction false} FifoLoops(c: Config, s: State, k: nat)
    requires AtLoopSeam(c, s)
    ensures var period := LoopPeriod(c, s.drawable);
            && After(c, s, k * |period|) == s
            && Emitted(c, s, k * |period|) == Copies(period, k)
    decreases k
  {
    var period := LoopPeriod(c, s.drawable);
    if k > 0 {
      OnePeriod(c, s);
      FifoLoops(c, s, k - 1);
      RunSplits(c, s, |period|, (k - 1) * |period|);
      assert |period| + (k - 1) * |period| == k * |period|;
    }
  }

  /** Steady state, seam kept: `k` FIFO periods are `k` copies of the hardware frame. */
  lemma FifoEqualsFrameSwap(c: Config, s: State, k: nat)
    requires AtLoopSeam(c, s) && PlanBetween(c, s.drawable, s.drawable).Transition?
    ensures var hardware := LoopFrame(c, s.current, None);
            Emitted(c, s, k * |hardware|) == Copies(hardware, k)
  {
    FifoLoops(c, s, k);
  }

  /** `xs` turned left by `shift` places is `ys`. */
  predicate Rotates(xs: seq<Point>, shift: nat, ys: seq<Point>) {
    shift <= |xs| && ys == xs[shift..] + xs[..shift]
  }

  lemma RotationKeepsContents(xs: seq<Point>, shift: nat, ys: seq<Point>)
    requires Rotates(xs, shift, ys)
    ensures multiset(xs) == multiset(ys)
  {
    assert xs == xs[..shift] + xs[shift..];
  }

  /** Without its last point a frame turns into itself without its first exactly when the
      two are equal. */
  lemma RotatesExactly(frame: Frame, front: seq<Point>, back: seq<Point>)
    requires |frame| > 1 && front == frame[..|frame| - 1] && back == frame[1..]
    ensures (exists shift :: Rotates(front, shift, back)) <==> frame[0] == frame[|frame| - 1]
  {
    if frame[0] == frame[|frame| - 1] {
      assert back == front[1..] + front[..1];
      assert Rotates(front, 1, back);
    }
    forall shift | Rotates(front, shift, back)
      ensures frame[0] == frame[|frame| - 1]
    {
      RotationKeepsContents(front, shift, back);
      EndsDiffer(frame);
    }
  }

  /** What either delivery shows of a frame whose seam is coalesced. */
  lemma CoalescedShapes(c: Config, s: State)
    requires AtLoopSeam(c, s) && PlanBetween(c, s.drawable, s.drawable).Coalesce?
    ensures var k := CursorAfterCoalesce(s.drawable);
            && LoopFrame(c, s.current, None) == s.drawable[..|s.drawable| - k]
            && Emitted(c, s, |s.drawable| - k) == s.drawable[k..]
  {
    OnePeriod(c, s);
    var authored := LoopParts(c, s.drawable).authored;
    assert Fit(Parts([], authored), None) == [] + authored == authored;
  }

  /** Steady state, seam coalesced: one FIFO period is a rotation of the hardware
      frame exactly when the frame ends where it starts. */
  lemma FifoRotatesFrameSwapExactly(c: Config, s: State)
    requires AtLoopSeam(c, s) && PlanBetween(c, s.drawable, s.drawable).Coalesce?
    ensures var hardware := LoopFrame(c, s.current, None);
            (exists shift :: Rotates(hardware, shift, Emitted(c, s, |hardware|))) <==>
              s.drawable[0] == s.drawable[|s.drawable| - 1]
  {
    CoalescedShapes(c, s);
    var hardware := LoopFrame(c, s.current, None);
    if |s.drawable| == 1 {
      assert Rotates(hardware, 0, Emitted(c, s, |hardware|));
    } else {
      RotatesExactly(s.drawable, hardware, Emitted(c, s, |hardware|));
    }
  }

  /** Dropping the first or the last element leaves the same contents only when
      the two are equal. */
  lemma EndsDiffer(frame: Frame)
    requires |frame| > 1 && multiset(frame[..|frame| - 1]) == multiset(frame[1..])
    ensures frame[0] == frame[|frame| - 1]
  {
    var n := |frame|;
    assert frame == frame[..n - 1] + [frame[n - 1]];
    assert frame == [frame[0]] + frame[1..];
    assert multiset(frame) == multiset(frame[..n - 1]) + multiset{frame[n - 1]};
    assert multiset(frame) == multiset{frame[0]} + multiset(frame[1..]);
    var first := frame[0];
    assert multiset(frame)[first] == multiset(frame[..n - 1])[first] + multiset{frame[n - 1]}[first];
    assert multiset(frame)[first] == multiset{first}[first] + multiset(frame[1..])[first];
  }
}
