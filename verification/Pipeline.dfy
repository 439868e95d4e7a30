/** The slice pipeline: engine, blanking, colour delay and the cache of the slice
    that has not been written yet. No output filter is installed. */
module Pipeline {
  import opened Points
  import opened FifoMachine
  import FrameSwap
  import opened Engine
  import opened ColorDelay
  import opened OutputStage

  datatype IdlePolicy = RepeatLast | Blank | Park(x: real, y: real) | Stop

  /** The blank point a policy parks at. */
  function ParkPoint(policy: IdlePolicy): (p: Point)
    ensures Dark(p)
    ensures if policy.Park? then p.x == policy.x && p.y == policy.y else p.x == 0.0 && p.y == 0.0
  {
    match policy
    case Park(x, y) => Blanked(x, y)
    case _ => Blanked(0.0, 0.0)
  }

  /** Disarmed, once no lit colour waits in the delay line, every point of every chunk is the
      policy's own: dark, and at the place it names or else at the centre. */
  lemma DisarmedIsParked(policy: IdlePolicy, s: Stage, chunk: seq<Point>, delay: nat, i: nat)
    requires AllBlack(s.carry) && i < |chunk|
    ensures var out := Presented(s, chunk, false, ParkPoint(policy), delay)[i];
            && Dark(out)
            && out.x == (if policy.Park? then policy.x else 0.0)
            && out.y == (if policy.Park? then policy.y else 0.0)
  {
    PresentedPlace(s, chunk, false, ParkPoint(policy), delay, i);
    DisarmedStaysDark(s, chunk, ParkPoint(policy), delay);
    assert Colors(Presented(s, chunk, false, ParkPoint(policy), delay))[i] == BLACK;
  }

  class SlicePipeline {
    const engine: PresentationEngine
    const colorDelay: ColorDelayLine
    const idlePolicy: IdlePolicy
    const startupBlank: nat
    /** Desired delay; quantized only when fresh output is produced. */
    var colorDelayNanos: nat
    var buf: array<Point>
    var cachedLen: nat
    var cached: bool
    var startupBlankRemaining: nat
    var lastPendingFrame: Option<Frame>

    ghost predicate Valid()
      reads this, colorDelay
    {
      colorDelay.Valid() && cachedLen <= buf.Length
    }

    /** What the stage carries between chunks. */
    function Stage(): Stage
      reads this, colorDelay
    {
      OutputStage.Stage(startupBlankRemaining, colorDelay.carry)
    }

    constructor (engine: PresentationEngine, colorDelayNanos: nat, policy: IdlePolicy,
                 bufCapacity: nat, startupBlank: nat)
      modifies engine
      ensures Valid() && this.engine == engine && fresh(colorDelay) && fresh(buf)
      ensures idlePolicy == policy && this.startupBlank == startupBlank
      ensures this.colorDelayNanos == colorDelayNanos
      ensures Stage() == OutputStage.Stage(0, []) && !cached && lastPendingFrame == None
      ensures engine.state == old(engine.state) && engine.capacity == old(engine.capacity)
      ensures engine.idle == if policy.Park? then ParkPoint(policy) else old(engine.idle)
    {
      this.engine := engine;
      idlePolicy := policy;
      this.startupBlank := startupBlank;
      this.colorDelayNanos := colorDelayNanos;
      colorDelay := new ColorDelayLine(0);
      buf := new Point[bufCapacity](_ => Blanked(0.0, 0.0));
      cachedLen := 0;
      cached := false;
      startupBlankRemaining := 0;
      lastPendingFrame := None;
      new;
      if policy.Park? {
        engine.SetIdleBlankPoint(Blanked(policy.x, policy.y));
      }
    }

    method SetPending(frame: Frame)
      modifies this`lastPendingFrame, engine
      ensures lastPendingFrame == Some(frame)
      ensures engine.state == Submit(old(engine.state), frame)
      ensures old(WellFormed(engine.state)) ==> WellFormed(engine.state)
      ensures engine.idle == old(engine.idle) && engine.capacity == old(engine.capacity)
    {
      lastPendingFrame := Some(frame);
      engine.SetPending(frame);
    }

    method SetColorDelay(nanos: nat)
      modifies this`colorDelayNanos
      ensures colorDelayNanos == nanos
    {
      colorDelayNanos := nanos;
    }

    method ArmStartupBlank(pps: nat)
      modifies this`startupBlankRemaining
      ensures startupBlankRemaining == DurationToPoints(startupBlank, pps)
    {
      startupBlankRemaining := DurationToPoints(startupBlank, pps);
    }

    /** Disarming forgets the carried colours. */
    method OnDisarm()
      requires Valid()
      modifies colorDelay
      ensures Valid() && AllBlack(colorDelay.carry) && colorDelay.delay == old(colorDelay.delay)
    {
      colorDelay.Reset();
    }

    method Invalidate()
      modifies this`cached, this`cachedLen
      ensures !cached && cachedLen == 0
    {
      cached := false;
      cachedLen := 0;
    }

    /** The slice to retry verbatim, if one was produced and not yet written. */
    function CachedSlice(): Option<seq<Point>>
      requires cachedLen <= buf.Length
      reads this, buf
    {
      if cached then Some(buf[..cachedLen]) else None
    }

    method ReserveBuf(n: nat)
      modifies this`buf
      ensures n <= buf.Length && (buf == old(buf) || fresh(buf))
      ensures old(buf.Length) <= buf.Length && buf[..old(buf.Length)] == old(buf[..])
    {
      if buf.Length < n {
        var was := buf;
        buf := new Point[n](i requires 0 <= i < n reads was =>
                              if i < was.Length then was[i] else Blanked(0.0, 0.0));
      }
    }

    /** Blank the working buffer in place while disarmed, or for what is left of the
        startup blank. */
    method ApplyBlanking(armed: bool, n: nat)
      requires n <= buf.Length
      modifies this`startupBlankRemaining, buf
      ensures buf[..n] == BlankedChunk(old(buf[..n]), armed, old(startupBlankRemaining),
                                       ParkPoint(idlePolicy))
      ensures buf[n..] == old(buf[n..])
      ensures startupBlankRemaining == BlankLeft(old(startupBlankRemaining), armed, n)
    {
      if !armed {
        forall i | 0 <= i < n {
          buf[i] := ParkPoint(idlePolicy);
        }
      } else if startupBlankRemaining > 0 {
        var count := if n <= startupBlankRemaining then n else startupBlankRemaining;
        var i := 0;
        while i < count
          modifies buf
          invariant i <= count
          invariant forall k :: 0 <= k < i ==> buf[k] == Blanked(old(buf[k].x), old(buf[k].y))
          invariant forall k :: i <= k < buf.Length ==> buf[k] == old(buf[k])
        {
          buf[i] := Blanked(buf[i].x, buf[i].y);
          i := i + 1;
        }
        assert buf[..n] == BlankPrefix(old(buf[..n]), startupBlankRemaining);
        startupBlankRemaining := startupBlankRemaining - count;
      } else {
        assert buf[..n] == BlankPrefix(buf[..n], 0);
      }
    }

    /** Blank and delay the first `n` points of the buffer, and cache them. */
    method Finish(n: nat, pps: nat, armed: bool) returns (slice: seq<Point>)
      requires Valid() && 0 < n <= buf.Length
      modifies this`startupBlankRemaining, this`cached, this`cachedLen, colorDelay, buf
      ensures Valid() && CachedSlice() == Some(slice)
      ensures slice == Presented(old(Stage()), old(buf[..n]), armed, ParkPoint(idlePolicy),
                                 DurationToPoints(colorDelayNanos, pps))
      ensures Stage() == NextStage(old(Stage()), old(buf[..n]), armed, ParkPoint(idlePolicy),
                                   DurationToPoints(colorDelayNanos, pps))
    {
      var delay := DurationToPoints(colorDelayNanos, pps);
      ghost var blanked := BlankedChunk(buf[..n], armed, startupBlankRemaining, ParkPoint(idlePolicy));
      ghost var waiting := Waiting(Stage(), delay);
      ApplyBlanking(armed, n);
      colorDelay.Resize(delay);
      assert buf[..n] == blanked && colorDelay.carry == waiting;
      colorDelay.Apply(buf, n);
      assert buf[..n] == Delayed(waiting, blanked) && colorDelay.carry == Left(waiting, Colors(blanked));
      cachedLen := n;
      cached := true;
      slice := buf[..n];
    }

    /** A fresh FIFO chunk: exactly what the engine emits next, through the stage. */
    method ProduceFifoChunk(target: nat, pps: nat, armed: bool) returns (slice: seq<Point>)
      requires Valid() && WellFormed(engine.state)
      modifies this, engine, colorDelay, buf
      ensures Valid() && (buf == old(buf) || fresh(buf))
      ensures engine.state == FillState(engine.Setup(pps), old(engine.state), target)
      ensures WellFormed(engine.state) && engine.idle == old(engine.idle)
      ensures colorDelayNanos == old(colorDelayNanos) && lastPendingFrame == old(lastPendingFrame)
      ensures target == 0 ==> slice == [] && CachedSlice() == None && Stage() == old(Stage())
      ensures target > 0 ==> CachedSlice() == Some(slice)
      ensures var content := FillPoints(engine.Setup(pps), old(engine.state), target);
              var delay := DurationToPoints(colorDelayNanos, pps);
              target > 0 ==>
                && slice == Presented(old(Stage()), content, armed, ParkPoint(idlePolicy), delay)
                && Stage() == NextStage(old(Stage()), content, armed, ParkPoint(idlePolicy), delay)
    {
      ReserveBuf(target);
      var n := engine.FillChunk(buf, target, pps);
      if n == 0 {
        Invalidate();
        return [];
      }
      slice := Finish(n, pps, armed);
    }

    /** A fresh hardware frame through the stage; nothing before the first frame. */
    method ProduceFrameSwap(pps: nat, armed: bool) returns (slice: seq<Point>)
      requires Valid()
      modifies this, engine, colorDelay, buf
      ensures Valid() && (buf == old(buf) || fresh(buf))
      ensures engine.SwapState() == FrameSwap.Compose(engine.Setup(pps), old(engine.SwapState()), engine.capacity)
      ensures colorDelayNanos == old(colorDelayNanos) && lastPendingFrame == old(lastPendingFrame)
      ensures var content := engine.state.drawable;
              var delay := DurationToPoints(colorDelayNanos, pps);
              if content == [] then slice == [] && CachedSlice() == None
              else
                && CachedSlice() == Some(slice)
                && slice == Presented(old(Stage()), content, armed, ParkPoint(idlePolicy), delay)
                && Stage() == NextStage(old(Stage()), content, armed, ParkPoint(idlePolicy), delay)
    {
      var composed := engine.ComposeHardwareFrame(pps);
      if composed == [] {
        Invalidate();
        return [];
      }
      ReserveBuf(|composed|);
      forall i | 0 <= i < |composed| {
        buf[i] := composed[i];
      }
      assert buf[..|composed|] == composed;
      slice := Finish(|composed|, pps, armed);
    }

    /** After a reconnect the engine starts over with the most recent frame, the
        carried colours are forgotten and nothing is cached. */
    method ReplayAfterReconnect()
      requires Valid()
      modifies this, engine, colorDelay
      ensures Valid() && AllBlack(colorDelay.carry) && CachedSlice() == None
      ensures buf == old(buf) && lastPendingFrame == old(lastPendingFrame)
      ensures engine.state == if lastPendingFrame.Some?
                              then Submit(NEW_STATE, lastPendingFrame.value) else NEW_STATE
      ensures WellFormed(engine.state)
      ensures startupBlankRemaining == old(startupBlankRemaining)
    {
      engine.Reset();
      Invalidate();
      colorDelay.Reset();
      if lastPendingFrame.Some? {
        engine.SetPending(lastPendingFrame.value);
      }
    }
  }
}
