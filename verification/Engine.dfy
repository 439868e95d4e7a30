/** The presentation engine itself: state updated in place, batch copies into the
    caller's buffer, one while loop.

    FIFO delivery is tied to the one-point machine of `FifoMachine`, frame-swap
    delivery to the composition functions of `FrameSwap`. */
module Engine {
  import opened Points
  import opened FifoMachine
  import opened FrameSwap

  class PresentationEngine {
    const transitionFn: TransitionFn
    /** Current and pending frame, drawable, cursors and transition block. */
    var state: State
    /** Length of the transition prefix in the last composed hardware frame. */
    var prefixLen: nat
    /** Rate the cached hardware frame was composed for. */
    var composedPps: Option<nat>
    /** Most points the hardware takes in one frame. */
    var capacity: Option<nat>
    /** Point held while there is nothing to draw. */
    var idle: Point

    function Setup(pps: nat): Config
      reads this`idle
    {
      Config(transitionFn, idle, pps)
    }

    /** What frame-swap delivery works on. */
    function SwapState(): Swap
      reads this
    {
      Swap(state.current, state.pending, state.drawable, state.dirty, composedPps)
    }

    constructor (transitionFn: TransitionFn)
      ensures this.transitionFn == transitionFn
      ensures state == NEW_STATE && prefixLen == 0 && composedPps == None
      ensures capacity == None && idle == Blanked(0.0, 0.0)
    {
      this.transitionFn := transitionFn;
      state := NEW_STATE;
      prefixLen := 0;
      composedPps := None;
      capacity := None;
      idle := Blanked(0.0, 0.0);
    }

    method SetFrameCapacity(cap: Option<nat>)
      modifies this`capacity
      ensures capacity == cap
    {
      capacity := cap;
    }

    method SetIdleBlankPoint(point: Point)
      modifies this`idle
      ensures idle == point
    {
      idle := point;
    }

    /** Back to a new engine; the capacity and the idle point survive. */
    method Reset()
      modifies this`state, this`prefixLen, this`composedPps
      ensures state == NEW_STATE && prefixLen == 0 && composedPps == None
      ensures SwapState() == NEW_SWAP
    {
      state := NEW_STATE;
      prefixLen := 0;
      composedPps := None;
    }

    /** Latest wins; the first frame of all becomes current at once. */
    method SetPending(frame: Frame)
      modifies this`state
      ensures state == Submit(old(state), frame)
      ensures SwapState() == Submitted(old(SwapState()), frame)
      ensures old(WellFormed(state)) ==> WellFormed(state)
    {
      if state.current.None? {
        state := state.(current := Some(frame), dirty := true, cursor := 0);
      } else {
        state := state.(pending := Some(frame));
      }
    }

    /** FIFO delivery. The batch loop emits exactly the points, and ends in exactly
        the state, of that many single-point steps; it always fills the request. */
    method FillChunk(buffer: array<Point>, maxPoints: nat, pps: nat) returns (written: nat)
      requires WellFormed(state)
      modifies this`state, buffer
      ensures written == Min(maxPoints, buffer.Length)
      ensures state == FillState(Setup(pps), old(state), written)
      ensures buffer[..written] == FillPoints(Setup(pps), old(state), written)
      ensures buffer[written..] == old(buffer[written..])
      ensures WellFormed(state)
    {
      var limit := if maxPoints <= buffer.Length then maxPoints else buffer.Length;
      if state.dirty {
        RefreshDrawable();
      }
      ghost var batch;
      written, batch := RunBatch(buffer, limit, pps);
      if state.drawable == [] {
        IdleBatch(Setup(pps), batch, limit);
        FillIdle(buffer, written, limit);
        written := limit;
      } else {
        FullBatch(Setup(pps), batch, limit);
      }
    }

    /** The batch loop, until the request is filled or there is nothing to draw. */
    method RunBatch(buffer: array<Point>, limit: nat, pps: nat)
      returns (written: nat, ghost batch: Batch)
      requires Ready(state) && limit <= buffer.Length
      modifies this`state, buffer
      ensures written <= limit && (written == limit || state.drawable == [])
      ensures batch.First() == old(state) && batch.Last() == state
      ensures batch.Points() == buffer[..written] && batch.Legal(Setup(pps), limit)
      ensures buffer[limit..] == old(buffer[limit..])
    {
      batch := Start(state);
      written := 0;
      while written < limit && state.drawable != []
        invariant written <= limit <= buffer.Length
        invariant batch.First() == old(state) && batch.Last() == state
        invariant batch.Points() == buffer[..written] && batch.Legal(Setup(pps), limit)
        invariant Ready(state)
        invariant buffer[limit..] == old(buffer[limit..])
        decreases limit - written, if state.pending.Some? then 1 else 0
      {
        var piece := Advance(buffer, written, limit, pps);
        batch := Then(batch, state, piece);
        written := written + |piece|;
      }
    }

    /** One iteration of the batch loop: drop a stale self-loop block, or drain a
        transition block, or draw a stretch of the frame and cross its seam. */
    method Advance(buffer: array<Point>, written: nat, limit: nat, pps: nat)
      returns (piece: seq<Point>)
      requires Ready(state) && state.drawable != [] && written < limit <= buffer.Length
      modifies this`state, buffer
      ensures written + |piece| <= limit
      ensures Moves(Setup(pps), old(state), state, piece) && Ready(state)
      ensures buffer[..written + |piece|] == old(buffer[..written]) + piece
      ensures buffer[limit..] == old(buffer[limit..])
    {
      if state.blockCursor < |state.block| {
        if state.selfLoop && state.pending.Some? && state.blockCursor == 0 {
          DropStaleKeepsReady(Setup(pps), state);
          state := state.(block := [], selfLoop := false);
          PromotePending(pps);
          return [];
        }
        piece := DrainBlock(buffer, written, limit);
      } else {
        piece := DrawFrame(buffer, written, limit, pps);
      }
    }

    method DrainBlock(buffer: array<Point>, written: nat, limit: nat) returns (piece: seq<Point>)
      requires state.blockCursor < |state.block| && written < limit <= buffer.Length
      modifies this`state, buffer
      ensures 0 < |piece| <= old(|state.block| - state.blockCursor) && written + |piece| <= limit
      ensures piece == old(state.block)[old(state.blockCursor)..old(state.blockCursor) + |piece|]
      ensures state == old(state).(blockCursor := old(state.blockCursor) + |piece|)
      ensures buffer[..written + |piece|] == old(buffer[..written]) + piece
      ensures buffer[limit..] == old(buffer[limit..])
    {
      piece := state.block[state.blockCursor..];
      piece := piece[..if |piece| <= limit - written then |piece| else limit - written];
      CopyOut(buffer, written, limit, piece);
      state := state.(blockCursor := state.blockCursor + |piece|);
    }

    method DrawFrame(buffer: array<Point>, written: nat, limit: nat, pps: nat)
      returns (piece: seq<Point>)
      requires Ready(state) && state.drawable != [] && written < limit <= buffer.Length
      requires state.blockCursor == |state.block|
      modifies this`state, buffer
      ensures 0 < |piece| <= old(|state.drawable| - state.cursor) && written + |piece| <= limit
      ensures piece == old(state.drawable)[old(state.cursor)..old(state.cursor) + |piece|]
      ensures state == AfterStretch(Setup(pps), old(state), |piece|) && Ready(state)
      ensures buffer[..written + |piece|] == old(buffer[..written]) + piece
      ensures buffer[limit..] == old(buffer[limit..])
    {
      piece := state.drawable[state.cursor..];
      piece := piece[..if |piece| <= limit - written then |piece| else limit - written];
      StretchKeepsReady(Setup(pps), state, |piece|);
      CopyOut(buffer, written, limit, piece);
      state := state.(cursor := state.cursor + |piece|);
      if state.cursor >= |state.drawable| {
        CrossSeam(pps);
      }
    }

    /** Compute the seam dynamically: against what is pending, or against itself. */
    method CrossSeam(pps: nat)
      requires state.drawable != [] && !state.dirty && Some(state.drawable) == state.current
      modifies this`state
      ensures state == Seam(Setup(pps), old(state))
    {
      if state.pending.Some? {
        PromotePending(pps);
      } else {
        var last, first := state.drawable[|state.drawable| - 1], state.drawable[0];
        match transitionFn(last, first, pps)
        case Transition(points) =>
          state := state.(block := points, blockCursor := 0, selfLoop := true, cursor := 0);
        case Coalesce =>
          state := state.(cursor := if |state.drawable| > 1 then 1 else 0);
      }
    }

    method PromotePending(pps: nat)
      requires state.pending.Some?
      modifies this`state
      ensures state == Promote(Setup(pps), old(state))
    {
      var pending := state.pending.value;
      var plan := Transition([]);
      if state.current.Some? && state.current.value != [] && pending != [] {
        plan := transitionFn(state.current.value[|state.current.value| - 1], pending[0], pps);
      }
      state := state.(current := Some(pending), pending := None);
      RefreshDrawable();
      match plan
      case Transition(points) =>
        state := state.(block := points, blockCursor := 0, selfLoop := false, cursor := 0);
      case Coalesce =>
        state := state.(cursor := if |state.drawable| > 1 then 1 else 0);
    }

    method RefreshDrawable()
      modifies this`state
      ensures state == old(state).(drawable := PointsOf(old(state).current), dirty := false)
    {
      state := state.(drawable := [], dirty := false);
      if state.current.Some? && state.current.value != [] {
        state := state.(drawable := state.current.value);
      }
    }

    /** `buffer[from..to].fill(idle)` */
    method FillIdle(buffer: array<Point>, from: nat, to: nat)
      requires from <= to <= buffer.Length
      modifies buffer
      ensures buffer[..to] == old(buffer[..from]) + Repeat(idle, to - from)
      ensures buffer[to..] == old(buffer[to..])
    {
      forall i | from <= i < to {
        buffer[i] := idle;
      }
    }

    /** Copy `points` into the buffer from `at` on. */
    method CopyOut(buffer: array<Point>, at: nat, limit: nat, points: seq<Point>)
      requires at + |points| <= limit <= buffer.Length
      modifies buffer
      ensures buffer[..at + |points|] == old(buffer[..at]) + points
      ensures buffer[limit..] == old(buffer[limit..])
    {
      forall i | 0 <= i < |points| {
        buffer[at + i] := points[i];
      }
    }

    /** Frame-swap delivery: compose a whole hardware frame. */
    method ComposeHardwareFrame(pps: nat) returns (frame: seq<Point>)
      modifies this`state, this`prefixLen, this`composedPps
      ensures SwapState() == Compose(Setup(pps), old(SwapState()), capacity)
      ensures frame == state.drawable
    {
      if state.pending.Some? {
        var pending := state.pending.value;
        ComposeChange(pending, pps);
        composedPps := Some(pps);
        state := state.(current := Some(pending), pending := None, dirty := true);
      } else if state.dirty || composedPps != Some(pps) {
        ComposeLoop(pps);
      }
      return state.drawable;
    }

    /** The drawable for a change from the current frame to `pending`. */
    method ComposeChange(pending: Frame, pps: nat)
      modifies this`state, this`prefixLen
      ensures state == old(state).(drawable :=
                Fit(ChangeParts(Setup(pps), PointsOf(old(state).current), pending), capacity))
    {
      ghost var parts := ChangeParts(Setup(pps), PointsOf(state.current), pending);
      var plan := Transition([]);
      if state.current.Some? && state.current.value != [] && pending != [] {
        plan := transitionFn(state.current.value[|state.current.value| - 1], pending[0], pps);
      }
      match plan {
        case Transition(points) =>
          prefixLen := |points|;
          state := state.(drawable := points + pending);
        case Coalesce =>
          prefixLen := 0;
          state := state.(drawable := if |pending| > 1 then pending[1..] else pending);
      }
      if state.drawable == [] {
        state := state.(drawable := [idle]);
      }
      ClampToCapacity(parts);
    }

    /** The drawable for a self-loop of the current frame. */
    method ComposeLoop(pps: nat)
      modifies this`state, this`prefixLen, this`composedPps
      ensures state == old(state).(drawable := LoopFrame(Setup(pps), old(state).current, capacity),
                                   dirty := false)
      ensures composedPps == Some(pps)
    {
      prefixLen := 0;
      composedPps := Some(pps);
      state := state.(drawable := [], dirty := false);
      if state.current.None? {
        return;
      }
      var base := state.current.value;
      if base == [] {
        state := state.(drawable := [idle]);
        return;
      }
      match transitionFn(base[|base| - 1], base[0], pps) {
        case Transition(points) =>
          state := state.(drawable := points + base);
          prefixLen := |points|;
        case Coalesce =>
          var end := if |base| > 1 then |base| - 1 else |base|;
          state := state.(drawable := base[..end]);
      }
      ClampToCapacity(LoopParts(Setup(pps), base));
    }

    /** Trim the generated prefix first, then, as a last resort, the tail. */
    method ClampToCapacity(ghost parts: Parts)
      requires state.drawable == parts.prefix + parts.authored && prefixLen == |parts.prefix|
      modifies this`state, this`prefixLen
      ensures state == old(state).(drawable := Fit(parts, capacity))
    {
      if capacity.Some? && |state.drawable| > capacity.value {
        var cap := capacity.value;
        var excess := |state.drawable| - cap;
        var trim := if excess <= prefixLen then excess else prefixLen;
        state := state.(drawable := state.drawable[trim..]);
        prefixLen := prefixLen - trim;
        if |state.drawable| > cap {
          state := state.(drawable := state.drawable[..cap]);
        }
      }
    }
  }
}
