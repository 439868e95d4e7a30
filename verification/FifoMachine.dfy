/** FIFO delivery as a machine that emits one point at a time.

    The presentation engine copies whole stretches of a frame or of a transition
    block into the caller's buffer. This module is the machine it refines: the
    same state, advanced by exactly one output point per step. */
module FifoMachine {
  import opened Points
  import opened Machines

  /** What the seam between two endpoints becomes. */
  datatype Plan = Transition(points: seq<Point>) | Coalesce

  /** The user's transition callback: from, to, points per second. */
  type TransitionFn = (Point, Point, nat) -> Plan

  /** What is fixed during one call: the callback, the point held when there is
      nothing to draw, and the output rate. */
  datatype Config = Config(transition: TransitionFn, idle: Point, pps: nat)

  /** The fields that FIFO delivery reads or writes. */
  datatype State = State(
    current: Option<Frame>,
    pending: Option<Frame>,
    drawable: seq<Point>,
    dirty: bool,
    cursor: nat,
    block: seq<Point>,
    blockCursor: nat,
    selfLoop: bool)

  const NEW_STATE := State(None, None, [], true, 0, [], 0, false)

  /** The points of an optional frame; no frame has none. */
  function PointsOf(frame: Option<Frame>): seq<Point> {
    if frame.Some? then frame.value else []
  }

  /** What FIFO delivery keeps true between calls. */
  predicate WellFormed(s: State) {
    && s.blockCursor <= |s.block|
    && (s.current.None? ==> s.pending.None? && s.block == [])
    && (s.dirty ==> s.block == [] && s.cursor == 0)
    && (!s.dirty ==> s.drawable == PointsOf(s.current))
    && (!s.dirty && s.drawable != [] ==> s.cursor < |s.drawable|)
    && (s.blockCursor < |s.block| ==> s.cursor == 0)
  }

  /** Well-formed, with the drawable up to date. */
  predicate Ready(s: State) {
    WellFormed(s) && !s.dirty
  }

  function Submit(s: State, frame: Frame): State {
    if s.current.None? then
      s.(current := Some(frame), dirty := true, cursor := 0)
    else
      s.(pending := Some(frame))
  }

  function Refresh(s: State): State {
    if s.dirty then s.(drawable := PointsOf(s.current), dirty := false) else s
  }

  function CursorAfterCoalesce(points: seq<Point>): nat {
    if |points| > 1 then 1 else 0
  }

  /** The plan for a seam; a missing endpoint means nothing is inserted. */
  function PlanBetween(c: Config, from: seq<Point>, to: Frame): Plan {
    if from != [] && to != [] then c.transition(from[|from| - 1], to[0], c.pps) else Transition([])
  }

  /** Enter `frame` through `plan`. */
  function Enter(s: State, frame: Frame, plan: Plan, selfLoop: bool): State {
    match plan
    case Transition(points) =>
      State(Some(frame), None, frame, false, 0, points, 0, selfLoop)
    case Coalesce =>
      State(Some(frame), None, frame, false, CursorAfterCoalesce(frame),
            s.block, s.blockCursor, s.selfLoop)
  }

  /** Make the pending frame current and queue the block that leads into it. */
  function Promote(c: Config, s: State): State {
    var frame := PointsOf(s.pending);
    Enter(s, frame, PlanBetween(c, PointsOf(s.current), frame), false)
  }

  /** The end of the frame was reached: go on to what is pending, or start over. */
  function Seam(c: Config, s: State): State {
    if s.pending.Some? then Promote(c, s)
    else Enter(s, s.drawable, PlanBetween(c, s.drawable, s.drawable), true)
  }

  /** A self-loop block that nothing has been emitted from, while a newer frame waits. */
  predicate Stale(s: State) {
    s.blockCursor < |s.block| && s.selfLoop && s.pending.Some? && s.blockCursor == 0
  }

  /** A stale block is dropped in favour of the waiting frame. */
  function DropStale(c: Config, s: State): State {
    if Stale(s) then Promote(c, s.(block := [], selfLoop := false)) else s
  }

  /** The state after `n` more points of the drawable. */
  function AfterStretch(c: Config, s: State, n: nat): State {
    var moved := s.(cursor := s.cursor + n);
    if moved.cursor >= |moved.drawable| then Seam(c, moved) else moved
  }

  /** The next state, when no stale block is held. */
  function StepFresh(c: Config, s: State): State {
    if s.drawable == [] then s
    else if s.blockCursor < |s.block| then s.(blockCursor := s.blockCursor + 1)
    else AfterStretch(c, s, 1)
  }

  /** The next point, when no stale block is held. */
  function PointFresh(c: Config, s: State): Point {
    if s.drawable == [] then c.idle
    else if s.blockCursor < |s.block| then s.block[s.blockCursor]
    else if s.cursor < |s.drawable| then s.drawable[s.cursor]
    else c.idle
  }

  /** One step: the next state. */
  function Step(c: Config, s: State): State {
    if s.drawable == [] then s else StepFresh(c, DropStale(c, s))
  }

  /** One step: the point it emits. */
  function Output(c: Config, s: State): Point {
    if s.drawable == [] then c.idle else PointFresh(c, DropStale(c, s))
  }

  function Stepper(c: Config): State -> State {
    (s: State) => Step(c, s)
  }

  function Outputter(c: Config): State -> Point {
    (s: State) => Output(c, s)
  }

  /** The state after `n` steps. */
  function After(c: Config, s: State, n: nat): State {
    Iterate(Stepper(c), s, n)
  }

  /** The points of `n` steps. */
  function Emitted(c: Config, s: State, n: nat): (points: seq<Point>)
    ensures |points| == n
  {
    Trace(Stepper(c), Outputter(c), s, n)
  }

  lemma DropStaleKeepsReady(c: Config, s: State)
    requires Ready(s)
    ensures Ready(DropStale(c, s)) && !Stale(DropStale(c, s))
  {
  }

  lemma StretchKeepsReady(c: Config, s: State, n: nat)
    requires Ready(s) && s.drawable != [] && s.blockCursor == |s.block|
    ensures Ready(AfterStretch(c, s, n))
  {
  }

  lemma StepKeepsReady(c: Config, s: State)
    requires Ready(s)
    ensures Ready(Step(c, s))
  {
    DropStaleKeepsReady(c, s);
    var u := DropStale(c, s);
    if u.drawable != [] && u.blockCursor == |u.block| {
      StretchKeepsReady(c, u, 1);
    }
  }

  /** No step leaves a state that FIFO delivery cannot continue from. */
  lemma {:induction false} RunKeepsReady(c: Config, s: State, n: nat)
    requires Ready(s)
    ensures Ready(After(c, s, n))
    decreases n
  {
    if n > 0 {
      StepKeepsReady(c, s);
      RunKeepsReady(c, Step(c, s), n - 1);
    }
  }

  /** Running `a` points and then `b` more is running `a + b`. */
  lemma RunSplits(c: Config, s: State, a: nat, b: nat)
    ensures After(c, s, a + b) == After(c, After(c, s, a), b)
    ensures Emitted(c, s, a + b) == Emitted(c, s, a) + Emitted(c, After(c, s, a), b)
  {
    IterateSplits(Stepper(c), s, a, b);
    TraceSplits(Stepper(c), Outputter(c), s, a, b);
  }

  /** An engine with nothing to draw emits only the idle point and stays as it is. */
  lemma {:induction false} RunIdle(c: Config, s: State, n: nat)
    requires s.drawable == []
    ensures After(c, s, n) == s
    ensures Emitted(c, s, n) == Repeat(c.idle, n)
    decreases n
  {
    if n > 0 {
      RunIdle(c, s, n - 1);
    }
  }

  /** Dropping a stale block first does not change what a non-empty run emits. */
  lemma RunAfterDrop(c: Config, s: State, n: nat)
    requires Ready(s) && s.drawable != [] && n > 0
    ensures After(c, s, n) == After(c, DropStale(c, s), n)
    ensures Emitted(c, s, n) == Emitted(c, DropStale(c, s), n)
  {
    DropStaleKeepsReady(c, s);
    var u := DropStale(c, s);
    assert Step(c, s) == Step(c, u);
    assert Output(c, s) == Output(c, u);
  }

  /** The next `n` points of a transition block come out as one slice. */
  lemma {:induction false} RunBlock(c: Config, s: State, n: nat)
    requires Ready(s) && s.drawable != [] && !Stale(s) && s.blockCursor + n <= |s.block|
    ensures After(c, s, n) == s.(blockCursor := s.blockCursor + n)
    ensures Emitted(c, s, n) == s.block[s.blockCursor..s.blockCursor + n]
    decreases n
  {
    if n > 0 {
      var next := s.(blockCursor := s.blockCursor + 1);
      assert Step(c, s) == next;
      RunBlock(c, next, n - 1);
    }
  }

  lemma RunUnfolds(c: Config, s: State, n: nat)
    requires n > 0
    ensures After(c, s, n) == After(c, Step(c, s), n - 1)
    ensures Emitted(c, s, n) == [Output(c, s)] + Emitted(c, Step(c, s), n - 1)
  {
  }

  /** Drawing one point of the frame. */
  lemma StretchStep(c: Config, s: State)
    requires Ready(s) && s.drawable != [] && s.blockCursor == |s.block|
    ensures Step(c, s) == AfterStretch(c, s, 1) && Output(c, s) == s.drawable[s.cursor]
  {
  }

  lemma StretchJoins(c: Config, s: State, n: nat)
    requires 0 < n && s.cursor + 1 < |s.drawable|
    ensures AfterStretch(c, s, 1) == s.(cursor := s.cursor + 1)
    ensures AfterStretch(c, s.(cursor := s.cursor + 1), n - 1) == AfterStretch(c, s, n)
  {
    assert s.(cursor := s.cursor + 1).(cursor := s.cursor + 1 + (n - 1)) == s.(cursor := s.cursor + n);
  }

  lemma SliceFront(points: seq<Point>, k: nat, n: nat)
    requires 0 < n && k + n <= |points|
    ensures [points[k]] + points[k + 1..k + n] == points[k..k + n]
  {
  }

  /** The next `n` points of the frame come out as one slice, the seam following
      at once when the last of them was the end of the frame. */
  lemma {:induction false} RunStretch(c: Config, s: State, n: nat)
    requires Ready(s) && s.drawable != [] && s.blockCursor == |s.block|
    requires 0 < n && s.cursor + n <= |s.drawable|
    ensures After(c, s, n) == AfterStretch(c, s, n)
    ensures Emitted(c, s, n) == s.drawable[s.cursor..s.cursor + n]
    decreases n
  {
    RunUnfolds(c, s, n);
    StretchStep(c, s);
    SliceFront(s.drawable, s.cursor, n);
    if n == 1 {
      assert Emitted(c, Step(c, s), 0) == [] == s.drawable[s.cursor + 1..s.cursor + 1];
    } else {
      StretchJoins(c, s, n);
      RunStretch(c, s.(cursor := s.cursor + 1), n - 1);
    }
  }

  /** One call of `fill_chunk` for `n` points: the state it leaves. */
  function FillState(c: Config, s: State, n: nat): State {
    After(c, Refresh(s), n)
  }

  /** One call of `fill_chunk` for `n` points: what it writes. */
  function FillPoints(c: Config, s: State, n: nat): (points: seq<Point>)
    ensures |points| == n
  {
    Emitted(c, Refresh(s), n)
  }

  /** Chunk boundaries are invisible: filling `a` then `b` is filling `a + b`. */
  lemma FillSplits(c: Config, s: State, a: nat, b: nat)
    requires WellFormed(s)
    ensures FillState(c, s, a + b) == FillState(c, FillState(c, s, a), b)
    ensures FillPoints(c, s, a + b) == FillPoints(c, s, a) + FillPoints(c, FillState(c, s, a), b)
  {
    RunKeepsReady(c, Refresh(s), a);
    RunSplits(c, Refresh(s), a, b);
  }

  /** The state after `n` successive calls that ask for one point each. */
  function OneByOneState(c: Config, s: State, n: nat): State
    decreases n
  {
    if n == 0 then s else OneByOneState(c, FillState(c, s, 1), n - 1)
  }

  /** What those `n` calls write. */
  function OneByOnePoints(c: Config, s: State, n: nat): seq<Point>
    decreases n
  {
    if n == 0 then [] else FillPoints(c, s, 1) + OneByOnePoints(c, FillState(c, s, 1), n - 1)
  }

  /** A batch of `n` points is `n` calls for one point. */
  lemma {:induction false} FillIsOneByOne(c: Config, s: State, n: nat)
    requires WellFormed(s) && n > 0
    ensures FillState(c, s, n) == OneByOneState(c, s, n)
    ensures FillPoints(c, s, n) == OneByOnePoints(c, s, n)
    decreases n
  {
    var next := FillState(c, s, 1);
    RunKeepsReady(c, Refresh(s), 1);
    FillSplits(c, s, 1, n - 1);
    if n == 1 {
      assert OneByOneState(c, s, 1) == OneByOneState(c, next, 0);
      assert OneByOnePoints(c, s, 1) == FillPoints(c, s, 1) + OneByOnePoints(c, next, 0);
    } else {
      FillIsOneByOne(c, next, n - 1);
    }
  }

  /** One iteration of a batch, which emits `piece`: drop a stale block, drain part
      of a block, or draw part of the frame. */
  predicate Moves(c: Config, s: State, next: State, piece: seq<Point>) {
    if Stale(s) then piece == [] && next == DropStale(c, s)
    else if s.blockCursor < |s.block| then
      && 0 < |piece| <= |s.block| - s.blockCursor
      && piece == s.block[s.blockCursor..s.blockCursor + |piece|]
      && next == s.(blockCursor := s.blockCursor + |piece|)
    else
      && 0 < |piece| <= |s.drawable| - s.cursor
      && piece == s.drawable[s.cursor..s.cursor + |piece|]
      && next == AfterStretch(c, s, |piece|)
  }

  /** A move is as many single-point steps as it emits points, as long as at least
      one more point is wanted. */
  lemma MoveIsRun(c: Config, s: State, next: State, piece: seq<Point>, left: nat)
    requires Ready(s) && s.drawable != [] && |piece| <= left && 0 < left
    requires Moves(c, s, next, piece)
    ensures Ready(next)
    ensures After(c, s, left) == After(c, next, left - |piece|)
    ensures Emitted(c, s, left) == piece + Emitted(c, next, left - |piece|)
  {
    if Stale(s) {
      DropStaleKeepsReady(c, s);
      RunAfterDrop(c, s, left);
    } else if s.blockCursor < |s.block| {
      RunBlock(c, s, |piece|);
      RunSplits(c, s, |piece|, left - |piece|);
    } else {
      StretchKeepsReady(c, s, |piece|);
      RunStretch(c, s, |piece|);
      RunSplits(c, s, |piece|, left - |piece|);
    }
  }

  /** The iterations of one batch: the states between them and what each emitted. */
  datatype Batch = Start(first: State) | Then(before: Batch, state: State, piece: seq<Point>)
  {
    function Last(): State {
      if Start? then first else state
    }

    function First(): State {
      if Start? then first else before.First()
    }

    function Points(): seq<Point> {
      if Start? then [] else before.Points() + piece
    }

    /** Every iteration is a move from a live state, made while points are wanted. */
    predicate Legal(c: Config, limit: nat) {
      Then? ==>
        && before.Legal(c, limit)
        && before.Last().drawable != []
        && |before.Points()| < limit && |Points()| <= limit
        && Moves(c, before.Last(), state, piece)
    }
  }

  /** The iterations so far, continued step by step, are the whole run. */
  lemma {:induction false} BatchIsRun(c: Config, b: Batch, limit: nat)
    requires Ready(b.First()) && b.Legal(c, limit)
    ensures |b.Points()| <= limit && Ready(b.Last())
    ensures After(c, b.First(), limit) == After(c, b.Last(), limit - |b.Points()|)
    ensures Emitted(c, b.First(), limit)
         == b.Points() + Emitted(c, b.Last(), limit - |b.Points()|)
    decreases b
  {
    if b.Then? {
      BatchIsRun(c, b.before, limit);
      var left := limit - |b.before.Points()|;
      MoveIsRun(c, b.before.Last(), b.state, b.piece, left);
      Associates(b.before.Points(), b.piece, Emitted(c, b.state, left - |b.piece|));
    }
  }

  /** A batch that has filled the request is the whole run. */
  lemma FullBatch(c: Config, b: Batch, limit: nat)
    requires Ready(b.First()) && b.Legal(c, limit) && |b.Points()| == limit
    ensures Ready(b.Last())
    ensures b.Last() == After(c, b.First(), limit) && b.Points() == Emitted(c, b.First(), limit)
  {
    BatchIsRun(c, b, limit);
  }

  /** A batch that runs out of content is the whole run once padded with the idle point. */
  lemma IdleBatch(c: Config, b: Batch, limit: nat)
    requires Ready(b.First()) && b.Legal(c, limit) && b.Last().drawable == []
    ensures Ready(b.Last()) && |b.Points()| <= limit
    ensures b.Last() == After(c, b.First(), limit)
    ensures b.Points() + Repeat(c.idle, limit - |b.Points()|) == Emitted(c, b.First(), limit)
  {
    BatchIsRun(c, b, limit);
    RunIdle(c, b.Last(), limit - |b.Points()|);
  }
}
