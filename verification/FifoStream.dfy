/** What FIFO delivery puts out over a whole run.

    A run is any interleaving of frame submissions and `fill_chunk` calls of any
    size and rate. Its output is explained by a list of passes: one pass is one
    traversal of a submitted frame together with the transition block before it. */
module FifoStream {
  import opened Points
  import opened FifoMachine

  datatype Action = SubmitFrame(frame: Frame) | FillChunk(n: nat, pps: nat)

  /** The frames submitted so far, the points emitted so far, and for each point how
      many frames had been submitted by then and at what rate it went out. */
  datatype Past = Past(subs: seq<Frame>, out: seq<Point>, seen: seq<nat>, rates: seq<nat>)
  {
    ghost predicate Valid() {
      |seen| == |rates| == |out|
    }

    /** One more point. */
    function Grow(point: Point, pps: nat): Past {
      Past(subs, out + [point], seen + [|subs|], rates + [pps])
    }
  }

  datatype World = World(past: Past, state: State)

  const NEW_WORLD := World(Past([], [], [], []), NEW_STATE)

  function Apply(t: TransitionFn, idle: Point, w: World, a: Action): World {
    match a
    case SubmitFrame(frame) =>
      World(w.past.(subs := w.past.subs + [frame]), Submit(w.state, frame))
    case FillChunk(n, pps) =>
      var c := Config(t, idle, pps);
      World(Past(w.past.subs, w.past.out + FillPoints(c, w.state, n),
                 w.past.seen + Repeat(|w.past.subs|, n), w.past.rates + Repeat(pps, n)),
            FillState(c, w.state, n))
  }

  /** A run that starts in `w`. */
  function ExecFrom(t: TransitionFn, idle: Point, w: World, actions: seq<Action>): World {
    if actions == [] then w
    else Apply(t, idle, ExecFrom(t, idle, w, actions[..|actions| - 1]), actions[|actions| - 1])
  }

  /** A run from a new engine. */
  function Exec(t: TransitionFn, idle: Point, actions: seq<Action>): World {
    ExecFrom(t, idle, NEW_WORLD, actions)
  }

  // ---- Passes -------------------------------------------------------------------

  /** One traversal of submission number `id`: `block` and then the frame from
      `skip` on, in the output from `start`. `pps` is the rate its seam was planned at. */
  datatype Pass = Pass(id: nat, frame: Frame, pps: nat, block: seq<Point>, skip: nat, start: nat)
  {
    predicate Valid() {
      skip < |frame|
    }

    function Points(): (points: seq<Point>)
      requires Valid()
      ensures |points| == End() - start > 0
    {
      block + frame[skip..]
    }

    function End(): nat
      requires Valid()
    {
      start + |block| + |frame| - skip
    }
  }

  /** `next` enters through the seam that the callback plans between the last point
      of `prev`, which is the point emitted just before, and the first of `next`. */
  predicate Follows(t: TransitionFn, prev: Pass, next: Pass)
    requires prev.Valid() && next.Valid()
  {
    && next.start == prev.End()
    && prev.id <= next.id
    && (match t(prev.frame[|prev.frame| - 1], next.frame[0], next.pps)
        case Transition(points) => next.block == points && next.skip == 0
        case Coalesce => next.block == [] && next.skip == CursorAfterCoalesce(next.frame))
  }

  /** Latest wins. Nothing submitted before the previous pass ended is passed over,
      nothing is shown before it is submitted, and a self-loop block goes out only
      if no newer frame had been submitted when its first point did. */
  predicate Timely(seen: seq<nat>, prev: Pass, next: Pass) {
    && 0 < next.start <= |seen|
    && seen[next.start - 1] <= next.id + 1
    && (next.start < |seen| ==> next.id + 1 <= seen[next.start])
    && (next.start < |seen| && next.id == prev.id && next.block != [] ==>
          next.id + 1 == seen[next.start])
  }

  /** The seam was planned with the point at `i`: over the frame that was the latest then,
      at the rate of that call. */
  predicate PlannedWith(seen: seq<nat>, rates: seq<nat>, p: Pass, i: nat) {
    i < |seen| && i < |rates| && p.id + 1 == seen[i] && p.pps == rates[i]
  }

  /** The seam was planned with the point before it, or, where a stale block was dropped,
      with the point after it. */
  predicate Planned(past: Past, p: Pass) {
    0 < p.start < |past.rates| ==>
      || PlannedWith(past.seen, past.rates, p, p.start - 1)
      || PlannedWith(past.seen, past.rates, p, p.start)
  }

  /** The whole pass is in the output. */
  predicate Complete(out: seq<Point>, p: Pass)
    requires p.Valid()
  {
    p.End() <= |out| && out[p.start..p.End()] == p.Points()
  }

  /** The output ends inside the pass. */
  predicate Partial(out: seq<Point>, p: Pass)
    requires p.Valid()
  {
    p.start <= |out| < p.End() && out[p.start..] == p.Points()[..|out| - p.start]
  }

  predicate AllIdle(idle: Point, points: seq<Point>) {
    forall i :: 0 <= i < |points| ==> points[i] == idle
  }

  predicate NoneSeen(seen: seq<nat>) {
    forall i :: 0 <= i < |seen| ==> seen[i] == 0
  }

  /** The first pass shows the first submission, after nothing but the idle points that
      went out before there was one. */
  predicate Leads(idle: Point, past: Past, p: Pass) {
    && p.id == 0 && p.block == [] && p.skip == 0
    && p.start <= |past.out| && AllIdle(idle, past.out[..p.start])
    && p.start <= |past.seen| && NoneSeen(past.seen[..p.start])
  }

  /** One pass is sound: it shows a submitted frame, enters as it should from the
      pass before it, and is in the output, wholly or (while `open`) up to its end. */
  predicate PassOk(t: TransitionFn, idle: Point, past: Past, prev: Option<Pass>, p: Pass, open: bool) {
    && p.Valid()
    && p.id < |past.subs| && past.subs[p.id] == p.frame
    && (prev.None? ==> Leads(idle, past, p))
    && (prev.Some? ==>
          && prev.value.Valid()
          && Follows(t, prev.value, p)
          && Timely(past.seen, prev.value, p)
          && Planned(past, p))
    && (if open then Partial(past.out, p) else Complete(past.out, p))
  }

  /** Passes in the order of the output, the latest last. */
  datatype Passes = NoPass | Adding(before: Passes, pass: Pass)
  {
    function Last(): Option<Pass> {
      if NoPass? then None else Some(pass)
    }
  }

  /** Every pass is sound and wholly in the output. */
  predicate AllComplete(t: TransitionFn, idle: Point, past: Past, done: Passes) {
    done.Adding? ==>
      && AllComplete(t, idle, past, done.before)
      && PassOk(t, idle, past, done.before.Last(), done.pass, false)
  }

  /** Of the first `k` submissions the latest is empty. */
  predicate LatestEmpty(subs: seq<Frame>, k: nat) {
    0 < k <= |subs| && subs[k - 1] == []
  }

  /** The frame that was the latest at the seam at `end` is empty: when the point before
      it went out, or, where a stale block was dropped, the point after it. */
  predicate ClearedAt(past: Past, end: nat) {
    && 0 < end <= |past.seen|
    && (|| LatestEmpty(past.subs, past.seen[end - 1])
        || (end < |past.seen| && LatestEmpty(past.subs, past.seen[end])))
  }

  /** Nothing but idle points after the last pass, because the display was cleared; or
      from the start, because nothing was submitted or the first frame was empty. */
  predicate Closes(idle: Point, past: Past, last: Option<Pass>) {
    if last.None? then
      && AllIdle(idle, past.out)
      && (if past.subs == [] then NoneSeen(past.seen) else past.subs[0] == [])
    else
      && last.value.Valid() && last.value.End() <= |past.out|
      && AllIdle(idle, past.out[last.value.End()..])
      && ClearedAt(past, last.value.End())
  }

  /** The passes account for every point of the output: those in `done` are complete,
      `now` is in progress. With no pass in progress only idle points follow. */
  ghost predicate Explains(t: TransitionFn, idle: Point, past: Past, done: Passes, now: Option<Pass>) {
    && past.Valid()
    && AllComplete(t, idle, past, done)
    && (now.Some? ==> PassOk(t, idle, past, done.Last(), now.value, true))
    && (now.None? ==> Closes(idle, past, done.Last()))
  }

  // ---- How the engine's state reflects the passes ---------------------------------

  predicate IsSelfLoop(prev: Option<Pass>, p: Pass) {
    prev.Some? && prev.value.id == p.id
  }

  /** The state is `|past.out| - p.start` points into pass `p`. */
  predicate TracksPass(s: State, past: Past, prev: Option<Pass>, p: Pass) {
    && s.current == Some(p.frame)
    && p.start <= |past.out|
    && p.id < |past.subs|
    && s.pending == (if p.id == |past.subs| - 1 then None else Some(past.subs[|past.subs| - 1]))
    && (if s.blockCursor < |s.block| then
          && s.block == p.block && p.skip == 0
          && s.blockCursor == |past.out| - p.start
          && (s.selfLoop <==> IsSelfLoop(prev, p))
        else
          && |p.block| <= |past.out| - p.start
          && s.cursor == p.skip + |past.out| - p.start - |p.block|)
  }

  predicate Tracks(s: State, past: Past, prev: Option<Pass>, now: Option<Pass>) {
    && WellFormed(s)
    && (s.current.None? ==> past.subs == [] && prev.None?)
    && (s.current.Some? ==> past.subs != [])
    && (now.None? ==> past.subs == [] || [] in past.subs)
    && (now.Some? <==> PointsOf(s.current) != [])
    && (now.Some? ==> TracksPass(s, past, prev, now.value))
  }

  /** The invariant of every run. */
  ghost predicate Story(t: TransitionFn, idle: Point, w: World, done: Passes, now: Option<Pass>) {
    Explains(t, idle, w.past, done, now) && Tracks(w.state, w.past, done.Last(), now)
  }

  /** A pass that has not begun was planned with the point before it, or by the call that
      is about to begin it. */
  predicate OnRate(past: Past, prev: Option<Pass>, p: Pass, pps: nat) {
    prev.Some? && 0 < p.start == |past.rates| ==>
      || PlannedWith(past.seen, past.rates, p, p.start - 1)
      || (p.id + 1 == |past.subs| && p.pps == pps)
  }

  /** Between points a pass that has not begun was planned with the point before it. */
  predicate Settled(past: Past, prev: Option<Pass>, now: Option<Pass>) {
    prev.Some? && now.Some? && 0 < now.value.start == |past.rates| ==>
      PlannedWith(past.seen, past.rates, now.value, now.value.start - 1)
  }

  // ---- The output grows by one point ------------------------------------------------

  /** Complete passes stay complete. */
  lemma CompleteStays(t: TransitionFn, idle: Point, past: Past, prev: Option<Pass>, p: Pass, point: Point, pps: nat)
    requires past.Valid() && PassOk(t, idle, past, prev, p, false)
    ensures PassOk(t, idle, past.Grow(point, pps), prev, p, false)
  {
    var out := past.out + [point];
    assert out[p.start..p.End()] == past.out[p.start..p.End()];
    assert out[..p.start] == past.out[..p.start];
    assert (past.seen + [|past.subs|])[..p.start] == past.seen[..p.start];
  }

  lemma {:induction false} AllCompleteStays(t: TransitionFn, idle: Point, past: Past, done: Passes, point: Point, pps: nat)
    requires past.Valid() && AllComplete(t, idle, past, done)
    ensures AllComplete(t, idle, past.Grow(point, pps), done)
    decreases done
  {
    if done.Adding? {
      AllCompleteStays(t, idle, past, done.before, point, pps);
      CompleteStays(t, idle, past, done.before.Last(), done.pass, point, pps);
    }
  }

  lemma NextPointFits(out: seq<Point>, start: nat, points: seq<Point>)
    requires start <= |out| < start + |points| && out[start..] == points[..|out| - start]
    ensures (out + [points[|out| - start]])[start..] == points[..|out| - start + 1]
    ensures (out + [points[|out| - start]])[..start] == out[..start]
  {
    var at := |out| - start;
    assert (out + [points[at]])[start..] == out[start..] + [points[at]];
    assert points[..at] + [points[at]] == points[..at + 1];
  }

  lemma PartOfPassGrows(out: seq<Point>, p: Pass)
    requires p.Valid() && Partial(out, p)
    ensures var grown := out + [p.Points()[|out| - p.start]];
            if |grown| < p.End() then Partial(grown, p) else Complete(grown, p)
    ensures (out + [p.Points()[|out| - p.start]])[..p.start] == out[..p.start]
  {
    NextPointFits(out, p.start, p.Points());
    var grown := out + [p.Points()[|out| - p.start]];
    if |grown| == p.End() {
      assert grown[p.start..p.End()] == grown[p.start..];
      assert p.Points()[..|grown| - p.start] == p.Points();
    }
  }

  /** The pass in progress takes its next point, and is complete with its last. */
  lemma PartialGrows(t: TransitionFn, idle: Point, past: Past, prev: Option<Pass>, p: Pass, pps: nat)
    requires past.Valid() && PassOk(t, idle, past, prev, p, true) && OnRate(past, prev, p, pps)
    requires IsSelfLoop(prev, p) && |past.out| == p.start && p.block != [] ==> p.id + 1 == |past.subs|
    ensures PassOk(t, idle, past.Grow(p.Points()[|past.out| - p.start], pps), prev, p,
                   |past.out| + 1 < p.End())
  {
    PartOfPassGrows(past.out, p);
    assert (past.seen + [|past.subs|])[..p.start] == past.seen[..p.start];
  }

  // ---- Opening the next pass ----------------------------------------------------------

  /** The newest submission. */
  function Newest(past: Past): nat
    requires past.subs != []
  {
    |past.subs| - 1
  }

  /** The pass over the newest submission that the seam after `from` opens here. */
  function Opened(c: Config, past: Past, from: seq<Point>): Pass
    requires past.subs != []
  {
    var id, frame := Newest(past), past.subs[Newest(past)];
    match PlanBetween(c, from, frame)
    case Transition(points) => Pass(id, frame, c.pps, points, 0, |past.out|)
    case Coalesce => Pass(id, frame, c.pps, [], CursorAfterCoalesce(frame), |past.out|)
  }

  /** There is nothing to draw in an empty frame. */
  function NextPass(c: Config, past: Past, from: seq<Point>): Option<Pass>
    requires past.subs != []
  {
    if past.subs[Newest(past)] == [] then None else Some(Opened(c, past, from))
  }

  /** The seam after a complete pass is planned between its last point and the first of
      the next. */
  lemma OpenedFollows(c: Config, past: Past, prev: Pass)
    requires prev.Valid() && prev.End() == |past.out|
    requires prev.id < |past.subs| && past.subs[Newest(past)] != []
    ensures var p := Opened(c, past, prev.frame);
            p.Valid() && Follows(c.transition, prev, p)
  {
  }

  lemma OpenedIsTimely(c: Config, past: Past, prev: Pass)
    requires past.Valid() && past.subs != [] && past.out != []
    requires past.seen[|past.out| - 1] <= |past.subs|
    ensures Timely(past.seen, prev, Opened(c, past, prev.frame))
  {
  }

  /** A pass that begins where the output ends has none of its points there. */
  lemma NothingYet(out: seq<Point>, p: Pass)
    requires p.Valid() && p.start == |out|
    ensures Partial(out, p)
  {
    assert out[p.start..] == [] == p.Points()[..0];
  }

  /** Right after a complete pass, the next one is sound, or there is none because the
      display is cleared. */
  lemma NextPassIsOk(c: Config, past: Past, prev: Pass)
    requires past.Valid() && prev.Valid() && prev.End() == |past.out|
    requires prev.id < |past.subs| && past.seen[|past.out| - 1] <= |past.subs|
    ensures var next := NextPass(c, past, prev.frame);
            && (next.Some? ==> PassOk(c.transition, c.idle, past, Some(prev), next.value, true))
            && (next.None? && past.seen[|past.out| - 1] == |past.subs| ==>
                  Closes(c.idle, past, Some(prev)))
  {
    if past.subs[Newest(past)] != [] {
      OpenedFollows(c, past, prev);
      OpenedIsTimely(c, past, prev);
      NothingYet(past.out, Opened(c, past, prev.frame));
    }
  }

  /** The state reflects a pass that was just entered, whichever way. */
  lemma EnteredTracks(c: Config, past: Past, s: State, from: seq<Point>, prev: Option<Pass>, selfLoop: bool)
    requires past.subs != [] && s.blockCursor == |s.block| && from != []
    requires past.subs[Newest(past)] != [] ==>
               (selfLoop <==> IsSelfLoop(prev, Opened(c, past, from)))
    ensures var frame := past.subs[Newest(past)];
            var next := Enter(s, frame, PlanBetween(c, from, frame), selfLoop);
            Tracks(next, past, prev, NextPass(c, past, from))
  {
  }

  /** A stale block belongs to a self-loop that has not begun: the pass before it
      is over the same frame and is the last thing in the output. */
  lemma StaleBetweenPasses(t: TransitionFn, idle: Point, w: World, done: Passes, p: Pass)
    requires Story(t, idle, w, done, Some(p)) && Stale(w.state)
    ensures done.Adding? && done.pass.Valid() && done.pass.frame == p.frame
    ensures done.pass.End() == |w.past.out| && done.pass.id < |w.past.subs| - 1
    ensures w.past.seen[|w.past.out| - 1] <= |w.past.subs|
  {
  }

  /** Dropping a stale self-loop block enters the newest submission instead. */
  lemma DropTracks(c: Config, w: World, prev: Pass, p: Pass)
    requires Tracks(w.state, w.past, Some(prev), Some(p))
    requires Stale(w.state) && prev.id < |w.past.subs| - 1
    ensures Tracks(DropStale(c, w.state), w.past, Some(prev), NextPass(c, w.past, p.frame))
  {
    EnteredTracks(c, w.past, w.state.(block := [], selfLoop := false), p.frame, Some(prev), false);
  }

  /** Dropping a stale self-loop block replaces the pass that had not begun. */
  lemma DropKeepsStory(c: Config, w: World, done: Passes, p: Pass)
    requires Story(c.transition, c.idle, w, done, Some(p))
    requires Stale(w.state) && w.past.subs[Newest(w.past)] != []
    ensures Story(c.transition, c.idle, World(w.past, DropStale(c, w.state)), done,
                  NextPass(c, w.past, p.frame))
  {
    StaleBetweenPasses(c.transition, c.idle, w, done, p);
    NextPassIsOk(c, w.past, done.pass);
    DropTracks(c, w, done.pass, p);
  }

  /** If the waiting frame is empty, dropping the block clears the display. */
  lemma DropClears(c: Config, w: World, done: Passes, p: Pass)
    requires Story(c.transition, c.idle, w, done, Some(p))
    requires Stale(w.state) && w.past.subs[Newest(w.past)] == []
    ensures Story(c.transition, c.idle, World(w.past.Grow(c.idle, c.pps), DropStale(c, w.state)), done, None)
  {
    StaleBetweenPasses(c.transition, c.idle, w, done, p);
    AllCompleteStays(c.transition, c.idle, w.past, done, c.idle, c.pps);
    DropTracks(c, w, done.pass, p);
    ClearedByDrop(c, w.past, done.pass);
  }

  lemma ClearedByDrop(c: Config, past: Past, last: Pass)
    requires past.Valid() && past.subs != [] && past.subs[Newest(past)] == []
    requires last.Valid() && last.End() == |past.out|
    ensures Closes(c.idle, past.Grow(c.idle, c.pps), Some(last))
  {
    var grown := past.Grow(c.idle, c.pps);
    assert grown.out[last.End()..] == [c.idle];
    assert grown.seen[last.End()] == |past.subs|;
  }

  /** The point that goes out next is the next point of the pass. */
  lemma NextPointOfPass(c: Config, w: World, prev: Option<Pass>, p: Pass)
    requires p.Valid() && Partial(w.past.out, p) && TracksPass(w.state, w.past, prev, p)
    requires Ready(w.state)
    ensures PointFresh(c, w.state) == p.Points()[|w.past.out| - p.start]
  {
  }

  /** Inside a pass the state follows its position. */
  lemma StepInsidePass(c: Config, w: World, prev: Option<Pass>, p: Pass, point: Point)
    requires p.Valid() && Partial(w.past.out, p) && TracksPass(w.state, w.past, prev, p)
    requires Ready(w.state) && |w.past.out| + 1 < p.End()
    ensures TracksPass(StepFresh(c, w.state), w.past.Grow(point, c.pps), prev, p)
  {
  }

  /** The last point of a pass leads straight into the next pass, over the newest
      submission, or into nothing if that is empty. */
  lemma StepOutOfPass(c: Config, w: World, prev: Option<Pass>, p: Pass, point: Point)
    requires p.Valid() && Partial(w.past.out, p) && TracksPass(w.state, w.past, prev, p)
    requires Ready(w.state) && |w.past.out| + 1 == p.End() && w.past.subs[p.id] == p.frame
    ensures Tracks(StepFresh(c, w.state), w.past.Grow(point, c.pps), Some(p),
                   NextPass(c, w.past.Grow(point, c.pps), p.frame))
  {
    var s := w.state.(cursor := w.state.cursor + 1);
    assert StepFresh(c, w.state) == Seam(c, s);
    EnteredTracks(c, w.past.Grow(point, c.pps), s, p.frame, Some(p), s.pending.None?);
  }

  // ---- Whole runs -----------------------------------------------------------------------

  function Emit(c: Config, w: World): World {
    World(w.past.Grow(Output(c, w.state), c.pps), Step(c, w.state))
  }

  /** A self-loop block that is not stale begins only while its frame is the newest. */
  lemma NotStaleMeans(w: World, prev: Option<Pass>, p: Pass)
    requires p.Valid() && Partial(w.past.out, p) && TracksPass(w.state, w.past, prev, p)
    requires !Stale(w.state)
    ensures IsSelfLoop(prev, p) && |w.past.out| == p.start && p.block != [] ==>
              p.id + 1 == |w.past.subs|
  {
  }

  /** With one more point the pass in progress stays sound; it is complete with its last. */
  lemma PointFits(c: Config, w: World, prev: Option<Pass>, p: Pass, point: Point)
    requires w.past.Valid() && PassOk(c.transition, c.idle, w.past, prev, p, true)
    requires TracksPass(w.state, w.past, prev, p) && Ready(w.state) && !Stale(w.state)
    requires OnRate(w.past, prev, p, c.pps) && point == PointFresh(c, w.state)
    ensures PassOk(c.transition, c.idle, w.past.Grow(point, c.pps), prev, p, |w.past.out| + 1 < p.End())
  {
    NextPointOfPass(c, w, prev, p);
    NotStaleMeans(w, prev, p);
    PartialGrows(c.transition, c.idle, w.past, prev, p, c.pps);
  }

  /** With one more point, everything stays explained. */
  lemma PointExplained(c: Config, w: World, done: Passes, p: Pass, point: Point)
    requires Story(c.transition, c.idle, w, done, Some(p)) && Ready(w.state) && !Stale(w.state)
    requires OnRate(w.past, done.Last(), p, c.pps)
    requires point == PointFresh(c, w.state)
    ensures AllComplete(c.transition, c.idle, w.past.Grow(point, c.pps), done)
    ensures PassOk(c.transition, c.idle, w.past.Grow(point, c.pps), done.Last(), p, |w.past.out| + 1 < p.End())
  {
    AllCompleteStays(c.transition, c.idle, w.past, done, point, c.pps);
    PointFits(c, w, done.Last(), p, point);
  }

  lemma InsideTracked(c: Config, w: World, prev: Option<Pass>, p: Pass, point: Point)
    requires p.Valid() && Partial(w.past.out, p) && Tracks(w.state, w.past, prev, Some(p))
    requires Ready(w.state) && |w.past.out| + 1 < p.End()
    ensures Tracks(StepFresh(c, w.state), w.past.Grow(point, c.pps), prev, Some(p))
  {
    StretchKeepsReadyIfFrame(c, w.state);
    StepInsidePass(c, w, prev, p, point);
  }

  /** A pass that the last point opened was planned at the rate of that point. */
  lemma OpenedSettled(c: Config, past: Past, point: Point, prev: Option<Pass>, from: seq<Point>)
    requires past.Valid() && past.subs != []
    ensures Settled(past.Grow(point, c.pps), prev, NextPass(c, past.Grow(point, c.pps), from))
  {
  }

  lemma BegunSettled(past: Past, point: Point, pps: nat, prev: Option<Pass>, p: Pass)
    requires past.Valid() && p.start <= |past.out|
    ensures Settled(past.Grow(point, pps), prev, Some(p))
  {
  }

  /** One point from inside a pass. */
  lemma EmitInside(c: Config, w: World, done: Passes, p: Pass, point: Point)
    requires Story(c.transition, c.idle, w, done, Some(p)) && Ready(w.state) && !Stale(w.state)
    requires OnRate(w.past, done.Last(), p, c.pps)
    requires point == PointFresh(c, w.state) && |w.past.out| + 1 < p.End()
    ensures Story(c.transition, c.idle, World(w.past.Grow(point, c.pps), StepFresh(c, w.state)), done, Some(p))
    ensures Settled(w.past.Grow(point, c.pps), done.Last(), Some(p))
  {
    PointExplained(c, w, done, p, point);
    BegunSettled(w.past, point, c.pps, done.Last(), p);
    InsideTracked(c, w, done.Last(), p, point);
  }

  /** Complete passes, and the one that the last point of them opens, explain everything. */
  lemma OpenedExplained(c: Config, past: Past, done: Passes, p: Pass)
    requires past.Valid() && AllComplete(c.transition, c.idle, past, done)
    requires PassOk(c.transition, c.idle, past, done.Last(), p, false)
    requires p.End() == |past.out| && past.seen[|past.out| - 1] == |past.subs|
    ensures Explains(c.transition, c.idle, past, Adding(done, p), NextPass(c, past, p.frame))
  {
    NextPassIsOk(c, past, p);
  }

  /** The last point of a pass, and the seam after it. */
  lemma EmitLast(c: Config, w: World, done: Passes, p: Pass, point: Point)
    requires Story(c.transition, c.idle, w, done, Some(p)) && Ready(w.state) && !Stale(w.state)
    requires OnRate(w.past, done.Last(), p, c.pps)
    requires point == PointFresh(c, w.state) && |w.past.out| + 1 == p.End()
    ensures w.past.subs != []
    ensures Story(c.transition, c.idle, World(w.past.Grow(point, c.pps), StepFresh(c, w.state)),
                  Adding(done, p), NextPass(c, w.past.Grow(point, c.pps), p.frame))
    ensures Settled(w.past.Grow(point, c.pps), Some(p), NextPass(c, w.past.Grow(point, c.pps), p.frame))
  {
    OpenedSettled(c, w.past, point, Some(p), p.frame);
    PointExplained(c, w, done, p, point);
    StepOutOfPass(c, w, done.Last(), p, point);
    OpenedExplained(c, w.past.Grow(point, c.pps), done, p);
  }

  /** One point from a pass that is not stale. */
  lemma EmitInPass(c: Config, w: World, done: Passes, p: Pass)
    returns (done': Passes, now': Option<Pass>)
    requires Story(c.transition, c.idle, w, done, Some(p))
    requires Ready(w.state) && !Stale(w.state)
    requires OnRate(w.past, done.Last(), p, c.pps)
    ensures Story(c.transition, c.idle,
                  World(w.past.Grow(PointFresh(c, w.state), c.pps), StepFresh(c, w.state)), done', now')
    ensures Settled(w.past.Grow(PointFresh(c, w.state), c.pps), done'.Last(), now')
  {
    if |w.past.out| + 1 < p.End() {
      EmitInside(c, w, done, p, PointFresh(c, w.state));
      done', now' := done, Some(p);
    } else {
      EmitLast(c, w, done, p, PointFresh(c, w.state));
      done', now' := Adding(done, p), NextPass(c, w.past.Grow(PointFresh(c, w.state), c.pps), p.frame);
    }
  }

  lemma StretchKeepsReadyIfFrame(c: Config, s: State)
    requires Ready(s) && s.drawable != []
    ensures Ready(StepFresh(c, s))
  {
    if s.blockCursor == |s.block| {
      StretchKeepsReady(c, s, 1);
    }
  }

  lemma ClosesStays(idle: Point, past: Past, last: Option<Pass>, pps: nat)
    requires past.Valid() && Closes(idle, past, last)
    ensures Closes(idle, past.Grow(idle, pps), last)
  {
    var grown := past.Grow(idle, pps);
    if last.Some? {
      var end := last.value.End();
      assert grown.out[end..] == past.out[end..] + [idle];
      assert grown.seen[end - 1] == past.seen[end - 1];
    }
  }

  /** Nothing to draw: one more idle point. */
  lemma EmitIdle(c: Config, w: World, done: Passes)
    requires Story(c.transition, c.idle, w, done, None)
    ensures Story(c.transition, c.idle, World(w.past.Grow(c.idle, c.pps), w.state), done, None)
  {
    AllCompleteStays(c.transition, c.idle, w.past, done, c.idle, c.pps);
    ClosesStays(c.idle, w.past, done.Last(), c.pps);
  }

  /** One point, once a stale block is out of the way. */
  lemma EmitFresh(c: Config, w: World, done: Passes, now: Option<Pass>)
    returns (done': Passes, now': Option<Pass>)
    requires Story(c.transition, c.idle, w, done, now) && Ready(w.state)
    requires now.Some? ==> !Stale(w.state) && OnRate(w.past, done.Last(), now.value, c.pps)
    ensures Story(c.transition, c.idle, Emit(c, w), done', now')
    ensures Settled(Emit(c, w).past, done'.Last(), now')
  {
    if now.None? {
      EmitIdle(c, w, done);
      done', now' := done, None;
    } else {
      done', now' := EmitInPass(c, w, done, now.value);
    }
  }

  /** One point, whatever the engine is doing. */
  lemma EmitKeepsStory(c: Config, w: World, done: Passes, now: Option<Pass>)
    returns (done': Passes, now': Option<Pass>)
    requires Story(c.transition, c.idle, w, done, now) && Ready(w.state)
    requires Settled(w.past, done.Last(), now)
    ensures Story(c.transition, c.idle, Emit(c, w), done', now') && Ready(Emit(c, w).state)
    ensures Settled(Emit(c, w).past, done'.Last(), now')
  {
    StepKeepsReady(c, w.state);
    if now.Some? && Stale(w.state) {
      DropStaleKeepsReady(c, w.state);
      if w.past.subs[Newest(w.past)] == [] {
        DropClears(c, w, done, now.value);
        DropEmits(c, w.state);
        done', now' := done, None;
      } else {
        DropKeepsStory(c, w, done, now.value);
        done', now' := EmitFresh(c, World(w.past, DropStale(c, w.state)), done, NextPass(c, w.past, now.value.frame));
      }
    } else {
      done', now' := EmitFresh(c, w, done, now);
    }
  }

  /** Dropping a block for an empty frame leaves the idle point to emit. */
  lemma DropEmits(c: Config, s: State)
    requires Ready(s) && Stale(s) && s.drawable != [] && s.pending == Some([])
    ensures Step(c, s) == DropStale(c, s) && Output(c, s) == c.idle
  {
  }

  /** The world after `n` points from a ready state. */
  function EmitMany(c: Config, w: World, n: nat): World {
    World(Past(w.past.subs, w.past.out + Emitted(c, w.state, n),
               w.past.seen + Repeat(|w.past.subs|, n), w.past.rates + Repeat(c.pps, n)),
          After(c, w.state, n))
  }

  lemma {:induction false} EmitManyKeepsStory(c: Config, w: World, done: Passes, now: Option<Pass>, n: nat)
    returns (done': Passes, now': Option<Pass>)
    requires Story(c.transition, c.idle, w, done, now) && Ready(w.state)
    requires Settled(w.past, done.Last(), now)
    ensures Story(c.transition, c.idle, EmitMany(c, w, n), done', now')
    ensures Settled(EmitMany(c, w, n).past, done'.Last(), now')
    decreases n
  {
    if n == 0 {
      assert EmitMany(c, w, 0) == w;
      done', now' := done, now;
    } else {
      done', now' := EmitKeepsStory(c, w, done, now);
      EmitManyUnfolds(c, w, n);
      done', now' := EmitManyKeepsStory(c, Emit(c, w), done', now', n - 1);
    }
  }

  lemma EmitManyUnfolds(c: Config, w: World, n: nat)
    requires n > 0
    ensures EmitMany(c, w, n) == EmitMany(c, Emit(c, w), n - 1)
  {
    assert Emitted(c, w.state, n) == [Output(c, w.state)] + Emitted(c, Step(c, w.state), n - 1);
    assert Repeat(|w.past.subs|, n) == [|w.past.subs|] + Repeat(|w.past.subs|, n - 1);
    assert Repeat(c.pps, n) == [c.pps] + Repeat(c.pps, n - 1);
    assert After(c, w.state, n) == After(c, Step(c, w.state), n - 1);
  }

  /** A submission is part of the past at once; it is drawn only later, unless it is
      the first. */
  lemma SubmitKeepsStory(t: TransitionFn, idle: Point, w: World, done: Passes, now: Option<Pass>, frame: Frame)
    returns (now': Option<Pass>)
    requires Story(t, idle, w, done, now) && Settled(w.past, done.Last(), now)
    ensures Story(t, idle, Apply(t, idle, w, SubmitFrame(frame)), done, now')
    ensures Settled(Apply(t, idle, w, SubmitFrame(frame)).past, done.Last(), now')
  {
    var past := w.past.(subs := w.past.subs + [frame]);
    AllCompleteKeepsOnSubmit(t, idle, w.past, done, frame);
    if w.state.current.None? && frame != [] {
      var p := Pass(0, frame, 0, [], 0, |w.past.out|);
      assert w.past.out[..|w.past.out|] == w.past.out;
      assert p.Points()[..0] == [] == w.past.out[p.start..];
      now' := Some(p);
    } else {
      now' := now;
    }
  }

  lemma {:induction false} AllCompleteKeepsOnSubmit(t: TransitionFn, idle: Point, past: Past, done: Passes, frame: Frame)
    requires AllComplete(t, idle, past, done)
    ensures AllComplete(t, idle, past.(subs := past.subs + [frame]), done)
    decreases done
  {
    if done.Adding? {
      AllCompleteKeepsOnSubmit(t, idle, past, done.before, frame);
    }
  }

  lemma RefreshKeepsStory(t: TransitionFn, idle: Point, w: World, done: Passes, now: Option<Pass>)
    requires Story(t, idle, w, done, now)
    ensures Story(t, idle, World(w.past, Refresh(w.state)), done, now)
    ensures Ready(Refresh(w.state))
  {
  }

  lemma {:induction false} RunHasStory(t: TransitionFn, idle: Point, actions: seq<Action>)
    returns (done: Passes, now: Option<Pass>)
    ensures Story(t, idle, Exec(t, idle, actions), done, now)
    ensures Settled(Exec(t, idle, actions).past, done.Last(), now)
    decreases |actions|
  {
    if actions == [] {
      done, now := NoPass, None;
    } else {
      var before := actions[..|actions| - 1];
      done, now := RunHasStory(t, idle, before);
      var w := Exec(t, idle, before);
      match actions[|actions| - 1]
      case SubmitFrame(frame) =>
        now := SubmitKeepsStory(t, idle, w, done, now, frame);
      case FillChunk(n, pps) =>
        RefreshKeepsStory(t, idle, w, done, now);
        var c := Config(t, idle, pps);
        done, now := EmitManyKeepsStory(c, World(w.past, Refresh(w.state)), done, now, n);
    }
  }

  /** Over every run from a new engine, the whole output is a chain of passes: each
      block is whole, is what the callback plans between the points around it, every
      frame runs to its last point, and the latest submission wins at each seam. As
      long as no empty frame is submitted, drawing never ends once it has begun. */
  lemma OutputIsPasses(t: TransitionFn, idle: Point, actions: seq<Action>)
    ensures var past := Exec(t, idle, actions).past;
            exists done, now ::
              && Explains(t, idle, past, done, now)
              && (past.subs != [] && [] !in past.subs ==> now.Some?)
  {
    var done, now := RunHasStory(t, idle, actions);
  }

  // ---- Promotion ------------------------------------------------------------------

  /** Points until the pending frame becomes current: the rest of the block and of
      the frame, or just the next point if that is the first of a stale block. */
  function PointsToPromotion(s: State): int {
    if Stale(s) then 1
    else |s.block| - s.blockCursor + |s.drawable| - s.cursor
  }

  lemma StepTowardsPromotion(c: Config, s: State)
    requires Ready(s) && s.drawable != [] && s.pending.Some?
    ensures var next := Step(c, s);
            if PointsToPromotion(s) > 1 then
              && next.current == s.current && next.pending == s.pending && next.drawable != []
              && PointsToPromotion(next) == PointsToPromotion(s) - 1
            else
              next.current == s.pending && next.pending.None?
    ensures 1 <= PointsToPromotion(s) <= |s.block| - s.blockCursor + |s.drawable| - s.cursor
  {
    DropStaleKeepsReady(c, s);
  }

  lemma {:induction false} SettledStays(c: Config, s: State, n: nat)
    requires Ready(s) && s.pending.None?
    ensures After(c, s, n).current == s.current && After(c, s, n).pending.None?
    decreases n
  {
    if n > 0 {
      StepKeepsReady(c, s);
      assert Step(c, s).current == s.current && Step(c, s).pending.None?;
      SettledStays(c, Step(c, s), n - 1);
    }
  }

  /** Promotion is live and exact: the newest submission waits precisely until the
      rest of the block and frame is out, then is current and stays it. */
  lemma {:induction false} PromotedExactly(c: Config, s: State, n: nat)
    requires Ready(s) && s.drawable != [] && s.pending.Some?
    ensures var later := After(c, s, n);
            if n < PointsToPromotion(s) then
              later.current == s.current && later.pending == s.pending
            else
              later.current == s.pending && later.pending.None?
    ensures PointsToPromotion(s) <= |s.block| - s.blockCursor + |s.drawable| - s.cursor
    decreases n
  {
    StepTowardsPromotion(c, s);
    if n > 0 {
      StepKeepsReady(c, s);
      if PointsToPromotion(s) > 1 {
        PromotedExactly(c, Step(c, s), n - 1);
      } else {
        SettledStays(c, Step(c, s), n - 1);
      }
    }
  }

  /** An empty current frame is absorbing: whatever is submitted, no run leaves it,
      and it emits only idle points. */
  lemma {:induction false} ClearedIsAbsorbing(t: TransitionFn, idle: Point, w: World, actions: seq<Action>)
    requires WellFormed(w.state) && w.state.current == Some([])
    ensures var later := ExecFrom(t, idle, w, actions);
            && WellFormed(later.state) && later.state.current == Some([])
            && w.past.out <= later.past.out
            && AllIdle(idle, later.past.out[|w.past.out|..])
    decreases |actions|
  {
    if actions != [] {
      var before := actions[..|actions| - 1];
      ClearedIsAbsorbing(t, idle, w, before);
      var mid := ExecFrom(t, idle, w, before);
      match actions[|actions| - 1]
      case SubmitFrame(_) =>
      case FillChunk(n, pps) =>
        RunIdle(Config(t, idle, pps), Refresh(mid.state), n);
    }
  }
}
