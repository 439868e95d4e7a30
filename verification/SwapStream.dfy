/** What frame-swap delivery shows, over whole runs: every hardware frame is made of the
    latest submission, the first one after a change leads over to it, and the ones after
    that loop it. A run is any sequence of submissions, capacity changes, resets and
    compose calls on a new engine. */
module SwapStream {
  import opened Points
  import opened FifoMachine
  import opened FrameSwap
  import opened FrameCapacity

  // ---- What the run was ---------------------------------------------------------------------------

  /** The frames submitted since the last reset, the latest last. */
  function Submissions(actions: seq<Action>): seq<Frame> {
    if actions == [] then []
    else
      var before := Submissions(actions[..|actions| - 1]);
      match actions[|actions| - 1]
      case SubmitFrame(frame) => before + [frame]
      case ResetEngine => []
      case _ => before
  }

  /** Which of them the display has got to: the latest at the last compose call, and before
      any such call the first. */
  function DisplayedUpTo(actions: seq<Action>): nat {
    if actions == [] then 0
    else
      var before := actions[..|actions| - 1];
      match actions[|actions| - 1]
      case ComposeAt(_) => if Submissions(before) == [] then 0 else |Submissions(before)| - 1
      case ResetEngine => 0
      case _ => DisplayedUpTo(before)
  }

  // ---- What it is to show ---------------------------------------------------------------------------

  /** Changing over from one submission to another: the callback's block between the last
      point of the old and the first point of the new, then the new frame; without its
      first point where the seam coalesces. An empty frame clears the display. */
  function ChangeOver(t: TransitionFn, idle: Point, pps: nat, from: Frame, to: Frame): Parts {
    if to == [] then Parts([], [idle])
    else if from == [] then Parts([], to)
    else
      match t(from[|from| - 1], to[0], pps)
      case Transition(points) => Parts(points, to)
      case Coalesce => Parts([], if |to| == 1 then to else to[1..])
  }

  /** Looping one submission: the callback's block from its last point to its first, then
      the frame; without its last point where the seam coalesces. */
  function LoopOver(t: TransitionFn, pps: nat, frame: Frame): Parts
    requires frame != []
  {
    match t(frame[|frame| - 1], frame[0], pps)
    case Transition(points) => Parts(points, frame)
    case Coalesce => Parts([], if |frame| == 1 then frame else frame[..|frame| - 1])
  }

  /** The next hardware frame: nothing before the first submission; then the change over to
      the latest submission if the display has not got to it, and its loop otherwise. */
  function NextFrame(t: TransitionFn, idle: Point, pps: nat, frames: seq<Frame>, displayed: nat,
                     capacity: Option<nat>, looped: Option<nat>): seq<Point>
    requires frames != [] ==> displayed < |frames|
  {
    if frames == [] then []
    else
      var latest := frames[|frames| - 1];
      if displayed < |frames| - 1 then Fit(ChangeOver(t, idle, pps, frames[displayed], latest), capacity)
      else if latest == [] then [idle]
      else Fit(LoopOver(t, pps, latest), looped)
  }

  // ---- It does ---------------------------------------------------------------------------------------

  /** What the engine holds is what was submitted: the frame the display has got to is
      current, and a later one waits. */
  predicate Holds(s: Swap, frames: seq<Frame>, displayed: nat) {
    if frames == [] then s.current.None? && s.pending.None?
    else
      && displayed < |frames|
      && s.current == Some(frames[displayed])
      && s.pending == if displayed < |frames| - 1 then Some(frames[|frames| - 1]) else None
  }

  lemma {:induction false} RunHolds(t: TransitionFn, idle: Point, actions: seq<Action>)
    ensures Holds(Exec(t, idle, actions).swap, Submissions(actions), DisplayedUpTo(actions))
    ensures Submissions(actions) == [] ==> DisplayedUpTo(actions) == 0
    decreases |actions|
  {
    if actions != [] {
      RunHolds(t, idle, actions[..|actions| - 1]);
    }
  }

  /** The capacity the next frame is fitted to if it loops: the one now in force, or the one
      of the composition that is still cached. */
  function LoopCapacity(c: Config, w: World): Option<nat> {
    if MustCompose(c, w.swap) then w.capacity else w.composedUnder
  }

  lemma ChangeIsChangeOver(c: Config, from: Frame, to: Frame)
    ensures ChangeParts(c, from, to) == ChangeOver(c.transition, c.idle, c.pps, from, to)
  {
  }

  lemma LoopIsLoopOver(c: Config, frame: Frame)
    requires frame != []
    ensures LoopParts(c, frame) == LoopOver(c.transition, c.pps, frame)
  {
  }

  /** In every run the next compose call returns exactly that frame. */
  lemma FrameShowsLatest(t: TransitionFn, idle: Point, actions: seq<Action>, pps: nat)
    ensures var w := Exec(t, idle, actions);
            && (Submissions(actions) != [] ==> DisplayedUpTo(actions) < |Submissions(actions)|)
            && Apply(t, idle, w, ComposeAt(pps)).swap.drawable
            == NextFrame(t, idle, pps, Submissions(actions), DisplayedUpTo(actions),
                         w.capacity, LoopCapacity(Config(t, idle, pps), w))
  {
    var w, c := Exec(t, idle, actions), Config(t, idle, pps);
    var frames, displayed := Submissions(actions), DisplayedUpTo(actions);
    RunHolds(t, idle, actions);
    RunIsCoherent(t, idle, actions);
    ComposeIsCoherent(c, w.swap, w.composedUnder);
    if frames != [] && displayed < |frames| - 1 {
      ChangeIsChangeOver(c, frames[displayed], frames[|frames| - 1]);
    } else if frames != [] && frames[|frames| - 1] != [] {
      LoopIsLoopOver(c, frames[|frames| - 1]);
    }
  }

  /** Nothing limits the frame size. */
  predicate Unlimited(actions: seq<Action>) {
    forall i :: 0 <= i < |actions| ==> !actions[i].SetCapacity?
  }

  lemma {:induction false} UnlimitedRun(t: TransitionFn, idle: Point, actions: seq<Action>)
    requires Unlimited(actions)
    ensures Exec(t, idle, actions).capacity.None? && Exec(t, idle, actions).composedUnder.None?
    decreases |actions|
  {
    if actions != [] {
      UnlimitedRun(t, idle, actions[..|actions| - 1]);
    }
  }

  /** Without a capacity every hardware frame is exactly the block and the authored points
      of the latest submission. */
  lemma UnlimitedFrame(t: TransitionFn, idle: Point, actions: seq<Action>, pps: nat)
    requires Unlimited(actions) && Submissions(actions) != []
    ensures var frames, displayed := Submissions(actions), DisplayedUpTo(actions);
            var latest := frames[|frames| - 1];
            var shown := Apply(t, idle, Exec(t, idle, actions), ComposeAt(pps)).swap.drawable;
            && displayed < |frames|
            && (latest == [] ==> shown == [idle])
            && (latest != [] ==>
                  var parts := if displayed < |frames| - 1 then ChangeOver(t, idle, pps, frames[displayed], latest)
                               else LoopOver(t, pps, latest);
                  shown == parts.prefix + parts.authored)
  {
    FrameShowsLatest(t, idle, actions, pps);
    UnlimitedRun(t, idle, actions);
    assert [] + [idle] == [idle];
  }
}
