/** Which hardware frames are larger than the device takes, over whole runs of
    frame-swap delivery.

    A run is any sequence of frame submissions, capacity changes, resets and compose
    calls on a new engine. A change of the capacity does not invalidate the cached
    frame. */
module FrameCapacity {
  import opened Points
  import opened FifoMachine
  import opened FrameSwap

  datatype Action =
    | SubmitFrame(frame: Frame)
    | SetCapacity(capacity: Option<nat>)
    | ComposeAt(pps: nat)
    | ResetEngine

  /** What the engine holds, and the capacity under which it composed last. */
  datatype World = World(swap: Swap, capacity: Option<nat>, composedUnder: Option<nat>)

  const NEW_WORLD := World(NEW_SWAP, None, None)

  function Apply(t: TransitionFn, idle: Point, w: World, a: Action): World {
    match a
    case SubmitFrame(frame) => w.(swap := Submitted(w.swap, frame))
    case SetCapacity(capacity) => w.(capacity := capacity)
    case ComposeAt(pps) =>
      var c := Config(t, idle, pps);
      World(Compose(c, w.swap, w.capacity), w.capacity,
            if MustCompose(c, w.swap) then w.capacity else w.composedUnder)
    case ResetEngine => w.(swap := NEW_SWAP)
  }

  /** A run from a new engine. */
  function Exec(t: TransitionFn, idle: Point, actions: seq<Action>): World {
    if actions == [] then NEW_WORLD
    else Apply(t, idle, Exec(t, idle, actions[..|actions| - 1]), actions[|actions| - 1])
  }

  // ---- What the cache holds ---------------------------------------------------------------------

  /** A cached frame is the self-loop frame, fitted to the capacity it was composed under. */
  lemma ApplyKeepsCoherent(t: TransitionFn, idle: Point, w: World, a: Action)
    requires Coherent(t, idle, w.swap, w.composedUnder)
    ensures Coherent(t, idle, Apply(t, idle, w, a).swap, Apply(t, idle, w, a).composedUnder)
  {
    if a.ComposeAt? {
      var c := Config(t, idle, a.pps);
      if !MustCompose(c, w.swap) {
        ComposeIsCoherent(c, w.swap, w.composedUnder);
      }
    }
  }

  lemma {:induction false} RunIsCoherent(t: TransitionFn, idle: Point, actions: seq<Action>)
    ensures var w := Exec(t, idle, actions); Coherent(t, idle, w.swap, w.composedUnder)
    decreases |actions|
  {
    if actions != [] {
      var before := actions[..|actions| - 1];
      RunIsCoherent(t, idle, before);
      ApplyKeepsCoherent(t, idle, Exec(t, idle, before), actions[|actions| - 1]);
    }
  }

  // ---- Exactly when a frame is too large -----------------------------------------------------------

  /** The size of the self-loop frame of a frame with content, if nothing has to give way. */
  function LoopSize(c: Config, frame: Frame): nat
    requires frame != []
  {
    |LoopParts(c, frame).prefix| + |LoopParts(c, frame).authored|
  }

  /** The smaller of a size and a capacity. */
  function Capped(size: nat, capacity: Option<nat>): nat {
    if capacity.None? then size else Min(size, capacity.value)
  }

  /** Nothing forces the next call to compose, and since the last composition the
      capacity fell below what was composed: below the smaller of the capacity then in
      force and the size of the loop. */
  predicate LoweredUnderCache(c: Config, w: World, capacity: nat) {
    && !MustCompose(c, w.swap)
    && w.swap.current.Some? && w.swap.current.value != []
    && capacity < Capped(LoopSize(c, w.swap.current.value), w.composedUnder)
  }

  /** The display is cleared, which takes one point, on a device that takes none. */
  predicate ClearedOnNothing(w: World, capacity: nat) {
    w.swap.pending.None? && w.swap.current == Some([]) && capacity == 0
  }

  lemma FitSize(parts: Parts, capacity: Option<nat>)
    ensures |Fit(parts, capacity)| == Capped(|parts.prefix| + |parts.authored|, capacity)
  {
    if capacity.Some? {
      FitRespectsCapacity(parts, capacity.value);
    }
  }

  /** The size of what a call returns while nothing waits. */
  lemma LoopFrameSize(c: Config, current: Option<Frame>, capacity: Option<nat>)
    ensures |LoopFrame(c, current, capacity)|
         == if current.None? then 0
            else if current.value == [] then 1
            else Capped(LoopSize(c, current.value), capacity)
  {
    if current.Some? && current.value != [] {
      FitSize(LoopParts(c, current.value), capacity);
    }
  }

  /** In every run: the next hardware frame exceeds the capacity if and only if the
      capacity was lowered under the cached frame, or the display is cleared on a device
      that takes no points. */
  lemma ComposedFitsExactly(t: TransitionFn, idle: Point, actions: seq<Action>, pps: nat, capacity: nat)
    requires Exec(t, idle, actions).capacity == Some(capacity)
    ensures var w := Exec(t, idle, actions);
            var c := Config(t, idle, pps);
            |Compose(c, w.swap, w.capacity).drawable| > capacity
            <==> LoweredUnderCache(c, w, capacity) || ClearedOnNothing(w, capacity)
  {
    var w, c := Exec(t, idle, actions), Config(t, idle, pps);
    RunIsCoherent(t, idle, actions);
    if w.swap.pending.Some? {
      FitSize(ChangeParts(c, PointsOf(w.swap.current), w.swap.pending.value), w.capacity);
    } else {
      LoopFrameSize(c, w.swap.current, if MustCompose(c, w.swap) then w.capacity else w.composedUnder);
    }
  }

  /** Submit a frame of two points, compose it, lower the capacity to one: the next
      hardware frame still has two. */
  lemma LoweredCapacityOverflows(t: TransitionFn, idle: Point, p: Point)
    requires t(p, p, 1000) == Transition([])
    ensures var w := Exec(t, idle, [SubmitFrame([p, p]), ComposeAt(1000), SetCapacity(Some(1))]);
            w.capacity == Some(1) && |Compose(Config(t, idle, 1000), w.swap, Some(1)).drawable| == 2
  {
    var a, b, c := SubmitFrame([p, p]), ComposeAt(1000), SetCapacity(Some(1));
    ExecAdds(t, idle, [], a);
    ExecAdds(t, idle, [a], b);
    ExecAdds(t, idle, [a, b], c);
    assert [] + [a] == [a] && [a] + [b] == [a, b] && [a, b] + [c] == [a, b, c];
    var composed := Exec(t, idle, [a, b]);
    assert composed.swap.drawable == [] + [p, p];
  }

  lemma ExecAdds(t: TransitionFn, idle: Point, actions: seq<Action>, a: Action)
    ensures Exec(t, idle, actions + [a]) == Apply(t, idle, Exec(t, idle, actions), a)
  {
    assert (actions + [a])[..|actions|] == actions;
  }

  // ---- Callers that set it on a reset engine ---------------------------------------------------------

  /** The capacity is set only while nothing has been composed since the engine was new
      or reset, as at the start of a session and after a reconnect. */
  predicate SetsOnReset(t: TransitionFn, idle: Point, actions: seq<Action>) {
    actions != [] ==>
      var before := actions[..|actions| - 1];
      && SetsOnReset(t, idle, before)
      && (actions[|actions| - 1].SetCapacity? ==> Exec(t, idle, before).swap.composedPps.None?)
  }

  lemma {:induction false} CacheIsUnderCapacity(t: TransitionFn, idle: Point, actions: seq<Action>)
    requires SetsOnReset(t, idle, actions)
    ensures var w := Exec(t, idle, actions);
            w.swap.composedPps.Some? ==> w.composedUnder == w.capacity
    decreases |actions|
  {
    if actions != [] {
      CacheIsUnderCapacity(t, idle, actions[..|actions| - 1]);
    }
  }

  /** For such callers no hardware frame ever exceeds the capacity, except the one point
      that clears the display of a device that takes none. */
  lemma SetOnResetFits(t: TransitionFn, idle: Point, actions: seq<Action>, pps: nat, capacity: nat)
    requires SetsOnReset(t, idle, actions) && Exec(t, idle, actions).capacity == Some(capacity)
    ensures var w := Exec(t, idle, actions);
            |Compose(Config(t, idle, pps), w.swap, w.capacity).drawable| <= capacity
            || ClearedOnNothing(w, capacity)
  {
    CacheIsUnderCapacity(t, idle, actions);
    ComposedFitsExactly(t, idle, actions, pps, capacity);
  }
}
