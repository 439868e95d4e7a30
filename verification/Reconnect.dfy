/** Reopening a device with retry. Every outcome of opening, validating, connecting
    and closing, and every answer to "stop requested?", is chosen by the environment. */
module Reconnect {
  import opened Points

  const U32_MAX := 0xFFFF_FFFF

  datatype Exit = Stopped | Disconnected | IncompatibleDevice

  datatype Validation = Accepted | Rejected(exit: Exit)

  datatype Opening = OpenFailed(retriable: bool) | NoBackend | Opened(alreadyConnected: bool)

  /** What the environment does in one attempt. */
  datatype Attempt = Attempt(
    slices: nat,
    opening: Opening,
    scanned: Validation,
    connects: bool,
    connectRetriable: bool,
    modelStillFits: bool,
    closes: bool,
    closesOnRelease: bool,
    live: Validation)

  datatype Event =
    | StopQuery(stopped: bool)
    | OpenDevice(id: nat)
    | Obtained(id: nat)
    | Validated(id: nat, live: bool, accepted: bool)
    | FoundConnected(id: nat)
    | Connect(id: nat, ok: bool)
    | CloseShutter(id: nat, ok: bool)
    | Disconnect(id: nat)

  datatype Outcome = Reconnected(id: nat) | Exited(exit: Exit) | StillTrying

  // ---- What is promised about one attempt --------------------------------------------------

  /** A stop was observed during the attempt. */
  predicate StopSeen(events: seq<Event>) {
    StopQuery(true) in events
  }

  predicate Opens(events: seq<Event>, id: nat) {
    OpenDevice(id) in events
  }

  /** The backend is handed over: connected, then its shutter closed successfully, then
      validated against its live capabilities, with nothing after that. */
  predicate Ready(events: seq<Event>, id: nat) {
    var n := |events|;
    && n >= 3
    && (events[n - 3] == FoundConnected(id) || events[n - 3] == Connect(id, true))
    && events[n - 2] == CloseShutter(id, true)
    && events[n - 1] == Validated(id, true, true)
    && Disconnect(id) !in events
  }

  /** The backend is given up: a shutter close and then a disconnect are the last
      commands it gets. */
  predicate Released(events: seq<Event>, id: nat) {
    var n := |events|;
    && n >= 2
    && (events[n - 2] == CloseShutter(id, true) || events[n - 2] == CloseShutter(id, false))
    && events[n - 1] == Disconnect(id)
  }

  /** Whatever backend the attempt obtained is handed over or given up, and nothing is
      opened once a stop was observed. */
  predicate Owned(events: seq<Event>, id: nat, returned: bool) {
    && (Obtained(id) in events ==> if returned then Ready(events, id) else Released(events, id))
    && (returned ==> Obtained(id) in events)
    && (StopSeen(events) ==> !Opens(events, id) && Obtained(id) !in events)
    && (forall i :: 0 <= i < |events| && events[i].OpenDevice? ==> events[i].id == id)
    && (forall i :: 0 <= i < |events| && events[i].Obtained? ==> events[i].id == id)
  }

  /** The backend is connected, or is when asked to. */
  predicate Connects(a: Attempt) {
    a.opening.Opened? && (a.opening.alreadyConnected || a.connects)
  }

  /** The environment lets the attempt through at every point. */
  predicate Usable(a: Attempt) {
    Connects(a) && a.scanned.Accepted? && a.closes && a.live.Accepted?
  }

  /** A failure worth another attempt: the device did not open and may next time, gave no
      backend, did not connect although it still fits and may next time, or connected
      and did not close its shutter. */
  predicate Transient(a: Attempt) {
    match a.opening
    case OpenFailed(retriable) => retriable
    case NoBackend => true
    case Opened(_) =>
      a.scanned.Accepted? && if Connects(a) then !a.closes else a.modelStillFits && a.connectRetriable
  }

  /** How the session ends on any other failure: as the validator says if it rejected the
      scanned or the live device, incompatible if it did not connect and no longer fits,
      disconnected otherwise. */
  function FatalExit(a: Attempt): Exit {
    if !a.opening.Opened? then Disconnected
    else if a.scanned.Rejected? then a.scanned.exit
    else if Connects(a) then (if a.live.Rejected? then a.live.exit else Disconnected)
    else if !a.modelStillFits then IncompatibleDevice
    else Disconnected
  }

  /** What an attempt that sees no stop comes to. */
  predicate Settles(result: Option<Outcome>, a: Attempt, id: nat) {
    && (result.None? <==> Transient(a))
    && (result == Some(Reconnected(id)) <==> Usable(a))
    && (!Usable(a) && !Transient(a) ==> result == Some(Exited(FatalExit(a))))
  }

  /** `close_and_disconnect` */
  function Release(id: nat, closed: bool): seq<Event> {
    [CloseShutter(id, closed), Disconnect(id)]
  }

  /** Sleep in slices, asking for a stop before each and once more at the end. */
  method SleepWithStop(slices: nat, stops: nat -> bool, first: nat)
    returns (stopped: bool, events: seq<Event>)
    ensures stopped <==> StopSeen(events)
    ensures stopped <==> exists q :: first <= q <= first + slices && stops(q)
    ensures forall i :: 0 <= i < |events| ==> events[i] == StopQuery(stops(first + i))
    ensures !stopped ==> |events| == slices + 1
  {
    events := [];
    var i := 0;
    while i < slices
      invariant i <= slices && |events| == i
      invariant forall q :: first <= q < first + i ==> !stops(q)
      invariant forall k :: 0 <= k < i ==> events[k] == StopQuery(stops(first + k))
    {
      events := events + [StopQuery(stops(first + i))];
      if stops(first + i) {
        assert events[i] == StopQuery(true);
        return true, events;
      }
      i := i + 1;
    }
    events := events + [StopQuery(stops(first + slices))];
    stopped := stops(first + slices);
    assert events[slices] == StopQuery(stopped);
  }

  /** The device is opened after exactly `n` negative answers to "stop requested?". */
  predicate Waited(events: seq<Event>, id: nat, n: nat) {
    n < |events| && events[n] == OpenDevice(id) && forall i :: 0 <= i < n ==> events[i] == StopQuery(false)
  }

  /** Only commands to a backend and answers about it. */
  predicate Commands(events: seq<Event>) {
    forall i :: 0 <= i < |events| ==>
      !events[i].OpenDevice? && !events[i].Obtained? && !events[i].StopQuery?
  }

  /** A backend that was opened and then handed over or given up is owned. */
  lemma OwnedFromUse(used: seq<Event>, id: nat, returned: bool)
    requires Commands(used) && if returned then Ready(used, id) else Released(used, id)
    ensures var events := [OpenDevice(id), Obtained(id)] + used;
            Owned(events, id, returned) && Opens(events, id) && !StopSeen(events)
  {
    var events := [OpenDevice(id), Obtained(id)] + used;
    assert events[0] == OpenDevice(id) && events[1] == Obtained(id);
  }

  /** The part of an attempt that owns a backend. */
  method UseBackend(id: nat, a: Attempt, alreadyConnected: bool) returns (result: Option<Outcome>, events: seq<Event>)
    requires a.opening == Opened(alreadyConnected)
    ensures result.None? || result == Some(Reconnected(id)) || result.value.Exited?
    ensures Settles(result, a, id)
    ensures Commands(events)
    ensures if result == Some(Reconnected(id)) then Ready(events, id) else Released(events, id)
  {
    events := [Validated(id, false, a.scanned.Accepted?)];
    if a.scanned.Rejected? {
      return Some(Exited(a.scanned.exit)), events + Release(id, a.closesOnRelease);
    }
    if alreadyConnected {
      events := events + [FoundConnected(id)];
    } else {
      events := events + [Connect(id, a.connects)];
      if !a.connects {
        events := events + Release(id, a.closesOnRelease);
        if !a.modelStillFits {
          return Some(Exited(IncompatibleDevice)), events;
        }
        if !a.connectRetriable {
          return Some(Exited(Disconnected)), events;
        }
        return None, events;
      }
    }
    events := events + [CloseShutter(id, a.closes)];
    if !a.closes {
      return None, events + Release(id, a.closesOnRelease);
    }
    events := events + [Validated(id, true, a.live.Accepted?)];
    if a.live.Rejected? {
      return Some(Exited(a.live.exit)), events + Release(id, a.closesOnRelease);
    }
    result := Some(Reconnected(id));
  }

  /** One pass of the retry loop after its limit check: `None` means try again. */
  method TryOnce(id: nat, a: Attempt, waits: bool, stops: nat -> bool, first: nat)
    returns (result: Option<Outcome>, events: seq<Event>)
    ensures result.None? || result == Some(Reconnected(id)) || result.value.Exited?
    ensures Owned(events, id, result == Some(Reconnected(id)))
    ensures result.None? ==> Opens(events, id)
    ensures StopSeen(events) ==> result == Some(Exited(Stopped))
    ensures StopSeen(events) ==> exists q :: stops(q)
    ensures !StopSeen(events) ==> Settles(result, a, id)
    ensures !StopSeen(events) ==> Waited(events, id, if waits then a.slices + 1 else 0)
  {
    events := [];
    if waits {
      var stopped, asked := SleepWithStop(a.slices, stops, first);
      if stopped {
        return Some(Exited(Stopped)), asked;
      }
      events := asked;
    }
    ghost var asked := events;
    match a.opening {
      case OpenFailed(retriable) =>
        events := events + [OpenDevice(id)];
        assert events[|asked|] == OpenDevice(id);
        result := if retriable then None else Some(Exited(Disconnected));
      case NoBackend =>
        events := events + [OpenDevice(id)];
        assert events[|asked|] == OpenDevice(id);
        result := None;
      case Opened(connected) =>
        var used;
        result, used := UseBackend(id, a, connected);
        var own := [OpenDevice(id), Obtained(id)] + used;
        OwnedFromUse(used, id, result == Some(Reconnected(id)));
        OwnedAfterQueries(asked, own, id, result == Some(Reconnected(id)));
        events := events + own;
        assert events[|asked|] == own[0];
    }
  }

  /** Stop queries that came out negative do not affect ownership. */
  lemma OwnedAfterQueries(asked: seq<Event>, own: seq<Event>, id: nat, returned: bool)
    requires forall i :: 0 <= i < |asked| ==> asked[i] == StopQuery(false)
    requires Owned(own, id, returned)
    ensures Owned(asked + own, id, returned)
    ensures StopSeen(asked + own) == StopSeen(own) && Opens(asked + own, id) == Opens(own, id)
  {
    assert forall e :: e in asked + own <==> e in asked || e in own;
  }

  // ---- The retry loop ------------------------------------------------------------------------

  /** How many attempts went as far as opening the device. */
  function OpenCount(attempts: seq<seq<Event>>): nat {
    if attempts == [] then 0
    else
      var i := |attempts| - 1;
      OpenCount(attempts[..i]) + (if Opens(attempts[i], i) then 1 else 0)
  }

  lemma {:induction false} OpenCountBound(attempts: seq<seq<Event>>)
    ensures OpenCount(attempts) <= |attempts|
    decreases |attempts|
  {
    if attempts != [] {
      OpenCountBound(attempts[..|attempts| - 1]);
    }
  }

  /** Attempts that were followed by another: each opened the device, saw no stop, and
      gave up whatever it obtained. */
  predicate AllFailed(attempts: seq<seq<Event>>) {
    forall i :: 0 <= i < |attempts| ==>
      Opens(attempts[i], i) && !StopSeen(attempts[i]) && Owned(attempts[i], i, false)
  }

  /** Everything the caller can rely on, for any environment. */
  predicate Kept(outcome: Outcome, attempts: seq<seq<Event>>, maxRetries: Option<nat>) {
    && (forall i :: 0 <= i < |attempts| ==> Owned(attempts[i], i, outcome == Reconnected(i)))
    && (outcome.Reconnected? ==> outcome.id < |attempts|)
    && (maxRetries.Some? ==> OpenCount(attempts) <= maxRetries.value)
    && (forall i :: 0 <= i < |attempts| && StopSeen(attempts[i]) ==>
          i == |attempts| - 1 && outcome == Exited(Stopped))
  }

  /** How often an attempt asks for a stop before it opens: once, and through the backoff
      once before each slice and once at the end. */
  function Asked(waits: bool, a: Attempt): nat {
    1 + (if waits then a.slices + 1 else 0)
  }

  /** Every attempt but the first was preceded by the whole backoff, and so was the first
      if the device is flapping. */
  predicate BackedOff(attempts: seq<seq<Event>>, env: nat -> Attempt, flapping: bool) {
    forall i :: 0 <= i < |attempts| && Opens(attempts[i], i) ==>
      Waited(attempts[i], i, Asked(i > 0 || flapping, env(i)))
  }

  /** The loop comes to attempt `k`: it is within the limit and all before it failed in a
      way worth another attempt. */
  predicate Reaches(maxRetries: Option<nat>, env: nat -> Attempt, k: nat) {
    (maxRetries.Some? ==> k < maxRetries.value) && forall i :: 0 <= i < k ==> Transient(env(i))
  }

  /** What the loop comes to if nobody asks for a stop: the first attempt that is not a
      transient failure decides, if the limit is not reached before. */
  ghost predicate Decided(outcome: Outcome, maxRetries: Option<nat>, env: nat -> Attempt, horizon: nat) {
    && (forall k: nat :: k < horizon && Reaches(maxRetries, env, k) && !Transient(env(k)) ==>
          outcome == if Usable(env(k)) then Reconnected(k) else Exited(FatalExit(env(k))))
    && (maxRetries.Some? && maxRetries.value < horizon
        && (forall i :: 0 <= i < maxRetries.value ==> Transient(env(i))) ==>
          outcome == Exited(Disconnected))
  }

  /** The first attempt that is not a transient failure is the only one that can decide. */
  lemma FirstDecides(outcome: Outcome, maxRetries: Option<nat>, env: nat -> Attempt, horizon: nat, id: nat)
    requires forall i :: 0 <= i < id ==> Transient(env(i))
    requires maxRetries.Some? ==> id < maxRetries.value
    requires !Transient(env(id))
    requires outcome == if Usable(env(id)) then Reconnected(id) else Exited(FatalExit(env(id)))
    ensures Decided(outcome, maxRetries, env, horizon)
  {
    forall k: nat | k < horizon && Reaches(maxRetries, env, k) && !Transient(env(k))
      ensures outcome == if Usable(env(k)) then Reconnected(k) else Exited(FatalExit(env(k)))
    {
      assert k == id;
    }
  }

  /** Failed attempts followed by one that ends the loop. */
  lemma LastAttempt(attempts: seq<seq<Event>>, events: seq<Event>, outcome: Outcome, maxRetries: Option<nat>)
    requires AllFailed(attempts) && !outcome.StillTrying?
    requires outcome.Reconnected? ==> outcome.id == |attempts|
    requires Owned(events, |attempts|, outcome == Reconnected(|attempts|))
    requires StopSeen(events) ==> outcome == Exited(Stopped)
    requires maxRetries.Some? ==>
               |attempts| + (if Opens(events, |attempts|) then 1 else 0) <= maxRetries.value
    ensures Kept(outcome, attempts + [events], maxRetries)
  {
    OpenCountBound(attempts);
    assert (attempts + [events])[..|attempts|] == attempts;
  }

  /** One more attempt that waited as it should. */
  lemma BacksOffNext(attempts: seq<seq<Event>>, events: seq<Event>, env: nat -> Attempt, flapping: bool)
    requires BackedOff(attempts, env, flapping)
    requires var i := |attempts|;
             Opens(events, i) ==> Waited(events, i, Asked(i > 0 || flapping, env(i)))
    ensures BackedOff(attempts + [events], env, flapping)
  {
    var more := attempts + [events];
    forall i | 0 <= i < |more| && Opens(more[i], i)
      ensures Waited(more[i], i, Asked(i > 0 || flapping, env(i)))
    {
      assert i < |attempts| ==> more[i] == attempts[i];
    }
  }

  /** One pass of the retry loop: asked to stop, out of retries, or an attempt. */
  method Round(id: nat, exhausted: bool, a: Attempt, waits: bool, stops: nat -> bool, first: nat)
    returns (result: Option<Outcome>, events: seq<Event>)
    ensures result.None? || result == Some(Reconnected(id)) || result.value.Exited?
    ensures Owned(events, id, result == Some(Reconnected(id)))
    ensures Opens(events, id) ==> !exhausted && Waited(events, id, Asked(waits, a))
    ensures result.None? ==> Opens(events, id) && !StopSeen(events)
    ensures StopSeen(events) ==> result == Some(Exited(Stopped)) && exists q :: stops(q)
    ensures !StopSeen(events) ==>
              if exhausted then result == Some(Exited(Disconnected)) else Settles(result, a, id)
  {
    if stops(first) {
      return Some(Exited(Stopped)), [StopQuery(true)];
    }
    if exhausted {
      return Some(Exited(Disconnected)), [StopQuery(false)];
    }
    var tried;
    result, tried := TryOnce(id, a, waits, stops, first + 1);
    OwnedAfterQueries([StopQuery(false)], tried, id, result == Some(Reconnected(id)));
    events := [StopQuery(false)] + tried;
  }

  /** Reopen, validate and connect with retry. For every environment: each backend that
      was obtained is the one returned, in a safe state, or had its shutter closed and
      its connection dropped; opens stay within the limit; none follows an observed
      stop; and with a limit set the loop ends. The loop is watched for `horizon`
      passes; `StillTrying` means that it would go on. */
  method ReconnectWithRetry(maxRetries: Option<nat>, flapping: bool, env: nat -> Attempt,
                            stops: nat -> bool, horizon: nat)
    returns (outcome: Outcome, attempts: seq<seq<Event>>)
    requires maxRetries.Some? ==> maxRetries.value <= U32_MAX
    ensures Kept(outcome, attempts, maxRetries)
    ensures outcome.Reconnected? ==>
              Usable(env(outcome.id)) && forall i :: 0 <= i < outcome.id ==> Transient(env(i))
    ensures (forall q :: !stops(q)) ==> Decided(outcome, maxRetries, env, horizon)
    ensures BackedOff(attempts, env, flapping)
    ensures maxRetries.Some? && horizon > maxRetries.value ==> !outcome.StillTrying?
  {
    attempts := [];
    var retries: nat, queries: nat := 0, 0;
    while |attempts| < horizon
      invariant AllFailed(attempts) && |attempts| <= horizon
      invariant forall i :: 0 <= i < |attempts| ==> Transient(env(i))
      invariant BackedOff(attempts, env, flapping)
      invariant retries == (if |attempts| <= U32_MAX then |attempts| else U32_MAX)
      invariant maxRetries.Some? ==> retries <= maxRetries.value && |attempts| == retries
    {
      var id := |attempts|;
      var exhausted := maxRetries.Some? && retries >= maxRetries.value;
      var result, events := Round(id, exhausted, env(id), retries > 0 || flapping, stops, queries);
      queries := queries + |events|;
      BacksOffNext(attempts, events, env, flapping);
      if result.Some? {
        LastAttempt(attempts, events, result.value, maxRetries);
        if !StopSeen(events) && !exhausted {
          FirstDecides(result.value, maxRetries, env, horizon, id);
        }
        return result.value, attempts + [events];
      }
      attempts := attempts + [events];
      retries := if retries < U32_MAX then retries + 1 else U32_MAX;
    }
    outcome := StillTrying;
    OpenCountBound(attempts);
  }
}
