/** The dual-track estimator for UDP-acknowledged devices: one estimate anchored on
    the last send, one on the last ACK, and the larger of the two reported. */
module DualTrack {
  import opened Points
  import opened LeakyBucket
  import opened Repricing

  const U16_MAX := 0xFFFF
  const LATENCY_POINT_ADJUSTMENT := 300
  const STALE_ENTRY_TIMEOUT := 10.0

  /** The estimator's fields as a value. */
  datatype Tracks = Tracks(
    capacity: nat,
    rate: nat,
    sentTime: Option<real>,
    sentSize: nat,
    ackTime: Option<real>,
    ackFullness: nat,
    messages: map<int, real>)

  function NewTracks(capacity: nat, rate: nat): Tracks {
    Tracks(capacity, rate, None, 0, None, 0, map[])
  }

  /** Points consumed since an anchor: a cast that truncates and saturates at 16 bits. */
  function Consumed(elapsed: real, rate: nat): (points: nat)
    requires elapsed >= 0.0
    ensures points <= U16_MAX
  {
    var whole := Whole(Played(elapsed, rate));
    WholeNonnegative(Played(elapsed, rate));
    if whole <= U16_MAX then whole else U16_MAX
  }

  function Track(anchor: Option<real>, size: nat, rate: nat, now: real): nat {
    if anchor.None? then 0 else MinusNat(size, Consumed(Since(now, anchor.value), rate))
  }

  function BySent(s: Tracks, now: real): nat {
    Track(s.sentTime, s.sentSize, s.rate, now)
  }

  function ByAck(s: Tracks, now: real): nat {
    Track(s.ackTime, s.ackFullness, s.rate, now)
  }

  function Estimate(s: Tracks, now: real): (points: nat)
    ensures points >= BySent(s, now) && points >= ByAck(s, now)
    ensures points == BySent(s, now) || points == ByAck(s, now)
  {
    if BySent(s, now) >= ByAck(s, now) then BySent(s, now) else ByAck(s, now)
  }

  function MaxPointsToAdd(s: Tracks, now: real): nat {
    MinusNat(MinusNat(s.capacity, Estimate(s, now)), LATENCY_POINT_ADJUSTMENT)
  }

  function AfterSend(s: Tracks, now: real, message: int, points: nat): Tracks {
    s.(sentTime := Some(now),
       sentSize := Min(Min(Estimate(s, now) + points, U16_MAX), s.capacity),
       messages := s.messages[message := now])
  }

  function Kept(messages: map<int, real>, now: real): map<int, real> {
    map m | m in messages && Since(now, messages[m]) < STALE_ENTRY_TIMEOUT :: messages[m]
  }

  /** An ACK re-anchors the sent track only if it answers a send no older than it. */
  predicate Reanchors(s: Tracks, message: int) {
    message in s.messages && (s.sentTime.None? || s.messages[message] >= s.sentTime.value)
  }

  function AfterAck(s: Tracks, now: real, message: int, freeSpace: nat): Tracks {
    var reported := MinusNat(s.capacity, freeSpace);
    var u := if Reanchors(s, message)
             then s.(sentTime := Some(s.messages[message]), sentSize := reported) else s;
    u.(ackTime := Some(now), ackFullness := reported,
       messages := Kept(s.messages - {message}, now))
  }

  class DualTrackAckEstimator {
    var state: Tracks

    constructor (capacity: nat, rate: nat)
      requires capacity <= U16_MAX
      ensures state == NewTracks(capacity, rate)
    {
      state := NewTracks(capacity, rate);
    }

    method SetPointRate(rate: nat)
      modifies this
      ensures state == old(state).(rate := rate)
    {
      state := state.(rate := rate);
    }

    method Reset()
      modifies this
      ensures state == NewTracks(old(state).capacity, old(state).rate)
    {
      state := state.(sentTime := None, sentSize := 0, ackTime := None, ackFullness := 0, messages := map[]);
    }

    method RecordSend(now: real, message: int, points: nat)
      modifies this
      ensures state == AfterSend(old(state), now, message, points)
    {
      var fullness := Estimate(state, now);
      var size := if fullness + points <= U16_MAX then fullness + points else U16_MAX;
      state := state.(sentTime := Some(now),
                      sentSize := if size <= state.capacity then size else state.capacity);
      state := state.(messages := state.messages[message := now]);
    }

    method RecordAck(now: real, message: int, freeSpace: nat)
      modifies this
      ensures state == AfterAck(old(state), now, message, freeSpace)
    {
      var reported := MinusNat(state.capacity, freeSpace);
      if message in state.messages {
        var sendTime := state.messages[message];
        if state.sentTime.None? || sendTime >= state.sentTime.value {
          state := state.(sentTime := Some(sendTime), sentSize := reported);
        }
        state := state.(messages := state.messages - {message});
      } else {
        assert state.messages - {message} == state.messages;
      }
      state := state.(ackTime := Some(now), ackFullness := reported);
      state := state.(messages := Kept(state.messages, now));
    }
  }

  // ---- What every sequence of calls keeps --------------------------------------------------

  /** Both tracks within the device's capacity; every remembered send no later than the
      anchor of the sent track; nothing dated after `now`. */
  predicate Valid(s: Tracks, now: real) {
    && s.capacity <= U16_MAX
    && s.sentSize <= s.capacity && s.ackFullness <= s.capacity
    && (s.sentTime.Some? ==> s.sentTime.value <= now)
    && (s.ackTime.Some? ==> s.ackTime.value <= now)
    && (forall m :: m in s.messages ==> s.sentTime.Some? && s.messages[m] <= s.sentTime.value)
  }

  lemma SendKeepsValid(s: Tracks, before: real, now: real, message: int, points: nat)
    requires Valid(s, before) && before <= now
    ensures Valid(AfterSend(s, now, message, points), now)
  {
  }

  lemma AckKeepsValid(s: Tracks, before: real, now: real, message: int, freeSpace: nat)
    requires Valid(s, before) && before <= now
    ensures Valid(AfterAck(s, now, message, freeSpace), now)
  {
  }

  /** In a valid state an ACK can only re-anchor at the time of the latest send: the
      answer to an older message never moves the sent track. */
  lemma OnlyLatestReanchors(s: Tracks, now: real, message: int)
    requires Valid(s, now)
    ensures Reanchors(s, message) <==> message in s.messages && Some(s.messages[message]) == s.sentTime
  {
  }

  // ---- Domination ------------------------------------------------------------------------------

  /** Whole points of two stretches never exceed those of both together. */
  lemma ConsumedSuperadditive(a: real, b: real, rate: nat)
    requires a >= 0.0 && b >= 0.0
    ensures Consumed(a + b, rate) == U16_MAX || Consumed(a + b, rate) >= Consumed(a, rate) + Consumed(b, rate)
  {
    PlayedAdds(a, b, rate);
    WholeBounds(Played(a, rate));
    WholeBounds(Played(b, rate));
    WholeBounds(Played(a + b, rate));
    WholeNonnegative(Played(a, rate));
    WholeNonnegative(Played(b, rate));
  }

  /** A track read after a pause is at most what it was, less what the pause consumed. */
  lemma TrackDecays(anchor: Option<real>, size: nat, rate: nat, from: real, to: real)
    requires size <= U16_MAX && from <= to
    requires anchor.Some? ==> anchor.value <= from
    ensures Track(anchor, size, rate, to)
         <= MinusNat(Track(anchor, size, rate, from), Consumed(to - from, rate))
  {
    if anchor.Some? {
      ConsumedSuperadditive(from - anchor.value, to - from, rate);
      assert Since(to, anchor.value) == (from - anchor.value) + (to - from);
    }
  }

  /** From a send until the next ACK the sent track is the estimate: at every later
      moment, at an unchanged rate, it is at least the ACK track. */
  lemma SendDominates(s: Tracks, now: real, message: int, points: nat, later: real)
    requires Valid(s, now) && now <= later
    ensures var t := AfterSend(s, now, message, points);
            ByAck(t, later) <= BySent(t, later) == Estimate(t, later) <= t.capacity
  {
    TrackDecays(s.ackTime, s.ackFullness, s.rate, now, later);
  }

  /** With no send or ACK in between, the estimate only falls. */
  lemma EstimateFalls(s: Tracks, now: real, later: real)
    requires Valid(s, now) && now <= later
    ensures Estimate(s, later) <= Estimate(s, now)
  {
    TrackDecays(s.sentTime, s.sentSize, s.rate, now, later);
    TrackDecays(s.ackTime, s.ackFullness, s.rate, now, later);
  }

  /** Sending no more than allowed is accounted for in full and leaves the margin. */
  lemma AllowedSendFits(s: Tracks, now: real, message: int, points: nat)
    requires Valid(s, now) && points <= MaxPointsToAdd(s, now)
    ensures Estimate(AfterSend(s, now, message, points), now) == Estimate(s, now) + points
    ensures points > 0 ==>
              Estimate(AfterSend(s, now, message, points), now) + LATENCY_POINT_ADJUSTMENT <= s.capacity
  {
    SendDominates(s, now, message, points, now);
    EstimateFalls(s, now, now);
    assert Played(0.0, s.rate) == 0.0;
  }

  /** Exactly what keeps the margin is allowed: one point more would break it. */
  lemma AllowedExactly(s: Tracks, now: real, points: nat)
    ensures points <= MaxPointsToAdd(s, now) <==> points == 0 || Estimate(s, now) + points + 300 <= s.capacity
  {
  }

  /** The answer to the latest send puts both tracks on what the device reported: the sent
      track at the time of that send, the ACK track now. */
  lemma AckOfLatestSend(s: Tracks, now: real, message: int, points: nat, later: real, free: nat)
    requires Valid(s, now) && now <= later && free <= s.capacity
    ensures var t := AfterAck(AfterSend(s, now, message, points), later, message, free);
            && t.sentTime == Some(now) && t.ackTime == Some(later)
            && t.sentSize == t.ackFullness == s.capacity - free
            && Estimate(t, later) == s.capacity - free
  {
    assert Played(0.0, s.rate) == 0.0;
  }

  /** An ACK forgets its own message and those sent ten seconds ago or earlier, and no other. */
  lemma AckForgets(s: Tracks, now: real, message: int, free: nat, m: int)
    ensures var left := AfterAck(s, now, message, free).messages;
            && (m in left <==> m in s.messages && m != message && s.messages[m] > now - 10.0)
            && (m in left ==> left[m] == s.messages[m])
  {
  }

  // ---- Whole runs --------------------------------------------------------------------------------

  datatype Call = SendCall(time: real, message: int, points: nat) | AckCall(time: real, message: int, free: nat)

  function AfterCalls(s: Tracks, calls: seq<Call>): Tracks {
    if calls == [] then s
    else
      var u := AfterCalls(s, calls[..|calls| - 1]);
      match calls[|calls| - 1]
      case SendCall(time, message, points) => AfterSend(u, time, message, points)
      case AckCall(time, message, free) => AfterAck(u, time, message, free)
  }

  function LastCall(start: real, calls: seq<Call>): real {
    if calls == [] then start else calls[|calls| - 1].time
  }

  predicate CallsInOrder(start: real, calls: seq<Call>) {
    calls != [] ==>
      var before := calls[..|calls| - 1];
      CallsInOrder(start, before) && LastCall(start, before) <= calls[|calls| - 1].time
  }

  lemma {:induction false} CallsKeepValid(s: Tracks, start: real, calls: seq<Call>)
    requires Valid(s, start) && CallsInOrder(start, calls)
    ensures Valid(AfterCalls(s, calls), LastCall(start, calls))
    ensures AfterCalls(s, calls).rate == s.rate && AfterCalls(s, calls).capacity == s.capacity
    decreases |calls|
  {
    if calls != [] {
      var before := calls[..|calls| - 1];
      CallsKeepValid(s, start, before);
      match calls[|calls| - 1]
      case SendCall(time, message, points) =>
        SendKeepsValid(AfterCalls(s, before), LastCall(start, before), time, message, points);
      case AckCall(time, message, free) =>
        AckKeepsValid(AfterCalls(s, before), LastCall(start, before), time, message, free);
    }
  }

  /** In every run at a fixed rate: both tracks stay within capacity at all times, and
      after a send the sent track is what is reported until an ACK arrives. */
  lemma RunIsConservative(capacity: nat, rate: nat, start: real, calls: seq<Call>, now: real)
    requires capacity <= U16_MAX && CallsInOrder(start, calls) && LastCall(start, calls) <= now
    ensures var s := AfterCalls(NewTracks(capacity, rate), calls);
            && BySent(s, now) <= capacity && ByAck(s, now) <= capacity
            && (calls != [] && calls[|calls| - 1].SendCall? ==>
                  ByAck(s, now) <= BySent(s, now) == Estimate(s, now))
  {
    var first := NewTracks(capacity, rate);
    CallsKeepValid(first, start, calls);
    if calls != [] && calls[|calls| - 1].SendCall? {
      var before, last := calls[..|calls| - 1], calls[|calls| - 1];
      CallsKeepValid(first, start, before);
      var u := AfterCalls(first, before);
      assert Valid(u, last.time);
      SendDominates(u, last.time, last.message, last.points, now);
    }
  }

  // ---- Against the device's bucket -------------------------------------------------------------------

  /** The bucket when `n` points are added; what does not fit is lost. */
  function Topped(b: Bucket, now: real, n: nat, rate: nat, capacity: nat): Bucket {
    var level := Drained(b, now, rate) + n as real;
    Bucket(if level <= capacity as real then level else capacity as real, now)
  }

  /** The device after the sends of a run, each of which takes `delay` to arrive. */
  function Arrived(capacity: nat, rate: nat, start: real, calls: seq<Call>, delay: real): Bucket {
    if calls == [] then Bucket(0.0, start + delay)
    else
      var b := Arrived(capacity, rate, start, calls[..|calls| - 1], delay);
      match calls[|calls| - 1]
      case SendCall(time, _, points) => Topped(b, time + delay, points, rate, capacity)
      case AckCall(_, _, _) => b
  }

  /** An ACK that re-anchors the sent track answers the latest send, and reports no less
      than what the device held when that send arrived. */
  predicate Honest(capacity: nat, rate: nat, start: real, calls: seq<Call>, delay: real) {
    calls != [] ==>
      var before := calls[..|calls| - 1];
      && Honest(capacity, rate, start, before, delay)
      && (match calls[|calls| - 1]
          case SendCall(_, _, _) => true
          case AckCall(_, message, free) =>
            Reanchors(AfterCalls(NewTracks(capacity, rate), before), message) ==>
              Arrived(capacity, rate, start, before, delay).level <= MinusNat(capacity, free) as real)
  }

  /** Delay only shifts the device's history. */
  lemma {:induction false} DelayShifts(capacity: nat, rate: nat, start: real, calls: seq<Call>, delay: real)
    ensures var here, there := Arrived(capacity, rate, start, calls, 0.0), Arrived(capacity, rate, start, calls, delay);
            there.level == here.level && there.at == here.at + delay
    decreases |calls|
  {
    if calls != [] {
      DelayShifts(capacity, rate, start, calls[..|calls| - 1], delay);
    }
  }

  /** The sent track is anchored where the undelayed bucket is, and not below it. */
  predicate SentCovers(s: Tracks, b: Bucket) {
    && 0.0 <= b.level <= s.capacity as real
    && (s.sentTime.None? ==> b.level == 0.0)
    && (s.sentTime.Some? ==> s.sentTime.value == b.at && b.level <= s.sentSize as real)
  }

  lemma SentReadCovers(s: Tracks, b: Bucket, now: real)
    requires SentCovers(s, b) && s.sentSize <= U16_MAX && b.at <= now
    ensures Drained(b, now, s.rate) <= Estimate(s, now) as real
  {
    if s.sentTime.Some? {
      WholeBounds(Played(Since(now, b.at), s.rate));
      WholeNonnegative(Played(Since(now, b.at), s.rate));
    }
  }

  lemma SendKeepsCovering(s: Tracks, b: Bucket, now: real, message: int, points: nat)
    requires SentCovers(s, b) && s.capacity <= U16_MAX && s.sentSize <= s.capacity && b.at <= now
    ensures SentCovers(AfterSend(s, now, message, points), Topped(b, now, points, s.rate, s.capacity))
  {
    SentReadCovers(s, b, now);
  }

  lemma AckKeepsCovering(s: Tracks, b: Bucket, now: real, message: int, free: nat)
    requires SentCovers(s, b) && Valid(s, now)
    requires Reanchors(s, message) ==> b.level <= MinusNat(s.capacity, free) as real
    ensures SentCovers(AfterAck(s, now, message, free), b)
  {
    OnlyLatestReanchors(s, now, message);
  }

  lemma {:induction false} RunCovers(capacity: nat, rate: nat, start: real, calls: seq<Call>, delay: real)
    requires capacity <= U16_MAX && CallsInOrder(start, calls) && Honest(capacity, rate, start, calls, delay)
    ensures var s, b := AfterCalls(NewTracks(capacity, rate), calls), Arrived(capacity, rate, start, calls, 0.0);
            && SentCovers(s, b) && b.at <= LastCall(start, calls)
            && Valid(s, LastCall(start, calls)) && s.rate == rate && s.capacity == capacity
    decreases |calls|
  {
    CallsKeepValid(NewTracks(capacity, rate), start, calls);
    if calls != [] {
      var before := calls[..|calls| - 1];
      RunCovers(capacity, rate, start, before, delay);
      var s, b := AfterCalls(NewTracks(capacity, rate), before), Arrived(capacity, rate, start, before, 0.0);
      match calls[|calls| - 1]
      case SendCall(time, message, points) => SendKeepsCovering(s, b, time, message, points);
      case AckCall(time, message, free) =>
        DelayShifts(capacity, rate, start, before, delay);
        AckKeepsCovering(s, b, time, message, free);
    }
  }

  /** A bucket that more is added to later never holds less. */
  lemma {:induction false} MoreCallsMore(capacity: nat, rate: nat, start: real, calls: seq<Call>, k: nat, now: real)
    requires k <= |calls| && CallsInOrder(start, calls) && LastCall(start, calls) <= now
    ensures Arrived(capacity, rate, start, calls, 0.0).at <= LastCall(start, calls)
    ensures 0.0 <= Arrived(capacity, rate, start, calls[..k], 0.0).level <= capacity as real
    ensures Drained(Arrived(capacity, rate, start, calls[..k], 0.0), now, rate)
         <= Drained(Arrived(capacity, rate, start, calls, 0.0), now, rate)
    decreases |calls|
  {
    if calls != [] {
      var before, last := calls[..|calls| - 1], calls[|calls| - 1];
      if k < |calls| {
        assert before[..k] == calls[..k];
        MoreCallsMore(capacity, rate, start, before, k, now);
      }
      MoreCallsMore(capacity, rate, start, before, |before|, now);
      assert before[..|before|] == before;
      if k == |calls| {
        assert calls[..k] == calls;
      } else if last.SendCall? {
        ToppingAdds(Arrived(capacity, rate, start, before, 0.0), last.time, last.points, rate, capacity, now);
        assert last.time + 0.0 == last.time;
      }
    }
  }

  lemma ToppingAdds(b: Bucket, time: real, points: nat, rate: nat, capacity: nat, now: real)
    requires b.at <= time <= now && 0.0 <= b.level <= capacity as real
    ensures Drained(b, now, rate) <= Drained(Topped(b, time, points, rate, capacity), now, rate)
  {
    PlayedAdds(Since(time, b.at), Since(now, time), rate);
  }

  /** In every run at a fixed rate with honest ACKs, whatever is lost of them: the device,
      which has received only the first `k` calls' sends by now, holds at most what the
      estimator reports plus what the rate plays in one delay. */
  lemma LagBound(capacity: nat, rate: nat, start: real, calls: seq<Call>, delay: real, k: nat, now: real)
    requires capacity <= U16_MAX && delay >= 0.0 && k <= |calls|
    requires CallsInOrder(start, calls) && Honest(capacity, rate, start, calls, delay)
    requires LastCall(start, calls) <= now && LastCall(start, calls[..k]) + delay <= now
    ensures Drained(Arrived(capacity, rate, start, calls[..k], delay), now, rate)
         <= Estimate(AfterCalls(NewTracks(capacity, rate), calls), now) as real + Played(delay, rate)
  {
    var first, all := Arrived(capacity, rate, start, calls[..k], 0.0), Arrived(capacity, rate, start, calls, 0.0);
    DelayShifts(capacity, rate, start, calls[..k], delay);
    MoreCallsMore(capacity, rate, start, calls, k, now);
    RunCovers(capacity, rate, start, calls, delay);
    SentReadCovers(AfterCalls(NewTracks(capacity, rate), calls), all, now);
    PrefixInOrder(start, calls, k);
    MoreCallsMore(capacity, rate, start, calls[..k], k, now);
    ReadLater(first, delay, now, rate);
  }

  /** A bucket that everything reaches later holds at most what leaks meanwhile more. */
  lemma ReadLater(b: Bucket, delay: real, now: real, rate: nat)
    requires delay >= 0.0 && b.at + delay <= now && b.level >= 0.0
    ensures Drained(Bucket(b.level, b.at + delay), now, rate) <= Drained(b, now, rate) + Played(delay, rate)
  {
    PlayedAdds(Since(now, b.at + delay), delay, rate);
  }

  lemma {:induction false} PrefixInOrder(start: real, calls: seq<Call>, k: nat)
    requires k <= |calls| && CallsInOrder(start, calls)
    ensures CallsInOrder(start, calls[..k]) && LastCall(start, calls[..k]) <= LastCall(start, calls)
    decreases |calls|
  {
    if k < |calls| {
      PrefixInOrder(start, calls[..|calls| - 1], k);
      assert calls[..|calls| - 1][..k] == calls[..k];
    } else {
      assert calls[..k] == calls;
    }
  }

  /** A send within the allowance loses nothing at the device and leaves the latency
      margin free there, whatever the delay. */
  lemma AllowedSendIsNotLost(capacity: nat, rate: nat, start: real, calls: seq<Call>, delay: real, now: real,
                             message: int, points: nat)
    requires capacity <= U16_MAX && CallsInOrder(start, calls) && Honest(capacity, rate, start, calls, delay)
    requires LastCall(start, calls) <= now && points > 0
    requires points <= MaxPointsToAdd(AfterCalls(NewTracks(capacity, rate), calls), now)
    ensures Arrived(capacity, rate, start, calls + [SendCall(now, message, points)], delay).level
         == Drained(Arrived(capacity, rate, start, calls, delay), now + delay, rate) + points as real
         <= (capacity - LATENCY_POINT_ADJUSTMENT) as real
  {
    var send := SendCall(now, message, points);
    assert (calls + [send])[..|calls|] == calls;
    RunCovers(capacity, rate, start, calls, delay);
    SentReadCovers(AfterCalls(NewTracks(capacity, rate), calls), Arrived(capacity, rate, start, calls, 0.0), now);
    DelayShifts(capacity, rate, start, calls, delay);
  }

  // ---- A change of rate ------------------------------------------------------------------------------

  /** The undelayed bucket at the moment the rate changes. */
  function AtChange(capacity: nat, rate: nat, start: real, calls: seq<Call>, change: real): Bucket {
    Bucket(Drained(Arrived(capacity, rate, start, calls, 0.0), change, rate), change)
  }

  predicate ReadsLow(s: Tracks, b: Bucket, now: real) {
    b.at <= now && (Estimate(s, now) as real) < Drained(b, now, s.rate)
  }

  ghost predicate CanReadLow(s: Tracks, b: Bucket) {
    exists now :: ReadsLow(s, b, now)
  }

  /** A lower rate prices the time since the anchors lower: in every run the estimate still
      covers the bucket. */
  lemma RateDropIsSafe(capacity: nat, rate: nat, start: real, calls: seq<Call>, delay: real, change: real,
                       lower: nat, now: real)
    requires capacity <= U16_MAX && CallsInOrder(start, calls) && Honest(capacity, rate, start, calls, delay)
    requires LastCall(start, calls) <= change <= now && lower <= rate
    ensures Drained(AtChange(capacity, rate, start, calls, change), now, lower)
         <= Estimate(AfterCalls(NewTracks(capacity, rate), calls).(rate := lower), now) as real
  {
    RunCovers(capacity, rate, start, calls, delay);
    var s, b := AfterCalls(NewTracks(capacity, rate), calls), Arrived(capacity, rate, start, calls, 0.0);
    SlowerCountsLess(Since(change, b.at), lower, rate);
    PlayedAdds(Since(change, b.at), Since(now, change), lower);
    SentReadCovers(s.(rate := lower), b, now);
  }

  /** At a higher rate a track decays at least as much. */
  lemma FasterConsumesMore(anchor: Option<real>, size: nat, slow: nat, fast: nat, now: real)
    requires slow <= fast
    ensures Track(anchor, size, fast, now) <= Track(anchor, size, slow, now)
  {
    if anchor.Some? {
      SlowerCountsLess(Since(now, anchor.value), slow, fast);
      WholeBounds(Played(Since(now, anchor.value), slow));
      WholeBounds(Played(Since(now, anchor.value), fast));
    }
  }

  /** A rise does not end the domination of the sent track. */
  lemma RiseKeepsDomination(s: Tracks, now: real, message: int, points: nat, higher: nat, later: real)
    requires Valid(s, now) && now <= later && s.rate <= higher
    ensures var t := AfterSend(s, now, message, points).(rate := higher);
            ByAck(t, later) <= BySent(t, later) == Estimate(t, later)
  {
    FasterConsumesMore(s.ackTime, s.ackFullness, s.rate, higher, now);
    TrackDecays(s.ackTime, s.ackFullness, higher, now, later);
  }

  lemma SentIsEstimated(size: nat, anchor: real, now: real, rate: nat)
    requires size <= U16_MAX
    ensures Track(Some(anchor), size, rate, now) as real == Estimated(size, anchor, now, rate)
  {
    WholeNonnegative(Played(Since(now, anchor), rate));
  }

  /** After every run that ends with a send, a rise of the rate: some reading is below the
      bucket if and only if the time since the send, priced anew, costs more than the
      estimate has in excess. */
  lemma RateRiseExactly(capacity: nat, rate: nat, start: real, calls: seq<Call>, delay: real, change: real, higher: nat)
    requires capacity <= U16_MAX && CallsInOrder(start, calls) && Honest(capacity, rate, start, calls, delay)
    requires calls != [] && calls[|calls| - 1].SendCall?
    requires LastCall(start, calls) <= change && rate <= higher
    ensures var s, b := AfterCalls(NewTracks(capacity, rate), calls), AtChange(capacity, rate, start, calls, change);
            CanReadLow(s.(rate := higher), b)
            <==> GapTells(s.sentSize as real - b.level, b.level,
                          Played(change - LastCall(start, calls), higher))
  {
    var before, last := calls[..|calls| - 1], calls[|calls| - 1];
    CallsKeepValid(NewTracks(capacity, rate), start, before);
    RunCovers(capacity, rate, start, calls, delay);
    var u, s := AfterCalls(NewTracks(capacity, rate), before), AfterCalls(NewTracks(capacity, rate), calls);
    var b := AtChange(capacity, rate, start, calls, change);
    FallsBelowExactly(s.sentSize, last.time, b, higher);
    forall now
      ensures ReadsLow(s.(rate := higher), b, now) <==> FallsBelow(s.sentSize, last.time, b, now, higher)
    {
      if change <= now {
        assert Valid(u, last.time);
        RiseKeepsDomination(u, last.time, last.message, last.points, higher, now);
        SentIsEstimated(s.sentSize, last.time, now, higher);
      }
    }
  }
}
