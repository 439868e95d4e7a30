/** The status-driven estimator: anchored on what the device reports, decayed only
    while the device plays, rebased on every send without carrying the fraction. */
module StatusDecay {
  import opened LeakyBucket
  import opened Points
  import opened Repricing

  /** The estimator's fields as a value. */
  datatype Anchor = Anchor(fullness: nat, time: Option<real>, playing: bool)

  function ReadAt(a: Anchor, now: real, pps: nat): nat {
    if a.time.None? then 0
    else if !a.playing then a.fullness
    else
      var played := Played(Since(now, a.time.value), pps);
      WholeNonnegative(played);
      MinusNat(a.fullness, Whole(played))
  }

  function Sent(a: Anchor, now: real, n: nat, pps: nat): Anchor {
    Anchor(ReadAt(a, now, pps) + n, Some(now), a.playing)
  }

  class StatusDecayEstimator {
    var fullness: nat
    var anchorTime: Option<real>
    var playing: bool

    function State(): Anchor
      reads this
    {
      Anchor(fullness, anchorTime, playing)
    }

    constructor ()
      ensures State() == Anchor(0, None, false)
    {
      fullness := 0;
      anchorTime := None;
      playing := false;
    }

    method Reset()
      modifies this
      ensures State() == Anchor(0, None, false)
    {
      fullness := 0;
      anchorTime := None;
      playing := false;
    }

    method SetPlaying(playing: bool)
      modifies this`playing
      ensures this.playing == playing
    {
      this.playing := playing;
    }

    method RecordStatus(now: real, fullness: nat)
      modifies this`fullness, this`anchorTime
      ensures State() == Anchor(fullness, Some(now), old(playing))
    {
      this.fullness := fullness;
      anchorTime := Some(now);
    }

    method RecordSend(now: real, n: nat, pps: nat)
      modifies this`fullness, this`anchorTime
      ensures State() == Sent(old(State()), now, n, pps)
    {
      var current := EstimatedFullness(now, pps);
      fullness := current + n;
      anchorTime := Some(now);
    }

    method EstimatedFullness(now: real, pps: nat) returns (points: nat)
      ensures points == ReadAt(State(), now, pps)
    {
      if anchorTime.None? {
        return 0;
      }
      if !playing {
        return fullness;
      }
      var played := Played(Since(now, anchorTime.value), pps);
      WholeNonnegative(played);
      var consumed: nat := Whole(played);
      points := if fullness >= consumed then fullness - consumed else 0;
    }
  }

  // ---- Against the ideal bucket ------------------------------------------------------

  /** The estimator after a status report and a series of sends. */
  function AnchorAfter(fullness: nat, start: real, playing: bool, sends: seq<Send>, pps: nat): Anchor {
    if sends == [] then Anchor(fullness, Some(start), playing)
    else
      var last := sends[|sends| - 1];
      Sent(AnchorAfter(fullness, start, playing, sends[..|sends| - 1], pps), last.time, last.points, pps)
  }

  /** The rate the device drains at: nothing leaves it while it does not play. */
  function DrainRate(playing: bool, pps: nat): nat {
    if playing then pps else 0
  }

  /** At the last send the anchor is not below the bucket and less than one point per
      send above it. */
  predicate Covers(a: Anchor, b: Bucket, sends: nat) {
    && a.time == Some(b.at) && b.level >= 0.0
    && b.level <= a.fullness as real
    && (if sends == 0 then a.fullness as real == b.level
        else a.fullness as real < b.level + sends as real)
  }

  lemma ReadCovers(a: Anchor, b: Bucket, sends: nat, now: real, pps: nat)
    requires Covers(a, b, sends) && b.at <= now
    ensures var excess := ReadAt(a, now, pps) as real - Drained(b, now, DrainRate(a.playing, pps));
            0.0 <= excess < 1.0 + sends as real
  {
    if a.playing {
      var played := Played(Since(now, b.at), pps);
      WholeNonnegative(played);
      WholeBounds(played);
    } else {
      assert Played(Since(now, b.at), 0) == 0.0;
    }
  }

  lemma {:induction false} SendsKeepCovering(fullness: nat, start: real, playing: bool, sends: seq<Send>, pps: nat)
    requires InOrder(start, sends)
    ensures var a := AnchorAfter(fullness, start, playing, sends, pps);
            var b := BucketAfter(Bucket(fullness as real, start), sends, DrainRate(playing, pps));
            && a.playing == playing && b.at == LastTime(start, sends)
            && Covers(a, b, |sends|)
    decreases |sends|
  {
    if sends != [] {
      var before, last := sends[..|sends| - 1], sends[|sends| - 1];
      SendsKeepCovering(fullness, start, playing, before, pps);
      var a := AnchorAfter(fullness, start, playing, before, pps);
      var b := BucketAfter(Bucket(fullness as real, start), before, DrainRate(playing, pps));
      ReadCovers(a, b, |before|, last.time, pps);
    }
  }

  /** From a status report on, as long as the device keeps playing (or keeps not
      playing), the estimate never under-reports the bucket that the report started,
      and over-reports it by less than one point plus one for each send since. */
  lemma NeverUnderReports(fullness: nat, start: real, playing: bool, sends: seq<Send>, pps: nat, now: real)
    requires InOrder(start, sends) && LastTime(start, sends) <= now
    ensures var estimate := ReadAt(AnchorAfter(fullness, start, playing, sends, pps), now, pps) as real;
            var ideal := Drained(BucketAfter(Bucket(fullness as real, start), sends,
                                             DrainRate(playing, pps)), now, DrainRate(playing, pps));
            0.0 <= estimate - ideal < 1.0 + |sends| as real
  {
    SendsKeepCovering(fullness, start, playing, sends, pps);
    ReadCovers(AnchorAfter(fullness, start, playing, sends, pps),
               BucketAfter(Bucket(fullness as real, start), sends, DrainRate(playing, pps)),
               |sends|, now, pps);
  }

  // ---- Runs in which playback starts and stops ---------------------------------------------------

  /** A status report, a send, or a change of whether the device plays. */
  datatype Call =
    | Report(time: real, fullness: nat)
    | SendPoints(time: real, points: nat)
    | Switch(time: real, playing: bool)

  /** The device: a bucket that leaks only while it plays. */
  datatype Device = Device(bucket: Bucket, playing: bool)

  /** The points it holds at a moment. */
  function Held(d: Device, now: real, pps: nat): real {
    Drained(d.bucket, now, DrainRate(d.playing, pps))
  }

  function DeviceAfter(d: Device, call: Call, pps: nat): Device {
    match call
    case Report(time, fullness) => Device(Bucket(fullness as real, time), d.playing)
    case SendPoints(time, points) =>
      Device(Filled(d.bucket, time, points, DrainRate(d.playing, pps)), d.playing)
    case Switch(time, playing) => Device(Bucket(Held(d, time, pps), time), playing)
  }

  function EstimatorAfter(a: Anchor, call: Call, pps: nat): Anchor {
    match call
    case Report(time, fullness) => Anchor(fullness, Some(time), a.playing)
    case SendPoints(time, points) => Sent(a, time, points, pps)
    case Switch(_, playing) => a.(playing := playing)
  }

  /** A new estimator and an empty device after a series of calls. */
  function DeviceRun(start: real, calls: seq<Call>, pps: nat): Device {
    if calls == [] then Device(Bucket(0.0, start), false)
    else DeviceAfter(DeviceRun(start, calls[..|calls| - 1], pps), calls[|calls| - 1], pps)
  }

  function EstimatorRun(calls: seq<Call>, pps: nat): Anchor {
    if calls == [] then Anchor(0, None, false)
    else EstimatorAfter(EstimatorRun(calls[..|calls| - 1], pps), calls[|calls| - 1], pps)
  }

  function LastCall(start: real, calls: seq<Call>): real {
    if calls == [] then start else calls[|calls| - 1].time
  }

  predicate CallsInOrder(start: real, calls: seq<Call>) {
    calls != [] ==>
      var before := calls[..|calls| - 1];
      CallsInOrder(start, before) && LastCall(start, before) <= calls[|calls| - 1].time
  }

  /** The call makes the device start to play at a moment that is not an anchor. */
  predicate StartsLate(a: Anchor, call: Call) {
    call.Switch? && call.playing && !a.playing && a.time != Some(call.time)
  }

  /** Since the last report, playback started only at an anchor, report or send. */
  predicate StartsAtAnchors(calls: seq<Call>, pps: nat) {
    calls != [] && !calls[|calls| - 1].Report? ==>
      var before := calls[..|calls| - 1];
      StartsAtAnchors(before, pps) && !StartsLate(EstimatorRun(before, pps), calls[|calls| - 1])
  }

  /** The estimate, before it is rounded to whole points, is not below what the device
      holds. */
  predicate Above(a: Anchor, d: Device, pps: nat) {
    && a.playing == d.playing && d.bucket.level >= 0.0
    && (a.time.None? ==> d.bucket.level == 0.0)
    && (a.time.Some? ==>
          && a.time.value <= d.bucket.at
          && d.bucket.level
             <= Remaining(a.fullness as real,
                          Played(Since(d.bucket.at, a.time.value), DrainRate(a.playing, pps))))
  }

  lemma AboveCovers(a: Anchor, d: Device, now: real, pps: nat)
    requires Above(a, d, pps) && d.bucket.at <= now
    ensures Held(d, now, pps) <= ReadAt(a, now, pps) as real
  {
    var rate, b := DrainRate(a.playing, pps), d.bucket;
    if a.time.Some? {
      PlayedAdds(Since(b.at, a.time.value), Since(now, b.at), rate);
      var played := Played(Since(now, a.time.value), rate);
      WholeNonnegative(played);
      WholeBounds(played);
      if !a.playing {
        assert Played(Since(now, b.at), 0) == 0.0;
      }
    }
  }

  lemma CallKeepsAbove(a: Anchor, d: Device, call: Call, pps: nat)
    requires Above(a, d, pps) && d.bucket.at <= call.time && !StartsLate(a, call)
    ensures Above(EstimatorAfter(a, call, pps), DeviceAfter(d, call, pps), pps)
  {
    AboveCovers(a, d, call.time, pps);
    match call
    case Report(_, _) => AboveAtAnchor(EstimatorAfter(a, call, pps), DeviceAfter(d, call, pps), pps);
    case SendPoints(_, _) => AboveAtAnchor(EstimatorAfter(a, call, pps), DeviceAfter(d, call, pps), pps);
    case Switch(time, playing) => SwitchKeepsAbove(a, d, time, playing, pps);
  }

  /** Right at an anchor, only the levels count. */
  lemma AboveAtAnchor(a: Anchor, d: Device, pps: nat)
    requires a.playing == d.playing && a.time == Some(d.bucket.at)
    requires 0.0 <= d.bucket.level <= a.fullness as real
    ensures Above(a, d, pps)
  {
    assert Played(0.0, DrainRate(a.playing, pps)) == 0.0;
  }

  lemma SwitchKeepsAbove(a: Anchor, d: Device, time: real, playing: bool, pps: nat)
    requires Above(a, d, pps) && d.bucket.at <= time && !StartsLate(a, Switch(time, playing))
    ensures Above(a.(playing := playing), DeviceAfter(d, Switch(time, playing), pps), pps)
  {
    var rate, b := DrainRate(a.playing, pps), d.bucket;
    if a.time.Some? {
      PlayedAdds(Since(b.at, a.time.value), Since(time, b.at), rate);
      assert Played(Since(time, a.time.value), 0) == 0.0;
      assert Played(0.0, pps) == 0.0;
    }
  }

  /** Right after a report the estimate is what the device holds, whatever was before. */
  lemma {:induction false} RunIsAbove(start: real, calls: seq<Call>, pps: nat)
    requires CallsInOrder(start, calls)
    ensures DeviceRun(start, calls, pps).bucket.at == LastCall(start, calls)
    ensures DeviceRun(start, calls, pps).playing == EstimatorRun(calls, pps).playing
    ensures StartsAtAnchors(calls, pps) ==> Above(EstimatorRun(calls, pps), DeviceRun(start, calls, pps), pps)
    decreases |calls|
  {
    if calls != [] {
      var before, last := calls[..|calls| - 1], calls[|calls| - 1];
      RunIsAbove(start, before, pps);
      if last.Report? {
        AboveAtAnchor(EstimatorRun(calls, pps), DeviceRun(start, calls, pps), pps);
      } else if StartsAtAnchors(calls, pps) {
        CallKeepsAbove(EstimatorRun(before, pps), DeviceRun(start, before, pps), last, pps);
      }
    }
  }

  /** Over every run of reports, sends and changes of playback at a fixed rate: if since
      the last report playback started only at anchors, the estimate never under-reports
      what the device holds. */
  lemma RunNeverUnderReports(start: real, calls: seq<Call>, pps: nat, now: real)
    requires CallsInOrder(start, calls) && StartsAtAnchors(calls, pps) && LastCall(start, calls) <= now
    ensures Held(DeviceRun(start, calls, pps), now, pps) <= ReadAt(EstimatorRun(calls, pps), now, pps) as real
  {
    RunIsAbove(start, calls, pps);
    AboveCovers(EstimatorRun(calls, pps), DeviceRun(start, calls, pps), now, pps);
  }

  /** The playing flag, and with it the device, changes only together with a report. */
  predicate SwitchesWithReports(calls: seq<Call>) {
    calls != [] ==>
      var n := |calls| - 1;
      match calls[n]
      case SendPoints(_, _) => SwitchesWithReports(calls[..n])
      case Switch(_, _) => false
      case Report(time, _) =>
        || SwitchesWithReports(calls[..n])
        || (n > 0 && calls[n - 1].Switch? && calls[n - 1].time == time
            && SwitchesWithReports(calls[..n - 1]))
  }

  /** If the flag always says what the device does, and every report is anchored at the
      moment it was sampled, then changing the flag only together with a report is enough. */
  lemma PairedNeverUnderReports(start: real, calls: seq<Call>, pps: nat, now: real)
    requires CallsInOrder(start, calls) && SwitchesWithReports(calls) && LastCall(start, calls) <= now
    ensures Held(DeviceRun(start, calls, pps), now, pps) <= ReadAt(EstimatorRun(calls, pps), now, pps) as real
  {
    PairedStartsAtAnchors(calls, pps);
    RunNeverUnderReports(start, calls, pps, now);
  }

  lemma {:induction false} PairedStartsAtAnchors(calls: seq<Call>, pps: nat)
    requires SwitchesWithReports(calls)
    ensures StartsAtAnchors(calls, pps)
    decreases |calls|
  {
    if calls != [] && calls[|calls| - 1].SendPoints? {
      PairedStartsAtAnchors(calls[..|calls| - 1], pps);
    }
  }

  // ---- A late start -------------------------------------------------------------------------------------

  predicate UnderReports(a: Anchor, d: Device, now: real, pps: nat) {
    d.bucket.at <= now && (ReadAt(a, now, pps) as real) < Held(d, now, pps)
  }

  ghost predicate CanUnderReport(a: Anchor, d: Device, pps: nat) {
    exists now :: UnderReports(a, d, now, pps)
  }

  /** The points that the rate would have played between the anchor and `begin`. */
  function IdleGap(a: Anchor, begin: real, pps: nat): (gap: real)
    ensures gap >= 0.0
  {
    if a.time.None? then 0.0 else Played(Since(begin, a.time.value), pps)
  }

  lemma LateStartExactly(a: Anchor, d: Device, pps: nat)
    requires a.playing && d.playing && d.bucket.level >= 0.0
    requires a.time.None? ==> d.bucket.level == 0.0
    requires a.time.Some? ==> a.time.value <= d.bucket.at
    ensures CanUnderReport(a, d, pps)
       <==> GapTells(a.fullness as real - d.bucket.level, d.bucket.level, IdleGap(a, d.bucket.at, pps))
  {
    if a.time.Some? {
      FallsBelowExactly(a.fullness, a.time.value, d.bucket, pps);
      forall now
        ensures UnderReports(a, d, now, pps) <==> FallsBelow(a.fullness, a.time.value, d.bucket, now, pps)
      {
        ReadIsEstimated(a, now, pps);
      }
    }
  }

  lemma ReadIsEstimated(a: Anchor, now: real, pps: nat)
    requires a.playing && a.time.Some?
    ensures ReadAt(a, now, pps) as real == Estimated(a.fullness, a.time.value, now, pps)
  {
    WholeNonnegative(Played(Since(now, a.time.value), pps));
  }

  /** After every run that ended not playing, with starts only at anchors: if the device
      then starts at `begin`, some reading before the next anchor under-reports if and
      only if the time since the last anchor, report or send, costs more points than the
      estimate has in excess, at once or by the time the running point is complete. */
  lemma LateStartUnderReportsExactly(start: real, calls: seq<Call>, begin: real, pps: nat)
    requires CallsInOrder(start, calls) && StartsAtAnchors(calls, pps) && LastCall(start, calls) <= begin
    requires !EstimatorRun(calls, pps).playing
    ensures var a := EstimatorRun(calls, pps);
            var level := Held(DeviceRun(start, calls, pps), begin, pps);
            CanUnderReport(EstimatorAfter(a, Switch(begin, true), pps),
                           DeviceAfter(DeviceRun(start, calls, pps), Switch(begin, true), pps), pps)
            <==> GapTells(a.fullness as real - level, level, IdleGap(a, begin, pps))
  {
    var a, d := EstimatorRun(calls, pps), DeviceRun(start, calls, pps);
    RunIsAbove(start, calls, pps);
    assert Played(Since(begin, d.bucket.at), 0) == 0.0;
    if a.time.Some? {
      assert Played(Since(d.bucket.at, a.time.value), 0) == 0.0;
    }
    LateStartExactly(EstimatorAfter(a, Switch(begin, true), pps), DeviceAfter(d, Switch(begin, true), pps), pps);
  }

  /** A report of 3000 points, playback 50 ms later, and 50 ms on the estimate is 0
      while the device still holds 1500. */
  lemma LateStartExample()
    ensures var calls := [Report(0.0, 3000), Switch(0.05, true)];
            && ReadAt(EstimatorRun(calls, 30000), 0.1, 30000) == 0
            && Held(DeviceRun(0.0, calls, 30000), 0.1, 30000) == 1500.0
  {
    var report, switch := Report(0.0, 3000), Switch(0.05, true);
    var none: seq<Call> := [];
    assert [report, switch][..1] == [report] && [report][..0] == none;
    assert EstimatorRun([report], 30000) == Anchor(3000, Some(0.0), false);
    assert DeviceRun(0.0, [report], 30000) == Device(Bucket(3000.0, 0.0), false);
    assert Played(Since(0.05, 0.0), 0) == 0.0;
    assert Played(Since(0.1, 0.0), 30000) == 3000.0;
    assert Played(Since(0.1, 0.05), 30000) == 1500.0;
  }
}
