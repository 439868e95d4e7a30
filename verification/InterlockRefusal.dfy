/** What a refusal does to the interlock's promise. After refusing a client command the
    proxy sends the stop commands that the last reported playback state calls for,
    without asking the e-stop gate. These can reach a device in e-stop; here is exactly
    when. */
module InterlockRefusal {
  import opened DacStatus
  import opened Points
  import opened ProxyFraming
  import opened Interlock

  /** The next command of the device is a stop command that the gate was not asked about,
      and the device is in e-stop. */
  predicate MeetsEstop(s: State) {
    s.core.wire != [] && !s.core.wire[0].gated && s.core.estop
  }

  /** One way of going on from `s` leads there. */
  predicate LeadsToEstop(s: State, steps: seq<Step>, t: State) {
    After(s, steps) == Some(t) && MeetsEstop(t)
  }

  ghost predicate CanMeetEstop(s: State) {
    exists steps, t :: LeadsToEstop(s, steps, t)
  }

  // ---- Composing runs -----------------------------------------------------------------------------

  lemma {:induction false} AfterJoins(s: State, some: seq<Step>, more: seq<Step>)
    requires After(s, some).Some?
    ensures After(s, some + more) == After(After(s, some).value, more)
    decreases |more|
  {
    if more == [] {
      assert some + more == some;
    } else {
      var last := |more| - 1;
      AfterJoins(s, some, more[..last]);
      assert (some + more)[..|some + more| - 1] == some + more[..last];
    }
  }

  lemma OneStep(s: State, step: Step)
    requires Enabled(s, step)
    ensures After(s, [step]) == Some(Next(s, step))
  {
    assert [step][..0] == [];
    assert After(s, []) == Some(s);
  }

  lemma StepFirst(s: State, step: Step, more: seq<Step>)
    requires Enabled(s, step)
    ensures After(s, [step] + more) == After(Next(s, step), more)
  {
    OneStep(s, step);
    AfterJoins(s, [step], more);
  }

  /** The command of a send in progress. */
  function Carried(c: Core): Pending
    requires c.sending.Some?
  {
    match c.sending.value
    case Checked(op, kind, gated) => Pending(c.nextSeq, op, kind, gated)
    case Numbered(p) => p
    case Flagged(p) => p
    case Queued(p) => p
  }

  function StagesLeft(c: Core): nat
    requires c.sending.Some?
  {
    match c.sending.value
    case Checked(_, _, _) => 4
    case Numbered(_) => 3
    case Flagged(_) => 2
    case Queued(_) => 1
  }

  /** What a send in progress has still to enter into the channel. */
  function Unentered(c: Core): seq<Pending>
    requires c.sending.Some?
  {
    if c.sending.value.Queued? then [] else [Carried(c)]
  }

  /** Only an e-stop command moves the flag and its number. */
  predicate SameFlag(c: Core, d: Core, op: Byte) {
    !IsEstop(op) ==> d.flag == c.flag && d.estopSeq == c.estopSeq
  }

  /** One stage of a send, and what it leaves alone. */
  lemma GoOnMoves(s: State)
    requires s.core.sending.Some?
    ensures var t := GoOn(s);
            && t.writer == s.writer && t.reading == s.reading && t.core.last == s.core.last
            && t.core.estop == s.core.estop && t.core.replies == s.core.replies
            && s.core.nextSeq <= t.core.nextSeq && SameFlag(s.core, t.core, Carried(s.core).op)
            && (if StagesLeft(s.core) == 1 then t.core.sending.None? && t.channel == s.channel
                else
                  && t.core.sending.Some? && Carried(t.core) == Carried(s.core)
                  && t.channel + Unentered(t.core) == s.channel + Unentered(s.core)
                  && t.core.wire == s.core.wire && StagesLeft(t.core) == StagesLeft(s.core) - 1)
  {
    if s.core.sending.value.Flagged? {
      assert s.channel + [Carried(s.core)] + [] == s.channel + [Carried(s.core)];
    }
  }

  /** A send that has been decided on comes to its end. */
  lemma {:induction false} SendEnds(s: State) returns (steps: seq<Step>, t: State)
    requires s.core.sending.Some? && Carried(s.core).kind != Synth
    ensures After(s, steps) == Some(t)
    ensures t.core.sending.None? && t.core.last == s.core.last
    ensures t.writer == s.writer && t.reading == s.reading
    ensures t.core.estop == s.core.estop && t.core.replies == s.core.replies
    ensures t.core.wire == s.core.wire + [Carried(s.core)]
    ensures t.channel == s.channel + Unentered(s.core)
    ensures s.core.nextSeq <= t.core.nextSeq && SameFlag(s.core, t.core, Carried(s.core).op)
    decreases StagesLeft(s.core)
  {
    var u := GoOn(s);
    GoOnMoves(s);
    if StagesLeft(s.core) == 1 {
      OneStep(s, SendGoesOn);
      steps, t := [SendGoesOn], u;
      assert s.channel + [] == s.channel;
    } else {
      var more;
      more, t := SendEnds(u);
      StepFirst(s, SendGoesOn, more);
      steps := [SendGoesOn] + more;
    }
  }

  /** The lock comes free: whoever is sending comes to the end of it. */
  lemma LockComesFree(s: State) returns (steps: seq<Step>, t: State)
    requires !WriterSends(s.core)
    ensures After(s, steps) == Some(t) && t.core.sending.None? && t.writer == s.writer
  {
    if s.core.sending.Some? {
      steps, t := SendEnds(s);
    } else {
      steps, t := [], s;
    }
  }

  /** Decide on a command and send it to its end. */
  lemma StepAndSend(s: State, step: Step) returns (steps: seq<Step>, t: State)
    requires Enabled(s, step)
    requires Next(s, step).core.sending.Some? && Carried(Next(s, step).core).kind != Synth
    ensures After(s, steps) == Some(t)
    ensures t.core.sending.None? && t.core.last == Next(s, step).core.last
    ensures t.writer == Next(s, step).writer && t.reading == Next(s, step).reading
    ensures t.core.estop == Next(s, step).core.estop && t.core.replies == Next(s, step).core.replies
    ensures t.core.wire == Next(s, step).core.wire + [Carried(Next(s, step).core)]
    ensures t.channel == Next(s, step).channel + Unentered(Next(s, step).core)
    ensures Next(s, step).core.nextSeq <= t.core.nextSeq
    ensures SameFlag(Next(s, step).core, t.core, Carried(Next(s, step).core).op)
  {
    var more;
    more, t := SendEnds(Next(s, step));
    StepFirst(s, step, more);
    steps := [step] + more;
  }

  /** The opcodes of the commands that a refusal sends, by the playback state reported last. */
  function StopOps(last: Playback): seq<Byte> {
    match last
    case Playing => [0x73]
    case Prepared => [0x62, 0x73]
    case Idle => []
  }

  function Ops(wire: seq<Pending>): seq<Byte> {
    seq(|wire|, i requires 0 <= i < |wire| => wire[i].op)
  }

  /** One stop command goes out. */
  lemma OneStopGoesOut(s: State) returns (steps: seq<Step>, t: State)
    requires s.core.sending.None? && s.writer.Refusing? && s.writer.stops != []
    ensures After(s, steps) == Some(t) && t.core.sending.None?
    ensures t.writer == Refusing(s.writer.stops[1..], true)
    ensures Ops(t.core.wire) == Ops(s.core.wire) + [s.writer.stops[0]]
  {
    steps, t := StepAndSend(s, SendStop);
  }

  lemma OneMore(sent: seq<Byte>, stops: seq<Byte>)
    requires stops != []
    ensures (sent + [stops[0]]) + stops[1..] == sent + stops
  {
  }

  /** All of them go out, in order, the lock held throughout. */
  lemma {:induction false} StopsGoOut(s: State) returns (steps: seq<Step>, t: State)
    requires s.core.sending.None? && s.writer.Refusing?
    ensures After(s, steps) == Some(t) && Ops(t.core.wire) == Ops(s.core.wire) + s.writer.stops
    ensures t.core.sending.None? && t.writer.Refusing? && t.writer.stops == []
    decreases |s.writer.stops|
  {
    if s.writer.stops == [] {
      steps, t := [], s;
    } else {
      var some, u := OneStopGoesOut(s);
      OneMore(Ops(s.core.wire), s.writer.stops);
      var more;
      more, t := StopsGoOut(u);
      AfterJoins(s, some, more);
      steps := some + more;
    }
  }

  /** A refusal can go on until exactly the stop commands for the playback state reported
      last are on the wire behind what was there, and then the writer ends. */
  lemma RefusalSendsStops(s: State, buf: Bytes) returns (steps: seq<Step>, t: State)
    requires Enabled(s, RefuseHead(buf)) && s.core.sending.None?
    ensures After(s, steps) == Some(t) && t.writer.Ended?
    ensures Ops(t.core.wire) == Ops(s.core.wire) + StopOps(s.core.last)
  {
    var u := Next(s, RefuseHead(buf));
    var some, v := StopsGoOut(u);
    t := Next(v, WriterEnds);
    OneStep(v, WriterEnds);
    AfterJoins(u, some, [WriterEnds]);
    steps := [RefuseHead(buf)] + (some + [WriterEnds]);
    StepFirst(s, RefuseHead(buf), some + [WriterEnds]);
  }

  /** Re-engaging puts the e-stop command on the wire, with the flag up. */
  lemma ReEngageRaisesFlag(first: State, before: seq<Step>, s: State) returns (steps: seq<Step>, t: State)
    requires Run(first, before, s) && Enabled(s, ReEngage)
    ensures After(s, steps) == Some(t) && t.core.flag
    ensures Ops(t.core.wire) == Ops(s.core.wire) + [0x00]
  {
    steps, t := StepAndSend(s, ReEngage);
    AfterJoins(first, before, steps);
    assert EntersEstop(t.core.wire[|s.core.wire|].op);
    EstopIsFlagged(first, before + steps, t, 0x00);
  }

  // ---- A device that clears nothing ----------------------------------------------------------------

  /** It arrives in e-stop at the last command on the wire. */
  lemma {:induction false} DeviceCatchesUp(s: State) returns (steps: seq<Step>, t: State)
    requires s.core.wire != [] && !ClearUpTo(s.core, |s.core.wire| - 1)
    ensures After(s, steps) == Some(t)
    ensures t.core.estop && t.core.wire == [s.core.wire[|s.core.wire| - 1]]
    decreases |s.core.wire|
  {
    var wire := s.core.wire;
    if |wire| == 1 {
      steps, t := [], s;
    } else {
      var step := DeviceProcesses(false, false, Idle);
      var u := Next(s, step);
      assert forall i :: 0 <= i < |u.core.wire| ==> u.core.wire[i] == wire[i + 1];
      if !(s.core.estop || IsEstop(wire[0].op)) {
        var j :| 0 <= j < |wire| - 1 && IsEstop(wire[j].op);
        assert IsEstop(u.core.wire[j - 1].op);
      }
      var more;
      more, t := DeviceCatchesUp(u);
      StepFirst(s, step, more);
      steps := [step] + more;
    }
  }

  /** In state `t` the stop command that goes out from `s` is the next one the device
      processes, and the device is in e-stop. */
  predicate FoundInEstop(s: State, steps: seq<Step>, t: State) {
    && Enabled(s, SendStop) && After(Next(s, SendStop), steps) == Some(t)
    && t.core.wire != [] && t.core.wire[0].seqNo == s.core.nextSeq && t.core.estop
  }

  ghost predicate StopCanReachEstop(s: State) {
    exists steps, t :: FoundInEstop(s, steps, t)
  }

  /** A stop command that goes out behind an e-stop meets it. */
  lemma StopBehindEstop(s: State) returns (steps: seq<Step>, t: State)
    requires Enabled(s, SendStop) && !ClearUpTo(s.core, |s.core.wire|)
    ensures FoundInEstop(s, steps, t)
    ensures t.core.wire[0] == Pending(s.core.nextSeq, s.writer.stops[0], Swallow, false)
  {
    var some, u := SendEnds(Next(s, SendStop));
    assert forall i :: 0 <= i < |s.core.wire| ==> u.core.wire[i] == s.core.wire[i];
    var more;
    more, t := DeviceCatchesUp(u);
    AfterJoins(Next(s, SendStop), some, more);
    steps := some + more;
  }

  // ---- A clear way stays clear ------------------------------------------------------------------

  /** Command number `n` is being sent. */
  predicate Sends(c: Core, n: nat) {
    c.sending.Some? && Carried(c).seqNo == n
  }

  /** Number `n` has been given out, or is about to be, and wherever its command is, no
      e-stop is in force or ahead of it. */
  predicate Covers(c: Core, n: nat) {
    && (n < c.nextSeq || (c.sending.Some? && c.sending.value.Checked? && n == c.nextSeq))
    && (Sends(c, n) ==> ClearUpTo(c, |c.wire|))
    && (forall i :: 0 <= i < |c.wire| && c.wire[i].seqNo == n ==> ClearUpTo(c, i))
  }

  lemma WriteKeepsCover(c: Core, n: nat)
    requires Covers(c, n) && c.sending.Some? && c.sending.value.Queued?
    ensures Covers(Write(c), n)
  {
    var p, d := c.sending.value.p, Write(c);
    if p.kind != Synth {
      assert forall i :: 0 <= i < |c.wire| ==> d.wire[i] == c.wire[i];
      assert d.wire[|c.wire|] == p;
    }
  }

  lemma ProcessKeepsCover(c: Core, n: nat, clears: bool, ready: bool, playback: Playback)
    requires Covers(c, n) && c.wire != []
    ensures Covers(Process(c, clears, ready, playback), n)
  {
    var d := Process(c, clears, ready, playback);
    assert forall i :: 0 <= i < |d.wire| ==> d.wire[i] == c.wire[i + 1];
  }

  lemma GoOnKeepsCover(s: State, n: nat)
    requires Covers(s.core, n) && s.core.sending.Some?
    ensures Covers(GoOn(s).core, n)
  {
    if s.core.sending.value.Queued? {
      WriteKeepsCover(s.core, n);
    } else {
      GoOnMoves(s);
    }
  }

  /** Once the writer has stopped reading, no number is given out during a send but the
      one that the send takes. */
  lemma StepKeepsCover(s: State, step: Step, n: nat)
    requires Covers(s.core, n) && Enabled(s, step) && !s.writer.Reading?
    ensures Covers(Next(s, step).core, n)
  {
    match step
    case SendGoesOn => GoOnKeepsCover(s, n);
    case DeviceProcesses(clears, ready, playback) => ProcessKeepsCover(s.core, n, clears, ready, playback);
    case _ =>
  }

  /** A writer that has stopped reading never reads again. */
  lemma WriterNeverReturns(s: State, step: Step)
    requires Enabled(s, step)
    ensures Next(s, step).writer.Reading? ==> s.writer.Reading? && !step.RefuseHead?
  {
    if step.SendGoesOn? {
      GoOnMoves(s);
    }
  }

  lemma {:induction false} RunKeepsCover(s: State, steps: seq<Step>, t: State, n: nat)
    requires Covers(s.core, n) && !s.writer.Reading? && After(s, steps) == Some(t)
    ensures Covers(t.core, n) && !t.writer.Reading?
    decreases |steps|
  {
    if steps != [] {
      var before := After(s, steps[..|steps| - 1]).value;
      RunKeepsCover(s, steps[..|steps| - 1], before, n);
      StepKeepsCover(before, steps[|steps| - 1], n);
      WriterNeverReturns(before, steps[|steps| - 1]);
    }
  }

  // ---- Without stop commands ------------------------------------------------------------------------

  /** Everything under way was decided by the gate, and no stop command is to come. */
  predicate NoStops(s: State) {
    && (forall i :: 0 <= i < |s.core.wire| ==> s.core.wire[i].gated)
    && (s.core.sending.Some? ==> Carried(s.core).gated)
    && (s.writer.Refusing? ==> s.writer.stops == [])
  }

  lemma StepKeepsNoStops(s: State, step: Step)
    requires NoStops(s) && Enabled(s, step)
    requires step.RefuseHead? ==> s.core.last == Idle
    ensures NoStops(Next(s, step))
  {
    if step.SendGoesOn? {
      GoOnMoves(s);
    }
  }

  /** While the writer reads, everything under way was decided by the gate. */
  lemma {:induction false} ReadingMeansNoStops(first: State, steps: seq<Step>, s: State)
    requires Run(first, steps, s) && s.writer.Reading?
    ensures NoStops(s)
    decreases |steps|
  {
    if steps != [] {
      var before := After(first, steps[..|steps| - 1]).value;
      WriterNeverReturns(before, steps[|steps| - 1]);
      ReadingMeansNoStops(first, steps[..|steps| - 1], before);
      StepKeepsNoStops(before, steps[|steps| - 1]);
    }
  }

  lemma {:induction false} NoStopsForever(s: State, steps: seq<Step>, t: State)
    requires NoStops(s) && !s.writer.Reading? && After(s, steps) == Some(t)
    ensures NoStops(t) && !t.writer.Reading?
    decreases |steps|
  {
    if steps != [] {
      var before := After(s, steps[..|steps| - 1]).value;
      NoStopsForever(s, steps[..|steps| - 1], before);
      StepKeepsNoStops(before, steps[|steps| - 1]);
      WriterNeverReturns(before, steps[|steps| - 1]);
    }
  }

  // ---- Exactly when --------------------------------------------------------------------------------

  /** In every run: a stop command that goes out now can find the device in e-stop if
      and only if the device is in e-stop or an e-stop command is on its way there. With
      the flag down it cannot. */
  lemma StopReachesEstopExactly(first: State, steps: seq<Step>, s: State)
    requires Run(first, steps, s) && Enabled(s, SendStop)
    ensures StopCanReachEstop(s) <==> s.core.estop || !NoEstop(s.core.wire)
    ensures !s.core.flag ==> !StopCanReachEstop(s)
  {
    RunIsSound(first, steps, s);
    if ClearUpTo(s.core, |s.core.wire|) {
      forall more, t | FoundInEstop(s, more, t)
        ensures false
      {
        RunKeepsCover(Next(s, SendStop), more, t, s.core.nextSeq);
      }
    } else {
      var more, t := StopBehindEstop(s);
      assert FoundInEstop(s, more, t);
    }
  }

  /** In every run: refusing a command can lead to a stop command that finds the device
      in e-stop if and only if the playback state reported last is not idle. An e-stop
      may be injected between the refusal and its stop commands. */
  lemma RefusalReachesEstopExactly(first: State, steps: seq<Step>, s: State, buf: Bytes)
    requires Run(first, steps, s) && Enabled(s, RefuseHead(buf))
    ensures CanMeetEstop(Next(s, RefuseHead(buf))) <==> s.core.last != Idle
  {
    var u := Next(s, RefuseHead(buf));
    if s.core.last == Idle {
      ReadingMeansNoStops(first, steps, s);
      StepKeepsNoStops(s, RefuseHead(buf));
      forall more, t | LeadsToEstop(u, more, t)
        ensures false
      {
        NoStopsForever(u, more, t);
      }
    } else {
      var more, t := InjectedInBetween(u);
      assert LeadsToEstop(u, more, t);
    }
  }

  lemma InjectedInBetween(u: State) returns (steps: seq<Step>, t: State)
    requires u.writer.Refusing? && u.writer.stops != [] && !u.writer.holding && !WriterSends(u.core)
    ensures LeadsToEstop(u, steps, t)
  {
    var free, v := LockComesFree(u);
    var sent, w := StepAndSend(v, Inject(ESTOP));
    assert IsEstop(w.core.wire[|w.core.wire| - 1].op);
    var more;
    more, t := StopBehindEstop(w);
    StepFirst(w, SendStop, more);
    AfterJoins(v, sent, [SendStop] + more);
    AfterJoins(u, free, sent + ([SendStop] + more));
    steps := free + (sent + ([SendStop] + more));
  }

  /** In every run, if nobody takes the lock in between: if and only if the playback
      state reported last is not idle and the device is in e-stop or on its way there. */
  lemma RefusedAtOnceExactly(first: State, steps: seq<Step>, s: State, buf: Bytes)
    requires Run(first, steps, s) && Enabled(s, RefuseHead(buf)) && s.core.sending.None?
    ensures StopCanReachEstop(Next(s, RefuseHead(buf)))
       <==> s.core.last != Idle && (s.core.estop || !NoEstop(s.core.wire))
  {
    var u := Next(s, RefuseHead(buf));
    assert (steps + [RefuseHead(buf)])[..|steps|] == steps;
    if s.core.last != Idle {
      StopReachesEstopExactly(first, steps + [RefuseHead(buf)], u);
    }
  }

  // ---- It happens -----------------------------------------------------------------------------------

  /** Nothing is under way. */
  predicate Quiet(s: State) {
    && s.writer.Reading? && s.reading && s.core.sending.None?
    && s.core.wire == [] && s.core.replies == [] && s.channel == []
    && s.core.estopSeq < s.core.nextSeq
  }

  /** The client sends a command, the device clears its e-stop if it is told to and
      answers, and the reply is recorded. */
  lemma Exchange(s: State, op: Byte, playback: Playback) returns (steps: seq<Step>, t: State)
    requires Quiet(s) && !IsEstop(op) && !HeldBack(s.core, op)
    requires s.core.estop ==> op == CLEAR
    ensures After(s, steps) == Some(t) && Quiet(t)
    ensures t.core.last == playback && !t.core.estop && !t.core.flag
  {
    var some, u := StepAndSend(s, ClientCommand(op));
    var p := Carried(Next(s, ClientCommand(op)).core);
    var process := DeviceProcesses(true, true, playback);
    var v := Next(u, process);
    assert u.core.wire == [p] && u.channel == [p] && v.core.replies == [Reply(p, true, playback)];
    t := Next(v, ReaderRecords(true));
    OneStep(v, ReaderRecords(true));
    StepFirst(u, process, [ReaderRecords(true)]);
    AfterJoins(s, some, [process] + [ReaderRecords(true)]);
    steps := some + ([process] + [ReaderRecords(true)]);
  }

  /** Two exchanges in a row. */
  lemma Exchanges(s: State, first: Byte, playback: Playback, second: Byte, next: Playback)
    returns (steps: seq<Step>, t: State)
    requires Quiet(s) && !IsEstop(first) && !HeldBack(s.core, first) && !IsEstop(second)
    requires s.core.estop ==> first == CLEAR
    ensures After(s, steps) == Some(t) && Quiet(t)
    ensures t.core.last == next && !t.core.estop && !t.core.flag
  {
    var some, u := Exchange(s, first, playback);
    var more;
    more, t := Exchange(u, second, next);
    AfterJoins(s, some, more);
    steps := some + more;
  }

  /** The client clears the e-stop of the hello, if there is one, prepares the device, gives
      it data and begins; the last reply says that it plays. */
  lemma ReportsPlaying(s: State) returns (steps: seq<Step>, t: State)
    requires Fresh(s)
    ensures After(s, steps) == Some(t) && Quiet(t) && t.core.last == Playing
  {
    var some, u := Exchanges(s, CLEAR, Idle, PREPARE, Prepared);
    var more;
    more, t := Exchanges(u, DATA, Prepared, BEGIN, Playing);
    AfterJoins(s, some, more);
    steps := some + more;
  }

  /** An e-stop that the device obeys and whose reply is still under way. */
  lemma EstopObeyed(s: State) returns (steps: seq<Step>, t: State)
    requires s.writer.Reading? && s.core.sending.None? && s.core.wire == []
    ensures After(s, steps) == Some(t) && t.writer.Reading? && t.core.sending.None?
    ensures t.core.estop && t.core.replies != [] && t.core.last == s.core.last
  {
    var some, u := StepAndSend(s, Inject(ESTOP));
    var step := DeviceProcesses(false, false, Idle);
    t := Next(u, step);
    OneStep(u, step);
    AfterJoins(s, some, [step]);
    steps := some + [step];
  }

  /** The promise that only exempt commands reach a device known to be in e-stop fails in
      a run of every connection: the client prepares the device, gives it data and begins,
      an e-stop takes effect, and before its reply arrives the client's next bytes are
      refused. The stop command for a playing device is then the next one the device
      processes. */
  lemma StopFollowsEstop(first: State) returns (steps: seq<Step>, t: State)
    requires Fresh(first)
    ensures Run(first, steps, t) && t.core.flag && t.core.estop
    ensures t.core.wire != [] && t.core.wire[0].op == STOP && !Exempt(STOP)
  {
    var playing, s := ReportsPlaying(first);
    var obeyed, u := EstopObeyed(s);
    AfterJoins(first, playing, obeyed);
    var refuse := RefuseHead([0x01]);
    var v := Next(u, refuse);
    var more;
    more, t := StopBehindEstop(v);
    StepFirst(v, SendStop, more);
    StepFirst(u, refuse, [SendStop] + more);
    AfterJoins(first, playing + obeyed, [refuse] + ([SendStop] + more));
    steps := playing + obeyed + ([refuse] + ([SendStop] + more));
    RunIsSound(first, steps, t);
  }
}
