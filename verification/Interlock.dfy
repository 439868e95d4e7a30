/** The e-stop interlock of the proxy: its flag, the numbers that protect the flag from
    stale replies, and a device that processes commands in order.

    A send holds the connection lock from its gate check to its write, but the reader
    and the device may act between any two of its steps. */
module Interlock {
  import opened DacStatus
  import opened Points
  import opened ProxyFraming

  datatype Kind = Forward | Swallow | Synth

  /** A command on its way. `gated` says that the e-stop gate decided about it; the stop
      commands that follow a refusal are sent without asking the gate. */
  datatype Pending = Pending(seqNo: nat, op: Byte, kind: Kind, gated: bool)

  /** How far a send has come: gate asked, number taken, flag seen to, put into the
      channel to the reader. Writing it to the device ends it. */
  datatype Sending =
    | Checked(op: Byte, kind: Kind, gated: bool)
    | Numbered(p: Pending)
    | Flagged(p: Pending)
    | Queued(p: Pending)

  datatype Reply = Reply(p: Pending, ready: bool, playback: Playback)

  /** The proxy's flag, the number of the latest e-stop, the next number, the playback
      state reported last and the send in progress; the commands the device has not
      processed and the replies under way; whether the device is in e-stop, and by which
      command. */
  datatype Core = Core(
    flag: bool,
    estopSeq: nat,
    nextSeq: nat,
    last: Playback,
    sending: Option<Sending>,
    wire: seq<Pending>,
    replies: seq<Reply>,
    estop: bool,
    estopBy: nat)

  predicate IsEstop(op: Byte) {
    op == ESTOP || op == ESTOP_ALT
  }

  /** Commands that may reach a device in e-stop. */
  predicate Exempt(op: Byte) {
    op == PING || op == CLEAR || IsEstop(op)
  }

  /** The gate holds the command back. */
  predicate HeldBack(s: Core, op: Byte) {
    s.flag && !Exempt(op)
  }

  // ---- Atomic actions --------------------------------------------------------------------------

  /** Take the lock and decide on a command. */
  function Begin(s: Core, op: Byte, kind: Kind, gated: bool): Core {
    s.(sending := Some(Checked(op, kind, gated)))
  }

  function TakeNumber(s: Core): Core
    requires s.sending.Some? && s.sending.value.Checked?
  {
    var c := s.sending.value;
    s.(nextSeq := s.nextSeq + 1,
       sending := Some(Numbered(Pending(s.nextSeq, c.op, c.kind, c.gated))))
  }

  /** An e-stop command raises the flag before it can reach the device. */
  function SetFlag(s: Core): Core
    requires s.sending.Some? && s.sending.value.Numbered?
  {
    var p := s.sending.value.p;
    if IsEstop(p.op) then s.(flag := true, estopSeq := p.seqNo, sending := Some(Flagged(p)))
    else s.(sending := Some(Flagged(p)))
  }

  function Enqueue(s: Core): Core
    requires s.sending.Some? && s.sending.value.Flagged?
  {
    s.(sending := Some(Queued(s.sending.value.p)))
  }

  /** Write to the device, unless the command is only answered, and release the lock. */
  function Write(s: Core): Core
    requires s.sending.Some? && s.sending.value.Queued?
  {
    var p := s.sending.value.p;
    s.(sending := None, wire := if p.kind == Synth then s.wire else s.wire + [p])
  }

  /** The device's own e-stop commands. */
  predicate EntersEstop(op: Byte) {
    op == 0x00 || op == 0xff
  }

  /** The device processes its next command. It enters e-stop only by command; any other
      command may or may not clear it. Ready is reported only out of e-stop; playback is
      whatever the device says it is. */
  function Process(s: Core, clears: bool, reportsReady: bool, playback: Playback): Core
    requires s.wire != []
  {
    var p := s.wire[0];
    var estop := EntersEstop(p.op) || (s.estop && !clears);
    s.(wire := s.wire[1..], estop := estop,
       estopBy := if EntersEstop(p.op) then p.seqNo else s.estopBy,
       replies := s.replies + [Reply(p, reportsReady && !estop, playback)])
  }

  /** The reader records the next reply for command `p`. Any reply that parses says what
      the playback state is; only the reply to a command sent after the latest e-stop may
      change the flag. */
  function Record(s: Core, p: Pending, parses: bool): Core
    requires s.replies != []
  {
    s.(replies := s.replies[1..],
       last := if parses then s.replies[0].playback else s.last,
       flag := if parses && p.seqNo > s.estopSeq then !s.replies[0].ready else s.flag)
  }

  // ---- The invariant ------------------------------------------------------------------------------

  /** The number of the send in progress, or the next one to be given out. */
  function CurrentNo(s: Core): nat {
    if s.sending.Some? && !s.sending.value.Checked? then s.sending.value.p.seqNo else s.nextSeq
  }

  predicate NoEstop(wire: seq<Pending>) {
    forall i :: 0 <= i < |wire| ==> !IsEstop(wire[i].op)
  }

  /** Numbers grow along the line: replies, then the wire, then the send in progress. */
  predicate Ordered(s: Core) {
    && s.estopSeq <= CurrentNo(s)
    && (s.sending.Some? && !s.sending.value.Checked? ==> CurrentNo(s) < s.nextSeq)
    && (forall i :: 0 <= i < |s.wire| ==> s.wire[i].seqNo < CurrentNo(s))
    && (forall i, j :: 0 <= i < j < |s.wire| ==> s.wire[i].seqNo < s.wire[j].seqNo)
    && (forall i :: 0 <= i < |s.replies| ==> s.replies[i].p.seqNo < CurrentNo(s))
    && (forall i, j :: 0 <= i < |s.replies| && 0 <= j < |s.wire| ==>
          s.replies[i].p.seqNo < s.wire[j].seqNo)
  }

  /** An e-stop command past the point where the flag is set. */
  predicate EstopFlagged(s: Core) {
    && s.sending.Some? && (s.sending.value.Flagged? || s.sending.value.Queued?)
    && IsEstop(s.sending.value.p.op)
  }

  /** Every e-stop on its way, and the one the device is in, is no later than the latest
      one the proxy has recorded. */
  predicate Recorded(s: Core) {
    && (forall i :: 0 <= i < |s.wire| && IsEstop(s.wire[i].op) ==> s.wire[i].seqNo <= s.estopSeq)
    && (EstopFlagged(s) ==> s.sending.value.p.seqNo <= s.estopSeq)
    && s.estopBy <= s.estopSeq
  }

  /** While the flag is down, the device is out of e-stop and nothing on its way can put
      it there. */
  predicate Conservative(s: Core) {
    !s.flag ==> !s.estop && NoEstop(s.wire) && !EstopFlagged(s)
  }

  /** While the device is in e-stop, every reply that still says ready is older than the
      command that put it there. */
  predicate OldNews(s: Core) {
    s.estop ==>
      forall i :: 0 <= i < |s.replies| && s.replies[i].ready ==> s.replies[i].p.seqNo < s.estopBy
  }

  /** A command that the gate let through and that must not reach a device in e-stop. */
  predicate Guarded(p: Pending) {
    p.gated && !Exempt(p.op)
  }

  /** The send in progress is such a command. */
  predicate SendsGuarded(s: Core) {
    s.sending.Some? &&
      match s.sending.value
      case Checked(op, kind, gated) => kind != Synth && gated && !Exempt(op)
      case Numbered(p) => p.kind != Synth && Guarded(p)
      case Flagged(p) => p.kind != Synth && Guarded(p)
      case Queued(p) => p.kind != Synth && Guarded(p)
  }

  /** The device is out of e-stop, and no command ahead of number `i` changes that. */
  predicate ClearUpTo(s: Core, i: nat)
    requires i <= |s.wire|
  {
    !s.estop && forall j :: 0 <= j < i ==> !IsEstop(s.wire[j].op)
  }

  /** So it is for each command of that kind on the wire, and for the send in progress. */
  predicate Protected(s: Core) {
    && (forall i :: 0 <= i < |s.wire| && Guarded(s.wire[i]) ==> ClearUpTo(s, i))
    && (SendsGuarded(s) ==> ClearUpTo(s, |s.wire|))
  }

  predicate Inv(s: Core) {
    Ordered(s) && Recorded(s) && Conservative(s) && OldNews(s) && Protected(s)
  }

  /** The gate's decision is sound: a command it does not hold back is protected. */
  lemma BeginKeepsInv(s: Core, op: Byte, kind: Kind, gated: bool)
    requires Inv(s) && s.sending.None?
    requires gated && kind != Synth ==> !HeldBack(s, op)
    ensures Inv(Begin(s, op, kind, gated))
  {
  }

  lemma NumberKeepsInv(s: Core)
    requires Inv(s) && s.sending.Some? && s.sending.value.Checked?
    ensures Inv(TakeNumber(s))
  {
  }

  lemma FlagKeepsInv(s: Core)
    requires Inv(s) && s.sending.Some? && s.sending.value.Numbered?
    ensures Inv(SetFlag(s))
  {
  }

  lemma EnqueueKeepsInv(s: Core)
    requires Inv(s) && s.sending.Some? && s.sending.value.Flagged?
    ensures Inv(Enqueue(s))
  {
  }

  lemma WriteKeepsInv(s: Core)
    requires Inv(s) && s.sending.Some? && s.sending.value.Queued?
    ensures Inv(Write(s))
  {
    var p, t := s.sending.value.p, Write(s);
    if p.kind != Synth {
      assert forall i :: 0 <= i < |s.wire| ==> t.wire[i] == s.wire[i];
      assert t.wire[|s.wire|] == p;
    }
  }

  lemma ProcessKeepsInv(s: Core, clears: bool, ready: bool, playback: Playback)
    requires Inv(s) && s.wire != []
    ensures Inv(Process(s, clears, ready, playback))
  {
    var t := Process(s, clears, ready, playback);
    assert forall i :: 0 <= i < |t.wire| ==> t.wire[i] == s.wire[i + 1];
  }

  /** A reply that lowers the flag proves the device out of e-stop for good, until the
      next e-stop command. */
  lemma RecordKeepsInv(s: Core, parses: bool)
    requires Inv(s) && s.replies != []
    ensures Inv(Record(s, s.replies[0].p, parses))
  {
  }

  // ---- The connection -----------------------------------------------------------------------------

  /** The thread that reads from the client. A refused command makes it send the stop
      commands it still has to send, the lock held from the first to the last, and end. */
  datatype Writer = Reading | Refusing(stops: seq<Byte>, holding: bool) | Ended

  /** The commands that bring a device back to idle, by the playback state it reported. */
  function StopCmds(last: Playback): seq<Byte> {
    match last
    case Playing => [STOP]
    case Prepared => [BEGIN, STOP]
    case Idle => []
  }

  /** One connection: the core, the writer, the channel from the writer to the reader,
      whether the reader still reads, and by number what the client sent and what it got
      back. */
  datatype State = State(
    core: Core,
    writer: Writer,
    channel: seq<Pending>,
    reading: bool,
    accepted: seq<nat>,
    delivered: seq<nat>)

  datatype Step =
    | ClientCommand(op: Byte)
    | Inject(op: Byte)
    | ReEngage
    | RefuseHead(buf: Bytes)
    | SendStop
    | WriterEnds
    | SendGoesOn
    | DeviceProcesses(clears: bool, reportsReady: bool, playback: Playback)
    | ReaderAnswers
    | ReaderRecords(parses: bool)
    | ReaderFails

  /** The connection is there and nobody holds its lock. */
  predicate LockFree(s: State) {
    && s.core.sending.None? && !s.writer.Ended?
    && !(s.writer.Refusing? && s.writer.holding && s.writer.stops != [])
  }

  /** The send in progress is the writer's own. */
  predicate WriterSends(s: Core) {
    s.sending.Some? &&
      match s.sending.value
      case Checked(_, kind, _) => kind != Swallow
      case Numbered(p) => p.kind != Swallow
      case Flagged(p) => p.kind != Swallow
      case Queued(p) => p.kind != Swallow
  }

  /** The client's bytes begin with what the proxy refuses. */
  predicate Refused(buf: Bytes) {
    CutAt(buf).Refuse?
  }

  /** The step can be taken. Starting a send needs the lock; a refusal does not, until it
      sends. The reader takes entries in channel order, and for one that was written it
      needs a reply. */
  predicate Enabled(s: State, step: Step) {
    match step
    case ClientCommand(_) => LockFree(s) && s.writer.Reading?
    case Inject(_) => LockFree(s)
    case ReEngage => LockFree(s)
    case RefuseHead(buf) => s.writer.Reading? && !WriterSends(s.core) && Refused(buf)
    case SendStop => s.core.sending.None? && s.writer.Refusing? && s.writer.stops != []
    case WriterEnds =>
      s.core.sending.None? && (s.writer.Reading? || (s.writer.Refusing? && s.writer.stops == []))
    case SendGoesOn => s.core.sending.Some?
    case DeviceProcesses(_, _, _) => s.core.wire != []
    case ReaderAnswers => s.reading && s.channel != [] && s.channel[0].kind == Synth
    case ReaderRecords(_) =>
      s.reading && s.channel != [] && s.channel[0].kind != Synth && s.core.replies != []
    case ReaderFails => s.reading
  }

  /** The next step of the send in progress. */
  function GoOn(s: State): State
    requires s.core.sending.Some?
  {
    match s.core.sending.value
    case Checked(_, kind, _) =>
      s.(core := TakeNumber(s.core),
         accepted := if kind == Swallow then s.accepted else s.accepted + [s.core.nextSeq])
    case Numbered(_) => s.(core := SetFlag(s.core))
    case Flagged(p) => s.(core := Enqueue(s.core), channel := s.channel + [p])
    case Queued(_) => s.(core := Write(s.core))
  }

  function Next(s: State, step: Step): State
    requires Enabled(s, step)
  {
    match step
    case ClientCommand(op) =>
      s.(core := Begin(s.core, op, if HeldBack(s.core, op) then Synth else Forward, true))
    case Inject(op) =>
      if HeldBack(s.core, op) then s.(core := s.core.(nextSeq := s.core.nextSeq + 1))
      else s.(core := Begin(s.core, op, Swallow, true))
    case ReEngage => s.(core := Begin(s.core, ESTOP, Swallow, true))
    case RefuseHead(_) =>
      s.(core := s.core.(nextSeq := s.core.nextSeq + 1),
         writer := Refusing(StopCmds(s.core.last), false))
    case SendStop =>
      s.(core := Begin(s.core, s.writer.stops[0], Swallow, false),
         writer := Refusing(s.writer.stops[1..], true))
    case WriterEnds => s.(writer := Ended)
    case SendGoesOn => GoOn(s)
    case DeviceProcesses(clears, ready, playback) =>
      s.(core := Process(s.core, clears, ready, playback))
    case ReaderAnswers =>
      s.(channel := s.channel[1..], delivered := s.delivered + [s.channel[0].seqNo])
    case ReaderRecords(parses) =>
      var p := s.channel[0];
      s.(core := Record(s.core, p, parses), channel := s.channel[1..],
         delivered := if p.kind == Forward then s.delivered + [p.seqNo] else s.delivered)
    case ReaderFails => s.(reading := false)
  }

  /** Right after the hello, whose own report set the flag and the playback state. */
  predicate Fresh(s: State) {
    && s.core.estopSeq == 0 && s.core.estopBy == 0 && s.core.nextSeq > 0
    && s.core.sending.None? && s.core.wire == [] && s.core.replies == []
    && (s.core.estop ==> s.core.flag)
    && s.writer.Reading? && s.reading && s.channel == [] && s.accepted == [] && s.delivered == []
  }

  /** The state after a series of steps, if each of them can be taken. */
  function After(first: State, steps: seq<Step>): Option<State> {
    if steps == [] then Some(first)
    else
      var before := After(first, steps[..|steps| - 1]);
      if before.Some? && Enabled(before.value, steps[|steps| - 1])
      then Some(Next(before.value, steps[|steps| - 1])) else None
  }

  /** A run of a fresh connection that ends in `s`. */
  predicate Run(first: State, steps: seq<Step>, s: State) {
    Fresh(first) && After(first, steps) == Some(s)
  }

  // ---- Alignment of commands and replies -----------------------------------------------------------

  /** The entries of the channel that the device answers. */
  function Written(channel: seq<Pending>): seq<Pending> {
    if channel == [] then []
    else (if channel[0].kind == Synth then [] else [channel[0]]) + Written(channel[1..])
  }

  /** The numbers of the entries that answer the client. */
  function Owed(channel: seq<Pending>): seq<nat> {
    if channel == [] then []
    else (if channel[0].kind == Swallow then [] else [channel[0].seqNo]) + Owed(channel[1..])
  }

  lemma {:induction false} WrittenAppends(channel: seq<Pending>, p: Pending)
    ensures Written(channel + [p]) == Written(channel) + (if p.kind == Synth then [] else [p])
    decreases |channel|
  {
    if channel == [] {
      assert ([] + [p])[1..] == [];
    } else {
      var head := if channel[0].kind == Synth then [] else [channel[0]];
      WrittenAppends(channel[1..], p);
      assert (channel + [p])[1..] == channel[1..] + [p];
      Associates(head, Written(channel[1..]), if p.kind == Synth then [] else [p]);
    }
  }

  lemma {:induction false} OwedAppends(channel: seq<Pending>, p: Pending)
    ensures Owed(channel + [p]) == Owed(channel) + (if p.kind == Swallow then [] else [p.seqNo])
    decreases |channel|
  {
    if channel == [] {
      assert ([] + [p])[1..] == [];
    } else {
      var head := if channel[0].kind == Swallow then [] else [channel[0].seqNo];
      OwedAppends(channel[1..], p);
      assert (channel + [p])[1..] == channel[1..] + [p];
      Associates(head, Owed(channel[1..]), if p.kind == Swallow then [] else [p.seqNo]);
    }
  }

  function Answered(replies: seq<Reply>): seq<Pending> {
    seq(|replies|, i requires 0 <= i < |replies| => replies[i].p)
  }

  /** A command that is in the channel but not written yet. */
  function Unwritten(sending: Option<Sending>): seq<Pending> {
    if sending.Some? && sending.value.Queued? && sending.value.p.kind != Synth
    then [sending.value.p] else []
  }

  /** A client command that has its number but is not in the channel yet. */
  function Unqueued(sending: Option<Sending>): seq<nat> {
    if sending.Some? && (sending.value.Numbered? || sending.value.Flagged?)
       && sending.value.p.kind != Swallow
    then [sending.value.p.seqNo] else []
  }

  /** What the reader still expects from the device is what is under way. */
  predicate Matched(channel: seq<Pending>, c: Core) {
    Written(channel) == Answered(c.replies) + (c.wire + Unwritten(c.sending))
  }

  /** Everything the client sent has been answered or is still owed, in order. */
  predicate Balanced(s: State) {
    s.accepted == s.delivered + (Owed(s.channel) + Unqueued(s.core.sending))
  }

  predicate Sound(s: State) {
    Inv(s.core) && Matched(s.channel, s.core) && Balanced(s)
  }

  lemma FreshIsSound(s: State)
    requires Fresh(s)
    ensures Sound(s)
  {
  }

  // The interlock's own invariant.

  /** Steps that decide on a send. */
  lemma StartKeepsInv(s: State, step: Step)
    requires Inv(s.core) && Enabled(s, step)
    requires step.ClientCommand? || step.Inject? || step.ReEngage? || step.SendStop?
    ensures Inv(Next(s, step).core)
  {
    match step
    case ClientCommand(op) => BeginKeepsInv(s.core, op, if HeldBack(s.core, op) then Synth else Forward, true);
    case Inject(op) => InjectKeepsInv(s.core, op);
    case ReEngage => BeginKeepsInv(s.core, ESTOP, Swallow, true);
    case SendStop => BeginKeepsInv(s.core, s.writer.stops[0], Swallow, false);
  }

  /** Steps of the device and the reader. */
  lemma AnswerKeepsInv(s: State, step: Step)
    requires Inv(s.core) && Enabled(s, step) && (step.DeviceProcesses? || step.ReaderRecords?)
    requires step.ReaderRecords? ==> s.core.replies[0].p == s.channel[0]
    ensures Inv(Next(s, step).core)
  {
    match step
    case DeviceProcesses(clears, ready, playback) => ProcessKeepsInv(s.core, clears, ready, playback);
    case ReaderRecords(parses) => RecordKeepsInv(s.core, parses);
  }

  lemma StepKeepsInv(s: State, step: Step)
    requires Inv(s.core) && Enabled(s, step)
    requires step.ReaderRecords? ==> s.core.replies[0].p == s.channel[0]
    ensures Inv(Next(s, step).core)
  {
    if step.ClientCommand? || step.Inject? || step.ReEngage? || step.SendStop? {
      StartKeepsInv(s, step);
    } else if step.DeviceProcesses? || step.ReaderRecords? {
      AnswerKeepsInv(s, step);
    } else if step.SendGoesOn? {
      SendingKeepsInv(s);
    } else {
      RestKeepsInv(s, step);
    }
  }

  lemma SendingKeepsInv(s: State)
    requires Inv(s.core) && Enabled(s, SendGoesOn)
    ensures Inv(Next(s, SendGoesOn).core)
  {
    assert Next(s, SendGoesOn) == GoOn(s);
    GoOnKeepsInv(s);
  }

  /** The other steps leave the core alone, except that a refusal takes a number. */
  lemma RestKeepsInv(s: State, step: Step)
    requires Inv(s.core) && Enabled(s, step)
    requires step.RefuseHead? || step.WriterEnds? || step.ReaderAnswers? || step.ReaderFails?
    ensures Inv(Next(s, step).core)
  {
    SkipKeepsInv(s.core);
    assert Next(s, step).core == s.core || Next(s, step).core == s.core.(nextSeq := s.core.nextSeq + 1);
  }

  /** A number may be given out to a command that is never sent. */
  lemma SkipKeepsInv(c: Core)
    requires Inv(c)
    ensures Inv(c.(nextSeq := c.nextSeq + 1))
  {
  }

  lemma InjectKeepsInv(c: Core, op: Byte)
    requires Inv(c) && c.sending.None?
    ensures Inv(if HeldBack(c, op) then c.(nextSeq := c.nextSeq + 1) else Begin(c, op, Swallow, true))
  {
    if !HeldBack(c, op) {
      BeginKeepsInv(c, op, Swallow, true);
    }
  }

  lemma GoOnKeepsInv(s: State)
    requires Inv(s.core) && s.core.sending.Some?
    ensures Inv(GoOn(s).core)
  {
    match s.core.sending.value
    case Checked(_, _, _) => NumberKeepsInv(s.core);
    case Numbered(_) => FlagKeepsInv(s.core);
    case Flagged(_) => EnqueueKeepsInv(s.core);
    case Queued(_) => WriteKeepsInv(s.core);
  }

  // Replies answer the commands they are matched with.

  lemma GoOnKeepsMatched(s: State)
    requires Matched(s.channel, s.core) && s.core.sending.Some?
    ensures Matched(GoOn(s).channel, GoOn(s).core)
  {
    var answered, wire := Answered(s.core.replies), s.core.wire;
    match s.core.sending.value
    case Flagged(p) =>
      WrittenAppends(s.channel, p);
      MatchedGrows(answered, wire, Unwritten(Enqueue(s.core).sending));
    case Queued(p) =>
      assert wire + Unwritten(s.core.sending) == Write(s.core).wire + [];
    case _ =>
  }

  lemma MatchedGrows(answered: seq<Pending>, wire: seq<Pending>, more: seq<Pending>)
    ensures (answered + (wire + [])) + more == answered + (wire + more)
  {
  }

  lemma StepKeepsMatched(s: State, step: Step)
    requires Matched(s.channel, s.core) && Enabled(s, step)
    ensures Matched(Next(s, step).channel, Next(s, step).core)
  {
    match step
    case SendGoesOn => GoOnKeepsMatched(s);
    case DeviceProcesses(clears, ready, playback) =>
      ProcessKeepsMatched(s.channel, s.core, clears, ready, playback);
    case ReaderRecords(_) =>
      RepliesMatch(s.channel, s.core);
    case _ =>
  }

  lemma ProcessKeepsMatched(channel: seq<Pending>, c: Core, clears: bool, ready: bool, playback: Playback)
    requires Matched(channel, c) && c.wire != []
    ensures Matched(channel, Process(c, clears, ready, playback))
  {
    var t := Process(c, clears, ready, playback);
    assert Answered(t.replies) == Answered(c.replies) + [c.wire[0]];
    HeadMoves(Answered(c.replies), c.wire, Unwritten(c.sending));
  }

  lemma HeadMoves(answered: seq<Pending>, wire: seq<Pending>, more: seq<Pending>)
    requires wire != []
    ensures answered + (wire + more) == (answered + [wire[0]]) + (wire[1..] + more)
  {
  }

  /** The reply the reader takes is the one to the command it takes from the channel. */
  lemma RepliesMatch(channel: seq<Pending>, c: Core)
    requires Matched(channel, c) && channel != [] && channel[0].kind != Synth && c.replies != []
    ensures c.replies[0].p == channel[0]
    ensures Written(channel[1..]) == Answered(c.replies[1..]) + (c.wire + Unwritten(c.sending))
  {
    var rest := Answered(c.replies[1..]) + (c.wire + Unwritten(c.sending));
    assert Answered(c.replies) == [c.replies[0].p] + Answered(c.replies[1..]);
    assert [channel[0]] + Written(channel[1..]) == [c.replies[0].p] + rest;
    assert ([c.replies[0].p] + rest)[0] == c.replies[0].p && ([c.replies[0].p] + rest)[1..] == rest;
    assert ([channel[0]] + Written(channel[1..]))[1..] == Written(channel[1..]);
  }

  // The client's account.

  lemma GoOnKeepsBalanced(s: State)
    requires Balanced(s) && s.core.sending.Some?
    ensures Balanced(GoOn(s))
  {
    var owed := Owed(s.channel);
    assert owed + [] == owed;
    match s.core.sending.value
    case Checked(_, _, _) =>
      var n := s.core.nextSeq;
      assert (s.delivered + owed) + [n] == s.delivered + (owed + [n]);
    case Flagged(p) =>
      OwedAppends(s.channel, p);
      assert Owed(s.channel + [p]) == owed + Unqueued(s.core.sending);
      assert Owed(s.channel + [p]) + [] == Owed(s.channel + [p]);
    case _ =>
  }

  lemma MovesOver(delivered: seq<nat>, head: seq<nat>, rest: seq<nat>, unqueued: seq<nat>)
    ensures delivered + ((head + rest) + unqueued) == (delivered + head) + (rest + unqueued)
  {
  }

  /** Answering the head of the channel moves its number from owed to delivered. */
  lemma HeadAnswered(channel: seq<Pending>, delivered: seq<nat>, unqueued: seq<nat>)
    requires channel != []
    ensures delivered + (Owed(channel) + unqueued)
         == (if channel[0].kind == Swallow then delivered else delivered + [channel[0].seqNo])
            + (Owed(channel[1..]) + unqueued)
  {
    var head := if channel[0].kind == Swallow then [] else [channel[0].seqNo];
    MovesOver(delivered, head, Owed(channel[1..]), unqueued);
    assert delivered + [] == delivered;
  }

  lemma StepKeepsBalanced(s: State, step: Step)
    requires Balanced(s) && Enabled(s, step)
    ensures Balanced(Next(s, step))
  {
    if step.SendGoesOn? {
      GoOnKeepsBalanced(s);
    } else if step.ReaderAnswers? || step.ReaderRecords? {
      HeadAnswered(s.channel, s.delivered, Unqueued(s.core.sending));
    }
  }

  lemma StepKeepsSound(s: State, step: Step)
    requires Sound(s) && Enabled(s, step)
    ensures Sound(Next(s, step))
  {
    if step.ReaderRecords? {
      RepliesMatch(s.channel, s.core);
    }
    StepKeepsInv(s, step);
    StepKeepsMatched(s, step);
    StepKeepsBalanced(s, step);
  }

  lemma {:induction false} RunIsSound(first: State, steps: seq<Step>, s: State)
    requires Run(first, steps, s)
    ensures Sound(s)
    decreases |steps|
  {
    if steps == [] {
      FreshIsSound(s);
    } else {
      var before := After(first, steps[..|steps| - 1]).value;
      RunIsSound(first, steps[..|steps| - 1], before);
      StepKeepsSound(before, steps[|steps| - 1]);
    }
  }

  // ---- What it is for ---------------------------------------------------------------------------------

  /** In every run, a command that went through the gate and is not ping (0x3f), clear
      (0x63) or an e-stop (0x00, 0xff) finds the device out of e-stop when it is
      processed. */
  lemma GateIsConservative(first: State, steps: seq<Step>, s: State)
    requires Run(first, steps, s) && s.core.wire != [] && s.core.wire[0].gated
    requires var op := s.core.wire[0].op; op != 0x3f && op != 0x63 && op != 0x00 && op != 0xff
    ensures !s.core.estop
  {
    RunIsSound(first, steps, s);
    assert Guarded(s.core.wire[0]);
    assert ClearUpTo(s.core, 0);
  }

  /** In every run the flag is up while an e-stop command is on the wire or the device is in
      e-stop. While it is up, the proxy answers a client command itself, and drops one it
      would inject, exactly if it is not one of those four. */
  lemma EstopIsFlagged(first: State, steps: seq<Step>, s: State, op: Byte)
    requires Run(first, steps, s)
    ensures (s.core.estop || exists i :: 0 <= i < |s.core.wire| && EntersEstop(s.core.wire[i].op)) ==> s.core.flag
    ensures var held := s.core.flag && op != 0x3f && op != 0x63 && op != 0x00 && op != 0xff;
            && (Enabled(s, ClientCommand(op)) ==>
                  Next(s, ClientCommand(op)).core.sending == Some(Checked(op, if held then Synth else Forward, true)))
            && (Enabled(s, Inject(op)) ==>
                  Next(s, Inject(op)).core.sending == if held then None else Some(Checked(op, Swallow, true)))
  {
    RunIsSound(first, steps, s);
    if i :| 0 <= i < |s.core.wire| && EntersEstop(s.core.wire[i].op) {
      assert IsEstop(s.core.wire[i].op);
    }
  }

  /** The flag comes down only with the reply to a command sent after the latest e-stop,
      which reports ready; and then the device is out of e-stop and nothing on its way
      can put it back. */
  lemma OnlyNewsClears(first: State, steps: seq<Step>, s: State, step: Step)
    requires Run(first, steps, s) && Enabled(s, step)
    requires s.core.flag && !Next(s, step).core.flag
    ensures step.ReaderRecords? && step.parses
    ensures s.channel[0].seqNo > s.core.estopSeq
    ensures s.core.replies[0].p == s.channel[0] && s.core.replies[0].ready
    ensures !s.core.estop && NoEstop(s.core.wire)
  {
    RunIsSound(first, steps, s);
    if step.ReaderRecords? {
      RepliesMatch(s.channel, s.core);
      StepKeepsSound(s, step);
      assert Conservative(Next(s, step).core);
    }
  }

  /** In every run the client has got one reply for each of its first commands, in the
      order it sent them, and none for what the proxy injected; the reply the reader takes
      for a command is the device's reply to that command; and once nothing is under way,
      every command has been answered. */
  lemma RepliesInOrder(first: State, steps: seq<Step>, s: State)
    requires Run(first, steps, s)
    ensures s.delivered <= s.accepted
    ensures Enabled(s, ReaderRecords(true)) ==> s.core.replies[0].p == s.channel[0]
    ensures s.channel == [] && s.core.sending.None? ==> s.delivered == s.accepted
  {
    RunIsSound(first, steps, s);
    if Enabled(s, ReaderRecords(true)) {
      RepliesMatch(s.channel, s.core);
    }
  }
}
