/** The arm/disarm lifecycle of the driver.

    Control threads change the desired word between any two reads of it; the backend
    may fail any command; the pacing adapter is abstract and only ever closes the
    shutter. Everything the driver does is recorded, and what is promised is said of
    that record. */
module Lifecycle {
  import opened Points
  import Session

  datatype Shutter = Open | Closed | Unknown

  datatype Event =
    | PassBegins
    | PassEnds
    | Read(word: nat)
    | OpenShutter(ok: bool)
    | CloseShutter(ok: bool)
    | DiscardCached
    | AdapterEdge(armed: bool)
    | SourceDisarm
    | StartupBlank
    | FilterReset(arm: bool)
    | DeviceReset(ok: bool)
    | Handled(word: nat)
    | Chosen(word: nat)
    | Produced(chunk: seq<Point>)
    | Adopted(id: nat)
    | CandidateReleased(id: nat)
    | IsConnected(answer: bool)
    | StopDevice
    | Disconnect

  /** What happened, the latest event last. */
  datatype Log = Empty | Then(before: Log, event: Event)

  function Events(log: Log): seq<Event> {
    if log.Empty? then [] else Events(log.before) + [log.event]
  }

  // ---- What is promised of the record ---------------------------------------------------------

  /** One lifecycle pass so far: what was known of the shutter when it began, the first
      word it read, and how many opens, closes and failed closes it issued. */
  datatype Pass = Pass(began: Shutter, firstRead: Option<nat>, opens: nat, closes: nat, failedCloses: nat)

  /** What a record amounts to: the word read last, how far a rising preparation has
      come since then, the generation prepared on the current backend, what is known of
      its shutter, and the pass in progress; the generation handled last, the word by
      which the content being produced is armed or not, and whether since the last
      cleanup a startup blank was armed and whether armed content was produced for a
      generation that is not prepared. */
  datatype Summary = Summary(
    lastRead: Option<nat>,
    progress: nat,
    prepared: Option<nat>,
    shutter: Shutter,
    pass: Pass,
    handled: nat,
    choice: Option<nat>,
    blanked: bool,
    exposed: bool)

  /** Content that is produced now is armed. */
  predicate ChoseArmed(s: Summary) {
    s.choice.Some? && Session.IsArmed(s.choice.value)
  }

  /** The next step of a preparation, if it is the one that is due. */
  function Advance(s: Summary, due: nat): Summary {
    s.(progress := if s.progress == due then due + 1 else 0)
  }

  /** A preparation is discard, adapter edge, startup blank, filter reset and a successful
      device reset, in this order and with nothing else in between. A falling cleanup, a
      failed reset or a new backend undoes it. */
  function Observe(s: Summary, e: Event): Summary {
    match e
    case PassBegins => s.(progress := 0, choice := None, pass := Pass(s.shutter, None, 0, 0, 0))
    case Read(word) =>
      s.(lastRead := Some(word), progress := 0,
         pass := if s.pass.firstRead.None? then s.pass.(firstRead := Some(word)) else s.pass)
    case OpenShutter(ok) =>
      s.(shutter := if ok then Open else Unknown, progress := 0,
         pass := s.pass.(opens := s.pass.opens + 1))
    case CloseShutter(ok) =>
      s.(shutter := if ok then Closed else Unknown, progress := 0,
         pass := s.pass.(closes := s.pass.closes + 1,
                         failedCloses := s.pass.failedCloses + (if ok then 0 else 1)))
    case DiscardCached => s.(progress := 1)
    case AdapterEdge(armed) => if armed then Advance(s, 1) else s.(progress := 0, prepared := None)
    case StartupBlank => Advance(s, 2).(blanked := true)
    case FilterReset(arm) => if arm then Advance(s, 3) else s.(progress := 0)
    case DeviceReset(ok) =>
      s.(progress := 0,
         prepared := if !ok then None else if s.progress == 4 then s.lastRead else s.prepared)
    case SourceDisarm => s.(progress := 0, prepared := None, blanked := false, exposed := false)
    case Adopted(_) =>
      s.(progress := 0, prepared := None, shutter := Closed, handled := 0,
         choice := None, blanked := false, exposed := false)
    case Handled(word) => s.(progress := 0, handled := word)
    case Chosen(word) => s.(progress := 0, choice := Some(word))
    case Produced(_) =>
      s.(progress := 0, exposed := s.exposed || (ChoseArmed(s) && s.prepared != s.choice))
    case _ => s.(progress := 0)
  }

  function Summarize(log: Log): Summary {
    if log.Empty? then Summary(None, 0, None, Closed, Pass(Closed, None, 0, 0, 0), 0, None, false, false)
    else Observe(Summarize(log.before), log.event)
  }

  /** A pass that first read a disarmed word: it opened nothing, does not end open, ends
      closed unless one of its own closes failed, and told a shutter that was not known
      to be closed to close. */
  predicate EndsDark(pass: Pass, shutter: Shutter) {
    && pass.opens == 0
    && shutter != Open
    && (shutter == Closed || pass.failedCloses > 0)
    && (pass.began != Closed ==> pass.closes > 0)
  }

  /** An open command is for the generation just read, which is armed and prepared on
      this backend. Neither a falling cleanup nor a rising preparation runs under an
      open shutter, and no two preparations without a cleanup in between. A pass that
      found the session disarmed ends dark. Content is produced only between passes, by a
      word chosen since the last one; that word is at least as new as the handled
      generation, and if it is armed, its generation is prepared exactly when the two are
      the same. */
  predicate Allowed(s: Summary, e: Event) {
    match e
    case OpenShutter(_) =>
      s.lastRead.Some? && Session.IsArmed(s.lastRead.value) && s.prepared == s.lastRead
    case AdapterEdge(_) => s.choice.None?
    case SourceDisarm => s.shutter != Open && s.choice.None?
    case StartupBlank => s.shutter != Open && !s.blanked
    case DeviceReset(_) => s.shutter != Open && s.choice.None?
    case Handled(_) => s.choice.None?
    case PassEnds =>
      s.pass.firstRead.Some?
      && (!Session.IsArmed(s.pass.firstRead.value) ==> EndsDark(s.pass, s.shutter))
    case Produced(_) => s.choice.Some?
    case Chosen(word) =>
      s.handled <= word && (Session.IsArmed(word) ==> (s.prepared == Some(word) <==> word == s.handled))
    case _ => true
  }

  /** How the pass in progress went: how many words it read and whether they all were the
      first one, whether it cleaned up after an old generation, whether a command failed,
      whether the word changed only after it had been confirmed, whether the last command
      to the shutter was a close; and how far a falling cleanup has come. */
  datatype Course = Course(
    count: nat,
    same: bool,
    fell: bool,
    failed: bool,
    late: bool,
    closing: bool,
    cleanup: nat)

  const NEW_COURSE := Course(0, true, false, false, false, false, 0)

  /** The next step of a cleanup, if it is the one that is due. */
  function Cleaning(c: Course, due: nat): nat {
    if c.cleanup == due then due + 1 else 0
  }

  /** A pass reads the word once to decide and once more to confirm, and a pass that cleans
      up also in between; only what it reads after that can be a late edge. */
  function Proceeds(c: Course, first: Option<nat>, e: Event): Course {
    match e
    case PassBegins => NEW_COURSE
    case Read(word) =>
      var agrees := first.None? || first == Some(word);
      c.(count := c.count + 1, cleanup := 0, same := c.same && agrees,
         late := c.same && !agrees && c.count >= (if c.fell then 3 else 2))
    case OpenShutter(ok) => c.(failed := c.failed || !ok, closing := false, cleanup := 0)
    case CloseShutter(ok) => c.(failed := c.failed || !ok, closing := true, cleanup := 0)
    case DeviceReset(ok) => c.(failed := c.failed || !ok, cleanup := 0)
    case DiscardCached => c.(cleanup := 1)
    case AdapterEdge(armed) => c.(cleanup := if armed then 0 else Cleaning(c, 1))
    case SourceDisarm => c.(fell := true, cleanup := Cleaning(c, 2))
    case FilterReset(arm) => c.(cleanup := if arm then 0 else Cleaning(c, 3))
    case _ => c.(cleanup := 0)
  }

  function Follow(log: Log): Course {
    if log.Empty? then NEW_COURSE
    else Proceeds(Follow(log.before), Summarize(log.before).pass.firstRead, log.event)
  }

  /** A pass that read one armed word throughout, and all of whose commands succeeded, ends
      with the shutter open; one whose armed word changed after it was confirmed ends with
      a close. */
  predicate EndsLit(c: Course, shutter: Shutter) {
    && (c.same && !c.failed ==> shutter == Open)
    && (c.late && !c.same ==> c.closing)
  }

  /** What the course of the pass adds: an armed pass ends lit or is closed again, and a
      generation is handled only when it was read last and the cleanup is complete or
      that generation is prepared. */
  predicate Due(s: Summary, c: Course, e: Event) {
    match e
    case PassEnds => s.pass.firstRead.Some? && Session.IsArmed(s.pass.firstRead.value) ==> EndsLit(c, s.shutter)
    case Handled(word) => s.lastRead == Some(word) && (c.cleanup == 4 || s.prepared == Some(word))
    case _ => true
  }

  predicate Safe(log: Log) {
    log.Then? ==>
      && Safe(log.before)
      && Allowed(Summarize(log.before), log.event)
      && Due(Summarize(log.before), Follow(log.before), log.event)
      && (log.event.Chosen? ==> JustPassed(log.before))
  }

  /** Content is armed or not by a word read right after a pass. */
  predicate JustPassed(log: Log) {
    log.Then? && log.event == PassEnds
  }

  /** How often the loop has gone round: with a pass, or with a new backend. */
  function Rounds(log: Log): nat {
    if log.Empty? then 0
    else Rounds(log.before) + (if log.event == PassEnds || log.event.Adopted? then 1 else 0)
  }

  /** The last command to the current backend's shutter was a close. */
  predicate LastCommandCloses(log: Log) {
    log.Then? &&
      match log.event
      case CloseShutter(_) => true
      case OpenShutter(_) => false
      case Adopted(_) => false
      case _ => LastCommandCloses(log.before)
  }

  /** The record ends with stop and then disconnect, or with the answer that there is
      no connection left to stop. */
  predicate EndsSession(log: Log) {
    && log.Then?
    && (|| log.event == IsConnected(false)
        || (&& log.event == Disconnect
            && log.before.Then? && log.before.event == StopDevice
            && log.before.before.Then? && log.before.before.event == IsConnected(true)))
  }

  // ---- The same, spelled out ----------------------------------------------------------------------

  /** The steps of a rising preparation. */
  function Rising(k: nat): Event {
    match k
    case 0 => DiscardCached
    case 1 => AdapterEdge(true)
    case 2 => StartupBlank
    case 3 => FilterReset(true)
    case _ => DeviceReset(true)
  }

  function LastRead(log: seq<Event>): Option<nat> {
    if log == [] then None
    else if log[|log| - 1].Read? then Some(log[|log| - 1].word)
    else LastRead(log[..|log| - 1])
  }

  predicate Undoes(e: Event) {
    e == AdapterEdge(false) || e == SourceDisarm || e == DeviceReset(false) || e.Adopted?
  }

  /** The record holds a whole rising preparation for `word` at `j`, not undone since. */
  predicate PreparedAt(log: seq<Event>, word: nat, j: nat) {
    && j + 5 <= |log|
    && (forall k :: 0 <= k < 5 ==> log[j + k] == Rising(k))
    && LastRead(log[..j]) == Some(word)
    && (forall i :: j + 5 <= i < |log| ==> !Undoes(log[i]))
  }

  ghost predicate Prepared(log: seq<Event>, word: nat) {
    exists j: nat :: PreparedAt(log, word, j)
  }

  /** The first `p` steps of a preparation end the record. */
  predicate UnderWay(log: seq<Event>, p: nat) {
    p <= 4 && p <= |log| && forall k :: 0 <= k < p ==> log[|log| - p + k] == Rising(k)
  }

  /** What the record says of the current backend's shutter: how the last command to it
      came out, closed if there was none since it was adopted. */
  function ShutterOf(log: seq<Event>): Shutter {
    if log == [] then Closed
    else
      match log[|log| - 1]
      case OpenShutter(ok) => if ok then Open else Unknown
      case CloseShutter(ok) => if ok then Closed else Unknown
      case Adopted(_) => Closed
      case _ => ShutterOf(log[..|log| - 1])
  }

  /** The events of the pass in progress. */
  function ThisPass(log: seq<Event>): seq<Event> {
    if log == [] || log[|log| - 1] == PassBegins then []
    else ThisPass(log[..|log| - 1]) + [log[|log| - 1]]
  }

  /** The record up to where that pass began. */
  function BeforePass(log: seq<Event>): seq<Event> {
    if log == [] then []
    else if log[|log| - 1] == PassBegins then log[..|log| - 1]
    else BeforePass(log[..|log| - 1])
  }

  function FirstRead(log: seq<Event>): Option<nat> {
    if log == [] then None
    else if log[0].Read? then Some(log[0].word)
    else FirstRead(log[1..])
  }

  predicate Opens(events: seq<Event>) {
    OpenShutter(true) in events || OpenShutter(false) in events
  }

  predicate Closes(events: seq<Event>) {
    CloseShutter(true) in events || CloseShutter(false) in events
  }

  /** The pass of a summary is the pass of the record. */
  predicate PassMeans(p: Pass, log: seq<Event>) {
    && p.began == ShutterOf(BeforePass(log))
    && p.firstRead == FirstRead(ThisPass(log))
    && (p.opens > 0 <==> Opens(ThisPass(log)))
    && (p.closes > 0 <==> Closes(ThisPass(log)))
    && (p.failedCloses > 0 <==> CloseShutter(false) in ThisPass(log))
  }

  /** A summary says of a record what it should. */
  ghost predicate Means(s: Summary, log: seq<Event>) {
    && s.lastRead == LastRead(log)
    && UnderWay(log, s.progress)
    && (s.prepared.Some? ==> Prepared(log, s.prepared.value))
    && s.shutter == ShutterOf(log)
    && PassMeans(s.pass, log)
  }

  lemma {:induction false} SummaryMeans(log: Log)
    ensures Means(Summarize(log), Events(log))
    decreases log
  {
    if log.Then? {
      SummaryMeans(log.before);
      MeansNext(Events(log.before), Summarize(log.before), log.event);
    }
  }

  lemma MeansNext(before: seq<Event>, s: Summary, e: Event)
    requires Means(s, before)
    ensures Means(Observe(s, e), before + [e])
  {
    LastNext(before, s, e);
    ProgressMeans(before, s, e);
    if Observe(s, e).prepared.Some? {
      PreparedMeans(before, s, e);
    }
    PassMeansNext(before, s, e);
  }

  lemma LastNext(before: seq<Event>, s: Summary, e: Event)
    requires s.lastRead == LastRead(before) && s.shutter == ShutterOf(before)
    ensures Observe(s, e).lastRead == LastRead(before + [e])
    ensures Observe(s, e).shutter == ShutterOf(before + [e])
  {
    assert (before + [e])[..|before|] == before;
  }

  lemma {:induction false} FirstReadAppends(log: seq<Event>, e: Event)
    ensures FirstRead(log + [e])
         == if FirstRead(log).Some? then FirstRead(log) else if e.Read? then Some(e.word) else None
    decreases |log|
  {
    if log != [] {
      assert (log + [e])[1..] == log[1..] + [e];
      FirstReadAppends(log[1..], e);
    } else {
      assert ([e])[1..] == [];
      assert [] + [e] == [e];
    }
  }

  lemma ThisPassNext(before: seq<Event>, e: Event)
    ensures if e == PassBegins then ThisPass(before + [e]) == [] && BeforePass(before + [e]) == before
            else
              && ThisPass(before + [e]) == ThisPass(before) + [e]
              && BeforePass(before + [e]) == BeforePass(before)
  {
    assert (before + [e])[..|before|] == before;
  }

  lemma PassMeansNext(before: seq<Event>, s: Summary, e: Event)
    requires PassMeans(s.pass, before) && s.shutter == ShutterOf(before)
    ensures PassMeans(Observe(s, e).pass, before + [e])
  {
    ThisPassNext(before, e);
    if e != PassBegins {
      FirstReadAppends(ThisPass(before), e);
      MembersAppend(ThisPass(before), e);
      PassCounts(s, e);
    }
  }

  /** What an event inside a pass adds to its summary. */
  lemma PassCounts(s: Summary, e: Event)
    requires e != PassBegins
    ensures var p, q := s.pass, Observe(s, e).pass;
            && q.began == p.began
            && q.firstRead == (if p.firstRead.Some? then p.firstRead else if e.Read? then Some(e.word) else None)
            && (q.opens > 0 <==> p.opens > 0 || e.OpenShutter?)
            && (q.closes > 0 <==> p.closes > 0 || e.CloseShutter?)
            && (q.failedCloses > 0 <==> p.failedCloses > 0 || e == CloseShutter(false))
  {
  }

  lemma MembersAppend(events: seq<Event>, e: Event)
    ensures Opens(events + [e]) <==> Opens(events) || e.OpenShutter?
    ensures Closes(events + [e]) <==> Closes(events) || e.CloseShutter?
    ensures CloseShutter(false) in events + [e] <==> CloseShutter(false) in events || e == CloseShutter(false)
  {
  }

  lemma ProgressMeans(before: seq<Event>, s: Summary, e: Event)
    requires UnderWay(before, s.progress)
    ensures UnderWay(before + [e], Observe(s, e).progress)
  {
    var log, q := before + [e], Observe(s, e).progress;
    forall k | 0 <= k < q
      ensures log[|log| - q + k] == Rising(k)
    {
      if k < q - 1 {
        assert log[|log| - q + k] == before[|before| - s.progress + k];
      }
    }
  }

  lemma PreparedMeans(before: seq<Event>, s: Summary, e: Event)
    requires Means(s, before) && Observe(s, e).prepared.Some?
    ensures Prepared(before + [e], Observe(s, e).prepared.value)
  {
    var log := before + [e];
    if e == DeviceReset(true) && s.progress == 4 {
      var j := |before| - 4;
      NoReadUnderWay(before, 4);
      assert log[..j] == before[..j];
      forall k | 0 <= k < 5
        ensures log[j + k] == Rising(k)
      {
        assert k < 4 ==> before[|before| - 4 + k] == Rising(k);
      }
      assert PreparedAt(log, s.lastRead.value, j);
    } else {
      var word := s.prepared.value;
      var j: nat :| PreparedAt(before, word, j);
      assert log[..j] == before[..j];
      assert PreparedAt(log, word, j);
    }
  }

  /** The word read last was read before the preparation under way. */
  lemma {:induction false} NoReadUnderWay(log: seq<Event>, p: nat)
    requires UnderWay(log, p)
    ensures LastRead(log) == LastRead(log[..|log| - p])
    decreases p
  {
    if p == 0 {
      assert log[..|log|] == log;
    } else {
      var before := log[..|log| - 1];
      assert log[|log| - p + (p - 1)] == Rising(p - 1);
      forall k | 0 <= k < p - 1
        ensures before[|before| - (p - 1) + k] == Rising(k)
      {
        assert log[|log| - p + k] == Rising(k);
      }
      NoReadUnderWay(before, p - 1);
      assert before[..|before| - (p - 1)] == log[..|log| - p];
    }
  }

  /** In a safe record every open command answers to a whole preparation, on the current
      backend, for the armed generation read just before it. */
  lemma {:induction false} OpenIsPrepared(log: Log, i: nat)
    requires Safe(log) && i < |Events(log)| && Events(log)[i].OpenShutter?
    ensures LastRead(Events(log)[..i]).Some?
    ensures var word := LastRead(Events(log)[..i]).value;
            Session.IsArmed(word) && Prepared(Events(log)[..i], word)
    decreases log
  {
    if i == |Events(log)| - 1 {
      SummaryMeans(log.before);
      assert Events(log)[..i] == Events(log.before);
    } else {
      OpenIsPrepared(log.before, i);
      assert Events(log.before)[..i] == Events(log)[..i];
    }
  }

  /** In a safe record every pass that first read a disarmed word ended dark: it opened
      nothing, the last command to the shutter did not open it, it is closed unless a
      close of this very pass failed, and if it was not known to be closed when the pass
      began it was told to close. */
  lemma {:induction false} DisarmedPassEndsDark(log: Log, j: nat)
    requires Safe(log) && j < |Events(log)| && Events(log)[j] == PassEnds
    ensures var before := Events(log)[..j];
            var pass := ThisPass(before);
            && FirstRead(pass).Some?
            && (!Session.IsArmed(FirstRead(pass).value) ==>
                  && !Opens(pass) && ShutterOf(before) != Open
                  && (ShutterOf(before) == Closed || CloseShutter(false) in pass)
                  && (ShutterOf(BeforePass(before)) != Closed ==> Closes(pass)))
    decreases log
  {
    if j == |Events(log)| - 1 {
      SummaryMeans(log.before);
      assert Events(log)[..j] == Events(log.before);
    } else {
      DisarmedPassEndsDark(log.before, j);
      assert Events(log.before)[..j] == Events(log)[..j];
    }
  }
}
