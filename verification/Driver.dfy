/** The driver loop itself: shutter and lifecycle state updated in place, against
    control threads that act at any moment and a backend that may fail any command. */
module Driver {
  import opened Points
  import opened Lifecycle
  import Session
  import Reconnect

  /** The desired word after `edges` edges. The 64-bit word repeats only after 2^63
      edges; the driver is modelled for fewer. */
  function Word(edges: nat): (word: nat)
    ensures Session.IsArmed(word) <==> edges % 2 == 1
  {
    2 * edges + edges % 2
  }

  /** Below that bound it is the word the control threads maintain. */
  lemma WordIsTheWord(edges: nat)
    requires edges < Session.HALF_BOUND
    ensures Word(edges) == Session.WordAfter(edges)
  {
    Session.WordOf(edges, 0, edges);
  }

  lemma WordGrows(a: nat, b: nat)
    requires a <= b
    ensures Word(a) <= Word(b) && (a < b ==> Word(a) < Word(b))
  {
  }

  datatype TransitionOutcome = Continue | Disconnected

  datatype Reconciled = Proceed | Again | Lost

  datatype Replacement =
    | Replaced(id: nat, events: seq<Reconnect.Event>)
    | Failed(exit: Reconnect.Exit)
    | Waiting

  /** Retry limit, whether the device is flapping, and what the environment does: every
      attempt, every answer to "stop requested?", and for how long it is watched. */
  datatype Policy = Policy(
    maxRetries: Option<nat>,
    flapping: bool,
    env: nat -> Reconnect.Attempt,
    stops: nat -> bool,
    horizon: nat)

  datatype StepOutcome = Stepped | StepStopped | StepDisconnected

  /** How `run` ends. `Running` and `Reconnecting` are no ends: the loop, or a reconnect in
      it, is still going when the caller stops watching it. */
  datatype RunExit =
    | SetupFailed
    | Stopped
    | StopError
    | ProducerEnded
    | ReconnectExit(exit: Reconnect.Exit)
    | Running
    | Reconnecting

  /** The shared word, changed by other threads at any time. */
  class Control {
    var edges: nat

    function Live(): nat
      reads this
    {
      Word(edges)
    }

    constructor ()
      ensures edges == 0
    {
      edges := 0;
    }

    /** Other threads make any number of edges. */
    method OthersAct()
      modifies this
      ensures edges >= old(edges)
    {
      var more: nat :| true;
      edges := edges + more;
    }
  }

  class Driver {
    const control: Control
    /** Confirmed state of the hardware shutter. */
    var shutter: Shutter
    /** Last generation fully handled. */
    var handled: nat
    /** Everything that happened so far. */
    ghost var log: Log

    /** What holds whenever the loop starts a pass. If the handled generation is armed
        but was never prepared on this backend, the live word is strictly newer, so the
        next pass cannot mistake it for handled. An open shutter is open for a prepared
        generation. */
    ghost predicate Valid()
      reads this, control
    {
      var s := Summarize(log);
      && Safe(log)
      && shutter == s.shutter
      && handled <= control.Live()
      && (Session.IsArmed(handled) ==> s.prepared == Some(handled) || handled < control.Live())
      && (shutter == Open ==> Session.IsArmed(handled) && s.prepared == Some(handled))
      && Kept(s, handled)
    }

    /** The only generation that can be prepared, or have a startup blank armed for it, is
        the handled one. */
    static ghost predicate Kept(s: Summary, handled: nat) {
      && s.handled == handled
      && (s.prepared.Some? ==> s.prepared == Some(handled))
      && (s.blanked ==> Session.IsArmed(handled) && s.prepared == Some(handled))
    }

    constructor (control: Control)
      ensures this.control == control
      ensures shutter == Closed && handled == 0 && log == Empty
      ensures Valid()
    {
      this.control := control;
      shutter := Closed;
      handled := 0;
      log := Empty;
    }

    ghost method Record(e: Event)
      requires Safe(log) && Allowed(Summarize(log), e) && Due(Summarize(log), Follow(log), e)
      requires e.Chosen? ==> JustPassed(log)
      modifies this`log
      ensures log == Then(old(log), e) && Safe(log)
      ensures Rounds(log) == old(Rounds(log)) + (if e == PassEnds || e.Adopted? then 1 else 0)
    {
      log := Then(log, e);
    }

    /** `control.desired_state()`: whatever other threads have made of it by now. */
    method DesiredState() returns (word: nat)
      requires Safe(log)
      modifies this`log, control
      ensures word == control.Live() && control.edges >= old(control.edges)
      ensures log == Then(old(log), Read(word)) && Safe(log) && Rounds(log) == old(Rounds(log))
    {
      control.OthersAct();
      word := control.Live();
      Record(Read(word));
    }

    /** The backend takes a shutter command, or fails to. */
    method SetShutter(open: bool) returns (ok: bool)
      requires Safe(log) && (open ==> Allowed(Summarize(log), OpenShutter(true)))
      modifies this`log
      ensures log == Then(old(log), if open then OpenShutter(ok) else CloseShutter(ok)) && Safe(log)
      ensures Rounds(log) == old(Rounds(log))
    {
      ok :| true;
      Record(if open then OpenShutter(ok) else CloseShutter(ok));
    }

    /** Close unless it is known to be closed already, or in any case if forced. */
    method CommandClose(force: bool)
      requires Safe(log) && shutter == Summarize(log).shutter
      modifies this`log, this`shutter
      ensures Safe(log) && shutter == Summarize(log).shutter && shutter != Open
      ensures if force || old(shutter) != Closed
              then log == Then(old(log), CloseShutter(shutter == Closed))
              else log == old(log) && shutter == Closed
      ensures Rounds(log) == old(Rounds(log))
    {
      if force || shutter != Closed {
        var ok := SetShutter(false);
        shutter := if ok then Closed else Unknown;
      }
    }

    /** Nothing opened in this pass, and the shutter is on its way to dark: closed, or
        a close failed, and told to close if it had not been known to be closed. */
    ghost predicate Darkening()
      reads this
    {
      EndsDark(Summarize(log).pass, Summarize(log).shutter)
    }

    /** The pass has read the word and done nothing else. */
    static ghost predicate FirstSteps(s: Summary) {
      s.pass.opens == s.pass.closes == s.pass.failedCloses == 0 && s.pass.began == s.shutter
    }

    /** The pass has read one word, once. */
    static ghost predicate Decided(c: Course) {
      c.count == 1 && c.same && !c.fell
    }

    /** All words read were the same, and the next one is to confirm them. */
    static ghost predicate Confirmable(c: Course) {
      c.same && c.count == if c.fell then 2 else 1
    }

    /** The word changed before it was confirmed. */
    static ghost predicate Withdrawn(c: Course) {
      !c.same && !c.late
    }

    /** The source discards what it cached and the adapter is told of the edge. */
    method SwitchContent(armed: bool)
      requires Safe(log) && Summarize(log).choice.None?
      modifies this`log
      ensures Safe(log) && Rounds(log) == old(Rounds(log))
      ensures Summarize(log) == if armed then old(Summarize(log)).(progress := 2)
                                else old(Summarize(log)).(progress := 0, prepared := None)
      ensures Follow(log) == old(Follow(log)).(cleanup := if armed then 0 else 2)
    {
      Record(DiscardCached);
      Record(AdapterEdge(armed));
    }

    /** Everything that was retained for the old generation goes. */
    method Retire()
      requires Safe(log) && Summarize(log).shutter != Open && Summarize(log).choice.None?
      modifies this`log
      ensures Safe(log) && Rounds(log) == old(Rounds(log))
      ensures Summarize(log)
           == old(Summarize(log)).(progress := 0, prepared := None, blanked := false, exposed := false)
      ensures Follow(log) == old(Follow(log)).(fell := true, cleanup := 4)
    {
      SwitchContent(false);
      Record(SourceDisarm);
      Record(FilterReset(false));
    }

    /** Falling cleanup: the shutter first, then everything that was retained. */
    method FallingCleanup(desired: nat)
      requires Safe(log) && shutter == Summarize(log).shutter && Summarize(log).choice.None?
      requires Summarize(log).lastRead == Some(desired)
      modifies this
      ensures Safe(log) && shutter == Summarize(log).shutter && Summarize(log).choice.None?
      ensures handled == desired && Summarize(log).prepared == None
      ensures Kept(Summarize(log), handled) && !Summarize(log).blanked
      ensures var s, t := old(Summarize(log)), Summarize(log);
              && t.lastRead == s.lastRead && t.pass.firstRead == s.pass.firstRead
              && t.shutter != Open
              && (FirstSteps(s) ==> Darkening())
      ensures var c, d := old(Follow(log)), Follow(log);
              d.count == c.count && d.same == c.same && d.fell
      ensures Rounds(log) == old(Rounds(log))
    {
      CommandClose(false);
      Retire();
      handled := desired;
      Record(Handled(desired));
    }

    /** Falling cleanup, after which the word is read again. */
    method FallAndReread(desired: nat) returns (again: nat)
      requires Safe(log) && shutter == Summarize(log).shutter
      requires desired == control.Live() && Summarize(log).choice.None?
      requires Summarize(log).lastRead == Summarize(log).pass.firstRead == Some(desired)
      requires Decided(Follow(log))
      modifies this, control
      ensures control.edges >= old(control.edges) && desired <= again == control.Live()
      ensures Safe(log) && shutter == Summarize(log).shutter
      ensures handled == desired
      ensures Kept(Summarize(log), handled) && !Summarize(log).blanked
      ensures var s, t := old(Summarize(log)), Summarize(log);
              && t.prepared == None && t.lastRead == Some(again) && t.choice.None?
              && t.pass.firstRead == s.pass.firstRead
              && t.shutter != Open
              && (FirstSteps(s) ==> Darkening())
      ensures if again == desired then Confirmable(Follow(log)) else Withdrawn(Follow(log))
      ensures Rounds(log) == old(Rounds(log))
    {
      FallingCleanup(desired);
      again := DesiredState();
      WordGrows(old(control.edges), control.edges);
    }

    /** Rising preparation; it succeeds when the device's buffer could be reset. */
    method RisingPreparation() returns (ok: bool)
      requires Safe(log) && Summarize(log).shutter != Open && Summarize(log).lastRead.Some?
      requires !Summarize(log).blanked && Summarize(log).choice.None?
      modifies this`log
      ensures Safe(log)
      ensures var s := old(Summarize(log));
              Summarize(log) == s.(progress := 0, prepared := if ok then s.lastRead else None, blanked := true)
      ensures var c, d := old(Follow(log)), Follow(log);
              d.count == c.count && d.same == c.same && d.fell == c.fell
      ensures Rounds(log) == old(Rounds(log))
    {
      SwitchContent(true);
      Record(StartupBlank);
      Record(FilterReset(true));
      ok :| true;
      Record(DeviceReset(ok));
    }

    /** Rising preparation of a generation; a device that cannot be reset is closed and
        dropped. */
    method Rise(desired: nat) returns (ok: bool)
      requires Safe(log) && shutter == Summarize(log).shutter != Open
      requires Summarize(log).lastRead == Some(desired) && Session.IsArmed(desired)
      requires !Summarize(log).blanked && Summarize(log).choice.None?
      modifies this
      ensures Safe(log) && shutter == Summarize(log).shutter != Open
      ensures ok ==> handled == desired && Kept(Summarize(log), handled)
      ensures ok ==> Summarize(log).prepared == Some(desired)
      ensures ok ==> Summarize(log).pass.firstRead == old(Summarize(log)).pass.firstRead
      ensures ok ==> (old(Confirmable(Follow(log))) ==> Confirmable(Follow(log)))
      ensures Rounds(log) == old(Rounds(log))
    {
      ok := RisingPreparation();
      if ok {
        handled := desired;
        Record(Handled(desired));
      } else {
        CommandClose(true);
        Record(Disconnect);
      }
    }

    /** Ready to open or close for the generation, which is handled and, if armed,
        prepared; or a disarmed pass that is dark so far. */
    ghost predicate Settled(desired: nat)
      reads this, control
    {
      var s := Summarize(log);
      && Safe(log) && shutter == s.shutter
      && handled == desired <= control.Live()
      && s.pass.firstRead == Some(desired)
      && (Session.IsArmed(desired) ==> s.prepared == Some(desired))
      && (!Session.IsArmed(desired) ==> shutter != Open && (FirstSteps(s) || Darkening()))
      && Kept(s, handled)
      && Confirmable(Follow(log))
    }

    /** What has been read is new: clean up after the old generation, prepare the new one. */
    method Reconcile(desired: nat) returns (next: Reconciled)
      requires Safe(log) && shutter == Summarize(log).shutter
      requires desired == control.Live() && handled != desired && Kept(Summarize(log), handled)
      requires shutter == Open ==> Session.IsArmed(handled)
      requires Summarize(log).lastRead == Summarize(log).pass.firstRead == Some(desired)
      requires FirstSteps(Summarize(log)) && Summarize(log).choice.None? && Decided(Follow(log))
      modifies this, control
      ensures control.edges >= old(control.edges)
      ensures next == Proceed ==> Settled(desired)
      ensures next == Again ==>
                && Safe(log) && shutter == Summarize(log).shutter != Open
                && handled == desired < control.Live() && Kept(Summarize(log), handled)
                && Summarize(log).pass.firstRead == Some(desired) && Darkening()
                && Withdrawn(Follow(log))
      ensures next == Lost ==> Safe(log) && shutter == Summarize(log).shutter != Open
      ensures Rounds(log) == old(Rounds(log))
    {
      if Session.IsArmed(handled) || !Session.IsArmed(desired) {
        var again := FallAndReread(desired);
        if again != desired {
          return Again;
        }
      }
      if Session.IsArmed(desired) {
        var ok := Rise(desired);
        if !ok {
          return Lost;
        }
      }
      next := Proceed;
    }

    /** Reconcile the hardware with the desired generation.

        The shutter is opened only for a generation whose own preparation completed on
        this backend and which is still the live one when it is read again. A pass that
        first reads a disarmed word opens nothing and does not end with the shutter
        open: it ends closed, unless a close failed in this very pass, and a shutter
        that was not known to be closed is told to close. A pass that reads one armed word
        throughout ends with the shutter open unless a command failed, and if the word
        changes after it was confirmed the pass ends with a close. */
    method HandleShutterTransition() returns (outcome: TransitionOutcome)
      requires Valid()
      modifies this, control
      ensures control.edges >= old(control.edges)
      ensures outcome == Continue ==> Valid() && log.Then? && log.event == PassEnds
      ensures outcome == Disconnected ==>
                Safe(log) && shutter == Summarize(log).shutter && shutter != Open
      ensures Rounds(log) == old(Rounds(log)) + (if outcome == Continue then 1 else 0)
    {
      Record(PassBegins);
      var desired := DesiredState();
      WordGrows(old(control.edges), control.edges);
      if desired != handled {
        var next := Reconcile(desired);
        if next == Lost {
          return Disconnected;
        }
        if next == Again {
          Record(PassEnds);
          return Continue;
        }
      }
      OpenOrClose(desired);
      Record(PassEnds);
      outcome := Continue;
    }

    /** Open unless it is known to be open already. */
    method CommandOpen()
      requires Safe(log) && shutter == Summarize(log).shutter && Allowed(Summarize(log), OpenShutter(true))
      modifies this`log, this`shutter
      ensures Safe(log) && shutter == Summarize(log).shutter && Rounds(log) == old(Rounds(log))
      ensures var s, t := old(Summarize(log)), Summarize(log);
              && t.lastRead == s.lastRead && t.prepared == s.prepared && t.pass.firstRead == s.pass.firstRead
              && t.handled == s.handled && t.blanked == s.blanked
      ensures var c, d := old(Follow(log)), Follow(log);
              d.count == c.count && d.same == c.same && d.fell == c.fell && (shutter == Open || d.failed)
    {
      if shutter != Open {
        var ok := SetShutter(true);
        shutter := if ok then Open else Unknown;
      }
    }

    /** The word was read again and is still the prepared one: open for it, then read it
        once more. An edge in between is closed even if the open command reported
        failure. */
    method OpenConfirmed(desired: nat)
      requires Confirmed(desired)
      modifies this`log, this`shutter, control
      ensures control.edges >= old(control.edges) && Valid() && Rounds(log) == old(Rounds(log))
      ensures Summarize(log).pass.firstRead == Some(desired) && EndsLit(Follow(log), shutter)
    {
      CommandOpen();
      label commanded:
      var last := DesiredState();
      WordGrows(old@commanded(control.edges), control.edges);
      if last != desired {
        CommandClose(true);
      }
    }

    /** The word just read is the armed generation that is handled and prepared, and has
        been read before in this pass. */
    ghost predicate Confirmed(desired: nat)
      reads this, control
    {
      var s, c := Summarize(log), Follow(log);
      && Safe(log) && shutter == s.shutter && Kept(s, handled)
      && handled == desired == control.Live() && Session.IsArmed(desired)
      && s.lastRead == s.pass.firstRead == s.prepared == Some(desired)
      && c.same && c.count == if c.fell then 3 else 2
    }

    /** Open for exactly the generation that was prepared, or close. */
    method OpenOrClose(desired: nat)
      requires Settled(desired)
      modifies this`log, this`shutter, control
      ensures control.edges >= old(control.edges) && Valid() && Rounds(log) == old(Rounds(log))
      ensures Summarize(log).pass.firstRead == Some(desired)
      ensures !Session.IsArmed(desired) ==> Darkening()
      ensures Session.IsArmed(desired) ==> EndsLit(Follow(log), shutter)
    {
      if Session.IsArmed(desired) {
        var again := DesiredState();
        WordGrows(old(control.edges), control.edges);
        if again == desired {
          OpenConfirmed(desired);
        }
      } else {
        CommandClose(false);
      }
    }

    /** While the adapter waits, only the closing direction may touch the shutter. */
    method CloseIfDisarmed()
      requires Valid()
      modifies this`log, this`shutter, control
      ensures Valid() && Summarize(log).choice == old(Summarize(log)).choice
      ensures Summarize(log).lastRead == Some(control.Live())
      ensures !Session.IsArmed(control.Live()) ==>
                && shutter != Open
                && (old(shutter) != Closed ==> log.Then? && log.event.CloseShutter?)
      ensures Rounds(log) == old(Rounds(log))
    {
      var word := DesiredState();
      WordGrows(old(control.edges), control.edges);
      if !Session.IsArmed(word) && shutter != Closed {
        var ok := SetShutter(false);
        shutter := if ok then Closed else Unknown;
      }
    }

    /** Whether the content of this step is armed: the word is read once more after the
        lifecycle pass, so it may be newer than what the pass handled. */
    method ChooseArmed()
      requires Valid() && JustPassed(log)
      modifies this`log, control
      ensures Valid() && control.edges >= old(control.edges)
      ensures log == Then(old(log), Chosen(control.Live())) && Rounds(log) == old(Rounds(log))
    {
      control.OthersAct();
      WordGrows(old(control.edges), control.edges);
      Record(Chosen(control.Live()));
    }

    /** The content source produces a chunk, armed or not as chosen. */
    method Produce(chunk: seq<Point>)
      requires Valid() && Summarize(log).choice.Some?
      modifies this`log
      ensures Valid() && Summarize(log).choice == old(Summarize(log)).choice
      ensures Rounds(log) == old(Rounds(log))
    {
      Record(Produced(chunk));
    }

    /** One step of the pacing adapter: it waits, closes if disarmed, has content
        produced, and reports. */
    method AdapterStep() returns (outcome: StepOutcome)
      requires Valid() && Summarize(log).choice.Some?
      modifies this`log, this`shutter, control
      ensures Valid() && Rounds(log) == old(Rounds(log))
    {
      var actions: nat :| true;
      while actions > 0
        invariant Valid() && Summarize(log).choice.Some? && Rounds(log) == old(Rounds(log))
      {
        var chunk: Option<seq<Point>> :| true;
        if chunk.Some? {
          Produce(chunk.value);
        } else {
          CloseIfDisarmed();
        }
        actions := actions - 1;
      }
      outcome :| true;
    }

    /** Graceful end of stream: drain, then close. */
    method DrainAndBlank()
      requires Valid()
      modifies this`log, this`shutter, control
      ensures Valid() && LastCommandCloses(log)
    {
      var polls: nat :| true;
      while polls > 0
        invariant Valid()
      {
        CloseIfDisarmed();
        polls := polls - 1;
      }
      var ok := SetShutter(false);
      shutter := if ok then Closed else Unknown;
    }

    /** Replace the backend. What is adopted was connected, had its shutter closed after
        that and passed validation last; the new lifecycle starts disarmed, so that a
        generation that is armed already has to be prepared again. Without a policy the
        session ends, and a candidate whose rates no longer fit is given up. */
    method ReconnectBackend(policy: Option<Policy>, ratesFit: bool) returns (result: Replacement)
      requires Safe(log) && shutter == Summarize(log).shutter
      requires policy.Some? && policy.value.maxRetries.Some? ==> policy.value.maxRetries.value <= Reconnect.U32_MAX
      modifies this, control
      ensures Safe(log) && Rounds(log) == old(Rounds(log)) + (if result.Replaced? then 1 else 0)
      ensures result.Replaced? ==> Valid() && log == Then(old(log), Lifecycle.Adopted(result.id))
      ensures result.Replaced? ==> Reconnect.Ready(result.events, result.id)
      ensures !result.Replaced? ==> shutter == Summarize(log).shutter
      ensures policy.None? ==> result == Failed(Reconnect.Disconnected)
      ensures policy.Some? && (forall q :: !policy.value.stops(q)) ==>
                exists outcome ::
                  && Reconnect.Decided(outcome, policy.value.maxRetries, policy.value.env, policy.value.horizon)
                  && ResultOf(outcome, ratesFit, result)
    {
      if policy.None? {
        return Failed(Reconnect.Disconnected);
      }
      var p := policy.value;
      var outcome, attempts := Reconnect.ReconnectWithRetry(p.maxRetries, p.flapping, p.env, p.stops, p.horizon);
      match outcome
      case StillTrying => result := Waiting;
      case Exited(exit) => result := Failed(exit);
      case Reconnected(id) =>
        assert Reconnect.Owned(attempts[id], id, true);
        control.OthersAct();
        if !ratesFit {
          Record(CandidateReleased(id));
          result := Failed(Reconnect.IncompatibleDevice);
        } else {
          Adopt(id);
          result := Replaced(id, attempts[id]);
        }
    }

    /** What the session makes of a reconnect. */
    static predicate ResultOf(outcome: Reconnect.Outcome, ratesFit: bool, result: Replacement) {
      match outcome
      case StillTrying => result == Waiting
      case Exited(exit) => result == Failed(exit)
      case Reconnected(id) =>
        if ratesFit then result.Replaced? && result.id == id else result == Failed(Reconnect.IncompatibleDevice)
    }

    /** The new backend's lifecycle starts disarmed, its shutter closed. */
    method Adopt(id: nat)
      requires Safe(log)
      modifies this
      ensures Valid() && log == Then(old(log), Lifecycle.Adopted(id))
    {
      shutter := Closed;
      handled := 0;
      Record(Lifecycle.Adopted(id));
    }

    /** The backend is gone: replace it and go on, or end. */
    method LoseBackend() returns (exit: Option<RunExit>)
      requires Safe(log) && shutter == Summarize(log).shutter
      modifies this, control
      ensures exit.None? ==> Valid() && Rounds(log) == old(Rounds(log)) + 1
      ensures exit.Some? ==> Ended(exit.value) && (exit.value.ReconnectExit? || exit.value.Reconnecting?)
    {
      var policy: Option<Policy> :| policy.Some? && policy.value.maxRetries.Some? ==>
        policy.value.maxRetries.value <= Reconnect.U32_MAX;
      var ratesFit: bool :| true;
      var r := ReconnectBackend(policy, ratesFit);
      match r
      case Replaced(_, _) => exit := None;
      case Failed(e) => exit := Some(ReconnectExit(e));
      case Waiting => exit := Some(Reconnecting);
    }

    /** The record when the loop ends: every end that is not a lost backend issued a close. */
    ghost predicate Ended(exit: RunExit)
      reads this
    {
      && Safe(log) && shutter == Summarize(log).shutter
      && (exit.SetupFailed? || exit.Stopped? || exit.StopError? || exit.ProducerEnded? ==>
            LastCommandCloses(log))
    }

    /** After the adapter's step: stop, replace a lost backend, or end with the content. */
    method AfterStep(step: StepOutcome) returns (exit: Option<RunExit>)
      requires Valid()
      modifies this, control
      ensures exit.None? ==> Valid() && Rounds(log) == old(Rounds(log)) + (if step == StepDisconnected then 1 else 0)
      ensures exit.Some? ==> Ended(exit.value) && !exit.value.Running?
    {
      if step == StepStopped {
        CommandClose(true);
        return Some(Stopped);
      }
      if step == StepDisconnected {
        exit := LoseBackend();
        return;
      }
      var ended: bool, stopError: bool :| true;
      if ended {
        if stopError {
          CommandClose(true);
          return Some(StopError);
        }
        DrainAndBlank();
        return Some(ProducerEnded);
      }
      exit := None;
    }

    /** Lifecycle pass and adapter step; `None` means go round again. */
    method PassAndStep() returns (exit: Option<RunExit>)
      requires Valid()
      modifies this, control
      ensures exit.None? ==> Valid() && Rounds(log) > old(Rounds(log))
      ensures exit.Some? ==> Ended(exit.value) && !exit.value.Running?
    {
      var transition := HandleShutterTransition();
      if transition == Disconnected {
        exit := LoseBackend();
        return;
      }
      ChooseArmed();
      var step := AdapterStep();
      exit := AfterStep(step);
    }

    /** The driver loop, watched for `budget` passes. */
    method RunLoop(budget: nat) returns (exit: RunExit)
      requires Valid()
      modifies this, control
      ensures Safe(log) && shutter == Summarize(log).shutter
      ensures exit.SetupFailed? || exit.Stopped? || exit.StopError? || exit.ProducerEnded? ==>
                LastCommandCloses(log)
      ensures exit.Running? ==> Rounds(log) >= old(Rounds(log)) + budget
    {
      var fits: bool :| true;
      if !fits {
        CommandClose(true);
        Record(Disconnect);
        return SetupFailed;
      }
      var passes := 0;
      while passes < budget
        invariant Valid() && passes <= budget && Rounds(log) >= old(Rounds(log)) + passes
      {
        passes := passes + 1;
        var stop: bool, connected: bool, message: bool :| true;
        if stop {
          CommandClose(true);
          return Stopped;
        }
        var over;
        if !connected {
          over := LoseBackend();
        } else if message {
          CommandClose(true);
          return Stopped;
        } else {
          over := PassAndStep();
        }
        if over.Some? {
          return over.value;
        }
      }
      exit := Running;
    }

    /** The whole session. For every behaviour of the control threads, the backend, the
        adapter and the reconnects: the record is safe, a stop, a stop error, a setup
        failure and a graceful end all issue a close, and every end stops and then
        disconnects a backend that is still connected. */
    method Run(budget: nat) returns (exit: RunExit)
      requires Valid()
      modifies this, control
      ensures Safe(log)
      ensures exit.SetupFailed? || exit.Stopped? || exit.StopError? || exit.ProducerEnded? ==>
                LastCommandCloses(log)
      ensures !exit.Running? && !exit.Reconnecting? ==> EndsSession(log)
      ensures exit.Running? ==> Rounds(log) >= old(Rounds(log)) + budget
    {
      exit := RunLoop(budget);
      if exit.Running? || exit.Reconnecting? {
        return;
      }
      var connected: bool :| true;
      Record(IsConnected(connected));
      if connected {
        Record(StopDevice);
        Record(Disconnect);
      }
    }
  }
}
