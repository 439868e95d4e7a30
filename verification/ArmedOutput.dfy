/** Driver and output stage together: what the content source shows after a rising
    preparation, read off the driver's record.

    The driver reads the word once more after each lifecycle pass to decide whether the
    content of the step is armed. An edge in between produces armed content for a
    generation that is not prepared; a preparation does not reset the colour delay. */
module ArmedOutput {
  import opened Points
  import opened ColorDelay
  import opened OutputStage
  import opened Lifecycle
  import Session

  /** Fixed for a run: the park point, the colour delay and the startup blank in points. */
  datatype Setting = Setting(park: Point, delay: nat, blank: nat)

  /** What an event does to the output stage of the content source. */
  function SourceNext(c: Setting, armed: bool, s: Stage, e: Event): Stage {
    match e
    case SourceDisarm => s.(carry := Repeat(BLACK, |s.carry|))
    case Adopted(_) => s.(carry := Repeat(BLACK, |s.carry|))
    case StartupBlank => s.(blankLeft := c.blank)
    case Produced(chunk) => if chunk == [] then s else NextStage(s, chunk, armed, c.park, c.delay)
    case _ => s
  }

  /** The points that an event puts out. */
  function Shown(c: Setting, armed: bool, s: Stage, e: Event): seq<Point> {
    if e.Produced? then Presented(s, e.chunk, armed, c.park, c.delay) else []
  }

  /** The stage and the output after a record. */
  function StageOf(c: Setting, log: Log): Stage {
    if log.Empty? then Stage(0, [])
    else SourceNext(c, ChoseArmed(Summarize(log.before)), StageOf(c, log.before), log.event)
  }

  function OutputOf(c: Setting, log: Log): seq<Point> {
    if log.Empty? then []
    else
      OutputOf(c, log.before)
      + Shown(c, ChoseArmed(Summarize(log.before)), StageOf(c, log.before), log.event)
  }

  // ---- A preparation finds a clean carry -------------------------------------------------------------

  /** A prepared generation has had its startup blank armed since the last cleanup. */
  lemma {:induction false} PreparedIsBlanked(log: Log)
    ensures var s := Summarize(log);
            (s.progress >= 3 ==> s.blanked) && (s.prepared.Some? ==> s.blanked)
    decreases log
  {
    if log.Then? {
      PreparedIsBlanked(log.before);
    }
  }

  lemma BlackStaysBlack(c: Setting, s: Stage, e: Event)
    requires Dark(c.park) && AllBlack(s.carry)
    ensures AllBlack(SourceNext(c, false, s, e).carry)
  {
    if e.Produced? {
      DisarmedStaysDark(s, e.chunk, c.park, c.delay);
    }
  }

  /** Until a startup blank is armed, the carry is black, unless armed content was produced
      for a generation that is not prepared. */
  lemma {:induction false} CleanUntilPrepared(c: Setting, log: Log)
    requires Dark(c.park)
    ensures var s := Summarize(log);
            !s.blanked && !s.exposed ==> AllBlack(StageOf(c, log).carry)
    decreases log
  {
    if log.Then? {
      CleanUntilPrepared(c, log.before);
      PreparedIsBlanked(log.before);
      var s := Summarize(log.before);
      if !s.blanked && !s.exposed && !ChoseArmed(s) {
        BlackStaysBlack(c, StageOf(c, log.before), log.event);
      }
    }
  }

  // ---- What comes out after a preparation ----------------------------------------------------------------

  /** The event leaves the delay line and the startup blank to run on. */
  predicate RunsOn(e: Event) {
    !e.SourceDisarm? && !e.Adopted? && !e.StartupBlank?
  }

  /** `log` is `start` with more events that all run on. */
  predicate Continues(log: Log, start: Log) {
    log == start || (log.Then? && RunsOn(log.event) && Continues(log.before, start))
  }

  /** The colours of what was produced since `start`, blanked but not yet delayed. */
  function BlankedSince(c: Setting, log: Log, start: Log): seq<Color>
    requires Continues(log, start)
  {
    if log == start then []
    else
      var before := BlankedSince(c, log.before, start);
      if log.event.Produced? then
        before + Colors(BlankedChunk(log.event.chunk, ChoseArmed(Summarize(log.before)),
                                     StageOf(c, log.before).blankLeft, c.park))
      else before
  }

  /** The colours shown since `start`. */
  function ShownSince(c: Setting, log: Log, start: Log): seq<Color>
    requires Continues(log, start)
  {
    if log == start then []
    else
      ShownSince(c, log.before, start)
      + Colors(Shown(c, ChoseArmed(Summarize(log.before)), StageOf(c, log.before), log.event))
  }

  /** The delay line as one stream: what was waiting followed by what was made since;
      shown is its front, waiting now its rest. */
  predicate OneStream(queue: seq<Color>, made: seq<Color>, shown: seq<Color>, waiting: seq<Color>) {
    shown == (queue + made)[..|made|] && waiting == (queue + made)[|made|..]
  }

  lemma StreamGoesOn(queue: seq<Color>, made: seq<Color>, shown: seq<Color>, waiting: seq<Color>, more: seq<Color>)
    requires OneStream(queue, made, shown, waiting)
    ensures OneStream(queue, made + more, shown + Popped(waiting, more), Left(waiting, more))
  {
    QueueSplits(waiting, more);
    Rejoined(queue, made, shown, waiting, more);
    SplitFurther(shown, waiting + more, |more|);
  }

  lemma Rejoined(queue: seq<Color>, made: seq<Color>, shown: seq<Color>, waiting: seq<Color>, more: seq<Color>)
    requires OneStream(queue, made, shown, waiting)
    ensures queue + (made + more) == shown + (waiting + more)
  {
    assert queue + made == shown + waiting;
    assert (queue + made) + more == queue + (made + more);
    assert (shown + waiting) + more == shown + (waiting + more);
  }

  lemma SplitFurther(front: seq<Color>, rest: seq<Color>, k: nat)
    requires k <= |rest|
    ensures (front + rest)[..|front| + k] == front + rest[..k]
    ensures (front + rest)[|front| + k..] == rest[k..]
  {
  }

  /** A chunk takes its place in the stream. */
  lemma ChunkGoesOn(c: Setting, armed: bool, s: Stage, e: Event)
    requires e.Produced?
    ensures var more := Colors(BlankedChunk(e.chunk, armed, s.blankLeft, c.park));
            && Colors(Shown(c, armed, s, e)) == Popped(Waiting(s, c.delay), more)
            && Waiting(SourceNext(c, armed, s, e), c.delay) == Left(Waiting(s, c.delay), more)
  {
    var blanked := BlankedChunk(e.chunk, armed, s.blankLeft, c.park);
    assert Shown(c, armed, s, e) == Delayed(Waiting(s, c.delay), blanked);
    if e.chunk == [] {
      assert Colors(blanked) == [];
    } else {
      ResizedSame(NextStage(s, e.chunk, armed, c.park, c.delay).carry);
    }
  }

  lemma {:induction false} RunIsOneStream(c: Setting, log: Log, start: Log)
    requires Continues(log, start)
    ensures OneStream(Waiting(StageOf(c, start), c.delay), BlankedSince(c, log, start),
                      ShownSince(c, log, start), Waiting(StageOf(c, log), c.delay))
    decreases log
  {
    if log != start {
      RunIsOneStream(c, log.before, start);
      var queue, made := Waiting(StageOf(c, start), c.delay), BlankedSince(c, log.before, start);
      var s, armed := StageOf(c, log.before), ChoseArmed(Summarize(log.before));
      var shown := ShownSince(c, log.before, start);
      if log.event.Produced? {
        var more := Colors(BlankedChunk(log.event.chunk, armed, s.blankLeft, c.park));
        ChunkGoesOn(c, armed, s, log.event);
        StreamGoesOn(queue, made, shown, Waiting(s, c.delay), more);
      } else {
        assert Colors(Shown(c, armed, s, log.event)) == [];
        assert shown + [] == shown;
      }
    }
  }

  predicate DarkUpTo(shown: seq<Color>, n: nat) {
    forall i :: 0 <= i < |shown| && i < n ==> shown[i] == BLACK
  }

  /** The first points made after a preparation are dark: as many as the startup blank. */
  lemma {:induction false} BlankedAtFirst(c: Setting, log: Log, start: Log)
    requires Dark(c.park) && Continues(log, start)
    requires start.Then? && start.event == StartupBlank
    ensures var made := BlankedSince(c, log, start);
            && DarkUpTo(made, c.blank)
            && c.blank - StageOf(c, log).blankLeft <= |made|
    decreases log
  {
    if log != start {
      BlankedAtFirst(c, log.before, start);
      if log.event.Produced? {
        ChunkBlankedAtFirst(c, BlankedSince(c, log.before, start), log.event.chunk,
                            ChoseArmed(Summarize(log.before)), StageOf(c, log.before).blankLeft);
      }
    }
  }

  lemma ChunkBlankedAtFirst(c: Setting, made: seq<Color>, chunk: seq<Point>, armed: bool, left: nat)
    requires Dark(c.park) && c.blank - left <= |made|
    requires DarkUpTo(made, c.blank)
    ensures var all := made + Colors(BlankedChunk(chunk, armed, left, c.park));
            && DarkUpTo(all, c.blank)
            && c.blank - BlankLeft(left, armed, |chunk|) <= |all|
  {
  }

  // ---- Exactly when the start is dark ---------------------------------------------------------------------

  /** After every preparation, however its content is armed and cut into chunks: the first
      delay + blank points are dark if and only if, among them, the colours waiting in the
      delay line at the preparation are. */
  lemma DarkStartExactly(c: Setting, log: Log, start: Log)
    requires Dark(c.park) && Continues(log, start)
    requires start.Then? && start.event == StartupBlank
    ensures var shown := ShownSince(c, log, start);
            DarkUpTo(shown, c.delay + c.blank) <==> DarkUpTo(Waiting(StageOf(c, start), c.delay), |shown|)
  {
    RunIsOneStream(c, log, start);
    BlankedAtFirst(c, log, start);
    StreamIsDark(Waiting(StageOf(c, start), c.delay), BlankedSince(c, log, start),
                 ShownSince(c, log, start), Waiting(StageOf(c, log), c.delay), c.blank);
  }

  /** A stream that goes on with `blank` dark colours is dark that much longer than what
      was waiting. */
  lemma StreamIsDark(queue: seq<Color>, made: seq<Color>, shown: seq<Color>, waiting: seq<Color>, blank: nat)
    requires OneStream(queue, made, shown, waiting) && DarkUpTo(made, blank)
    ensures DarkUpTo(shown, |queue| + blank) <==> DarkUpTo(queue, |shown|)
  {
    forall i | 0 <= i < |shown|
      ensures shown[i] == if i < |queue| then queue[i] else made[i - |queue|]
    {
      assert shown[i] == (queue + made)[i];
    }
    if DarkUpTo(queue, |shown|) {
      forall i | 0 <= i < |shown| && i < |queue| + blank
        ensures shown[i] == BLACK
      {
        if i >= |queue| {
          assert made[i - |queue|] == BLACK;
        }
      }
    } else {
      var i :| 0 <= i < |shown| && i < |queue| && queue[i] != BLACK;
      assert shown[i] != BLACK;
    }
  }

  /** In every safe record of the driver: after a rising preparation the first
      delay + blank points are dark, unless since the last cleanup armed content was
      produced for a generation that was not prepared. */
  lemma DarkUnlessExposed(c: Setting, log: Log, start: Log)
    requires Dark(c.park) && Continues(log, start) && Safe(start)
    requires start.Then? && start.event == StartupBlank
    requires !Summarize(start.before).exposed
    ensures DarkUpTo(ShownSince(c, log, start), c.delay + c.blank)
  {
    CleanUntilPrepared(c, start.before);
    BlackResized(StageOf(c, start).carry, c.delay);
    DarkStartExactly(c, log, start);
  }

  // ---- What exposure is ---------------------------------------------------------------------------------

  /** The generation handled last on the current backend. */
  function HandledOf(events: seq<Event>): nat {
    if events == [] then 0
    else
      match events[|events| - 1]
      case Handled(word) => word
      case Adopted(_) => 0
      case _ => HandledOf(events[..|events| - 1])
  }

  /** The choice made at `i` stands at the end of the record, and what is handled with it. */
  predicate ChosenAt(events: seq<Event>, word: nat, i: nat) {
    && i < |events| && events[i] == Chosen(word) && HandledOf(events[..i]) == HandledOf(events)
    && (forall k :: i < k < |events| ==> !events[k].Chosen?)
  }

  /** Content was produced at `j`, armed by the word chosen at `i`, which is newer than the
      generation handled then, and no cleanup or new backend followed. */
  predicate ExposedAt(events: seq<Event>, i: nat, j: nat) {
    && i < j < |events| && events[j].Produced?
    && events[i].Chosen? && Session.IsArmed(events[i].word)
    && HandledOf(events[..i]) < events[i].word
    && (forall k :: i < k < j ==> !events[k].Chosen?)
    && (forall k :: j < k < |events| ==> !events[k].SourceDisarm? && !events[k].Adopted?)
  }

  ghost predicate Exposed(events: seq<Event>) {
    exists i: nat, j: nat :: ExposedAt(events, i, j)
  }

  /** A choice stands by what is handled and prepared. */
  ghost predicate ChoiceStands(s: Summary, events: seq<Event>) {
    s.choice.Some? ==>
      && (exists i: nat :: ChosenAt(events, s.choice.value, i))
      && s.handled <= s.choice.value
      && (Session.IsArmed(s.choice.value) ==> (s.prepared == s.choice <==> s.choice.value == s.handled))
  }

  lemma HandledNext(events: seq<Event>, e: Event)
    ensures HandledOf(events + [e])
         == if e.Handled? then e.word else if e.Adopted? then 0 else HandledOf(events)
  {
    assert (events + [e])[..|events|] == events;
  }

  lemma ChosenNext(events: seq<Event>, word: nat, i: nat, e: Event)
    requires ChosenAt(events, word, i) && !e.Chosen? && !e.Handled? && !e.Adopted?
    ensures ChosenAt(events + [e], word, i)
  {
    HandledNext(events, e);
    assert (events + [e])[..i] == events[..i];
  }

  lemma ExposedNext(events: seq<Event>, i: nat, j: nat, e: Event)
    requires ExposedAt(events, i, j) && !e.SourceDisarm? && !e.Adopted?
    ensures ExposedAt(events + [e], i, j)
  {
    assert (events + [e])[..i] == events[..i];
  }

  lemma ChoiceNext(s: Summary, events: seq<Event>, e: Event)
    requires ChoiceStands(s, events) && s.handled == HandledOf(events) && Allowed(s, e)
    ensures ChoiceStands(Observe(s, e), events + [e])
  {
    if e.Chosen? {
      assert (events + [e])[..|events|] == events;
      HandledNext(events, e);
      assert ChosenAt(events + [e], e.word, |events|);
    } else if s.choice.Some? && !e.PassBegins? && !e.Adopted? {
      var i: nat :| ChosenAt(events, s.choice.value, i);
      ChosenNext(events, s.choice.value, i, e);
    }
  }

  lemma ProducedExposes(s: Summary, events: seq<Event>, e: Event)
    requires ChoiceStands(s, events) && s.handled == HandledOf(events)
    requires e.Produced? && ChoseArmed(s) && s.prepared != s.choice
    ensures Exposed(events + [e])
  {
    var i: nat :| ChosenAt(events, s.choice.value, i);
    assert (events + [e])[..i] == events[..i];
    assert ExposedAt(events + [e], i, |events|);
  }

  lemma ExposureNext(s: Summary, events: seq<Event>, e: Event)
    requires ChoiceStands(s, events) && s.handled == HandledOf(events)
    requires (s.exposed ==> Exposed(events)) && Observe(s, e).exposed
    ensures Exposed(events + [e])
  {
    if s.exposed {
      var i: nat, j: nat :| ExposedAt(events, i, j);
      ExposedNext(events, i, j, e);
    } else {
      ProducedExposes(s, events, e);
    }
  }

  lemma {:induction false} SafeExposure(log: Log)
    requires Safe(log)
    ensures Standing(Summarize(log), Events(log))
    decreases log
  {
    if log.Then? {
      SafeExposure(log.before);
      StandingNext(Summarize(log.before), Events(log.before), log.event);
    }
  }

  /** What a summary says of the handled generation, the choice and exposure. */
  ghost predicate Standing(s: Summary, events: seq<Event>) {
    && s.handled == HandledOf(events) && ChoiceStands(s, events)
    && (s.exposed ==> Exposed(events))
  }

  lemma StandingNext(s: Summary, events: seq<Event>, e: Event)
    requires Standing(s, events) && Allowed(s, e)
    ensures Standing(Observe(s, e), events + [e])
  {
    HandledNext(events, e);
    ChoiceNext(s, events, e);
    if Observe(s, e).exposed {
      ExposureNext(s, events, e);
    }
  }

  /** In every safe record of the driver: if one of the first delay + blank points after a
      rising preparation is lit, then since the last cleanup content was produced that was
      armed by a word newer than the generation handled when it was read. */
  lemma LitStartMeansLateArm(c: Setting, log: Log, start: Log)
    requires Dark(c.park) && Continues(log, start) && Safe(start)
    requires start.Then? && start.event == StartupBlank
    requires !DarkUpTo(ShownSince(c, log, start), c.delay + c.blank)
    ensures Exposed(Events(start.before))
  {
    if Summarize(start.before).exposed {
      SafeExposure(start.before);
    } else {
      DarkUnlessExposed(c, log, start);
    }
  }

  // ---- It happens -------------------------------------------------------------------------------------------

  const ONE_EDGE := 3

  /** Events that touch neither the stage nor the output. */
  predicate Aside(e: Event) {
    RunsOn(e) && !e.Produced?
  }

  /** One more such event. */
  lemma Adds(c: Setting, log: Log, start: Log, s: Summary, e: Event)
    requires Safe(log) && Summarize(log) == s && Allowed(s, e) && Aside(e)
    requires Due(s, Follow(log), e) && (e.Chosen? ==> JustPassed(log))
    ensures Safe(Then(log, e)) && Summarize(Then(log, e)) == Observe(s, e)
    ensures Follow(Then(log, e)).same ==
              (e == PassBegins || (Follow(log).same && (e.Read? ==> s.pass.firstRead in {None, Some(e.word)})))
    ensures StageOf(c, Then(log, e)) == StageOf(c, log)
    ensures Continues(log, start) ==> Continues(Then(log, e), start)
  {
  }

  function Reached(lastRead: nat, prepared: Option<nat>, shutter: Shutter, opens: nat, handled: nat): Summary {
    Summary(Some(lastRead), 0, prepared, shutter, Pass(Closed, Some(lastRead), opens, 0, 0), handled, None, false, false)
  }

  /** A disarmed pass; then an edge, and the word is read to arm the content. */
  lemma ChosenTooEarly(c: Setting) returns (log: Log)
    ensures Safe(log) && StageOf(c, log) == OutputStage.Stage(0, [])
    ensures Summarize(log) == Reached(0, None, Closed, 0, 0).(choice := Some(ONE_EDGE))
  {
    var l0, s0 := Empty, Summarize(Empty);
    Adds(c, l0, l0, s0, PassBegins);
    var l1, s1 := Then(l0, PassBegins), Observe(s0, PassBegins);
    Adds(c, l1, l0, s1, Read(0));
    var l2, s2 := Then(l1, Read(0)), Observe(s1, Read(0));
    Adds(c, l2, l0, s2, PassEnds);
    var l3, s3 := Then(l2, PassEnds), Observe(s2, PassEnds);
    Adds(c, l3, l0, s3, Chosen(ONE_EDGE));
    var l4, s4 := Then(l3, Chosen(ONE_EDGE)), Observe(s3, Chosen(ONE_EDGE));
    log := l4;
  }

  /** One armed point through a delay of one. */
  lemma CarryAfterOne(point: Point, park: Point)
    ensures NextStage(OutputStage.Stage(0, []), [point], true, park, 1) == OutputStage.Stage(0, [point.color])
  {
    var queue, colors := Waiting(OutputStage.Stage(0, []), 1), Colors(BlankedChunk([point], true, 0, park));
    assert queue == [BLACK];
    assert BlankedChunk([point], true, 0, park) == [point];
    assert colors == [point.color];
    QueueSplits(queue, colors);
    assert (queue + colors)[1..] == [point.color];
  }

  /** That content fills the delay line. */
  lemma ArmedTooEarly(c: Setting, lit: Point) returns (log: Log)
    requires c.delay == 1
    ensures Safe(log) && StageOf(c, log) == OutputStage.Stage(0, [lit.color])
    ensures Summarize(log) == Reached(0, None, Closed, 0, 0).(choice := Some(ONE_EDGE), exposed := true)
  {
    var chosen := ChosenTooEarly(c);
    log := Then(chosen, Produced([lit]));
    CarryAfterOne(lit, c.park);
  }

  /** The pass that prepares the new generation, up to its startup blank. */
  lemma PreparationBegins(c: Setting, log: Log) returns (start: Log)
    requires Safe(log)
    requires Summarize(log) == Reached(0, None, Closed, 0, 0).(choice := Some(ONE_EDGE), exposed := true)
    ensures start.Then? && start.event == StartupBlank && Safe(start)
    ensures Summarize(start)
         == Reached(ONE_EDGE, None, Closed, 0, 0).(progress := 3, blanked := true, exposed := true)
    ensures Follow(start).same
    ensures StageOf(c, start).carry == StageOf(c, log).carry
  {
    var s0 := Summarize(log);
    Adds(c, log, log, s0, PassBegins);
    var l1, s1 := Then(log, PassBegins), Observe(s0, PassBegins);
    Adds(c, l1, log, s1, Read(ONE_EDGE));
    var l2, s2 := Then(l1, Read(ONE_EDGE)), Observe(s1, Read(ONE_EDGE));
    Adds(c, l2, log, s2, DiscardCached);
    var l3, s3 := Then(l2, DiscardCached), Observe(s2, DiscardCached);
    Adds(c, l3, log, s3, AdapterEdge(true));
    var l4, s4 := Then(l3, AdapterEdge(true)), Observe(s3, AdapterEdge(true));
    assert s4 == Reached(ONE_EDGE, None, Closed, 0, 0).(progress := 2, exposed := true);
    start := Then(l4, StartupBlank);
  }

  /** The preparation is completed and the word read again. */
  lemma PreparationEnds(c: Setting, start: Log) returns (log: Log)
    requires Safe(start)
    requires Summarize(start)
          == Reached(ONE_EDGE, None, Closed, 0, 0).(progress := 3, blanked := true, exposed := true)
    requires Follow(start).same
    ensures Safe(log) && Continues(log, start) && Follow(log).same
    ensures Summarize(log)
         == Reached(ONE_EDGE, Some(ONE_EDGE), Closed, 0, ONE_EDGE).(blanked := true, exposed := true)
  {
    var s0 := Summarize(start);
    Adds(c, start, start, s0, FilterReset(true));
    var l1, s1 := Then(start, FilterReset(true)), Observe(s0, FilterReset(true));
    Adds(c, l1, start, s1, DeviceReset(true));
    var l2, s2 := Then(l1, DeviceReset(true)), Observe(s1, DeviceReset(true));
    Adds(c, l2, start, s2, Handled(ONE_EDGE));
    var l3, s3 := Then(l2, Handled(ONE_EDGE)), Observe(s2, Handled(ONE_EDGE));
    Adds(c, l3, start, s3, Read(ONE_EDGE));
    var l4, s4 := Then(l3, Read(ONE_EDGE)), Observe(s3, Read(ONE_EDGE));
    log := l4;
  }

  /** The shutter opens, the pass ends, and content is chosen for the same generation. */
  lemma ShutterOpens(c: Setting, log: Log, start: Log) returns (chosen: Log)
    requires Safe(log) && Continues(log, start)
    requires Summarize(log)
          == Reached(ONE_EDGE, Some(ONE_EDGE), Closed, 0, ONE_EDGE).(blanked := true, exposed := true)
    requires Follow(log).same
    ensures Safe(chosen) && Continues(chosen, start)
    ensures Summarize(chosen).shutter == Open && Summarize(chosen).choice.Some?
  {
    var s0 := Summarize(log);
    Adds(c, log, start, s0, OpenShutter(true));
    var l1, s1 := Then(log, OpenShutter(true)), Observe(s0, OpenShutter(true));
    Adds(c, l1, start, s1, Read(ONE_EDGE));
    var l2, s2 := Then(l1, Read(ONE_EDGE)), Observe(s1, Read(ONE_EDGE));
    Adds(c, l2, start, s2, PassEnds);
    var l3, s3 := Then(l2, PassEnds), Observe(s2, PassEnds);
    Adds(c, l3, start, s3, Chosen(ONE_EDGE));
    var l4, s4 := Then(l3, Chosen(ONE_EDGE)), Observe(s3, Chosen(ONE_EDGE));
    chosen := l4;
  }

  /** A record of the driver, with a colour delay of one point and any startup blank, in
      which a lit point goes out through the open shutter right after the preparation. */
  lemma LateArmLightsStart(c: Setting, lit: Point) returns (start: Log, log: Log)
    requires Dark(c.park) && c.delay == 1 && lit.color != BLACK
    ensures Safe(log) && Continues(log, start) && start.Then? && start.event == StartupBlank
    ensures Summarize(log).shutter == Open
    ensures !DarkUpTo(ShownSince(c, log, start), c.delay + c.blank)
  {
    var early := ArmedTooEarly(c, lit);
    start := PreparationBegins(c, early);
    var prepared := PreparationEnds(c, start);
    var chosen := ShutterOpens(c, prepared, start);
    log := Then(chosen, Produced([lit]));
    ResizedSame([lit.color]);
    DarkStartExactly(c, log, start);
    var queue, shown := Waiting(StageOf(c, start), c.delay), ShownSince(c, log, start);
    assert |Shown(c, ChoseArmed(Summarize(chosen)), StageOf(c, chosen), log.event)| == 1;
    assert |shown| >= 1 && queue[0] == lit.color;
  }
}
