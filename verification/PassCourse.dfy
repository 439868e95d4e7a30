/** What the driver's record says of a pass that found the session armed (src/presentation/driver.rs):
    it ends with the shutter open unless the word changed or a command failed, and an edge
    that comes after the word was confirmed is answered with a close. And what it says of
    a generation that counts as handled. */
module PassCourse {
  import opened Points
  import opened Lifecycle
  import Session

  /** The words a pass read, in order. */
  function ReadsIn(events: seq<Event>): seq<nat> {
    if events == [] then []
    else
      var e := events[|events| - 1];
      ReadsIn(events[..|events| - 1]) + (if e.Read? then [e.word] else [])
  }

  predicate AllAre(words: seq<nat>, word: nat) {
    forall i :: 0 <= i < |words| ==> words[i] == word
  }

  /** A shutter command or a device reset that failed. */
  predicate Failure(e: Event) {
    e == OpenShutter(false) || e == CloseShutter(false) || e == DeviceReset(false)
  }

  predicate NoFailure(events: seq<Event>) {
    forall i :: 0 <= i < |events| ==> !Failure(events[i])
  }

  /** The last shutter command of a pass was a close. */
  predicate EndsInClose(events: seq<Event>) {
    events != [] &&
      var e := events[|events| - 1];
      e.CloseShutter? || (!e.OpenShutter? && EndsInClose(events[..|events| - 1]))
  }

  /** The word changed between the last two reads of a pass, and had been confirmed before
      that: read twice, or three times if the pass cleaned up in between. */
  predicate LateEdge(events: seq<Event>) {
    var words := ReadsIn(events);
    var n := |words| - 1;
    && n >= (if SourceDisarm in events then 3 else 2)
    && AllAre(words[..n], words[0])
    && words[n] != words[0]
  }

  /** The steps of a falling cleanup. */
  function Falling(k: nat): Event {
    match k
    case 0 => DiscardCached
    case 1 => AdapterEdge(false)
    case 2 => SourceDisarm
    case _ => FilterReset(false)
  }

  /** The first `p` steps of a cleanup end the record. */
  predicate CleanedUp(log: seq<Event>, p: nat) {
    p <= 4 && p <= |log| && forall k :: 0 <= k < p ==> log[|log| - p + k] == Falling(k)
  }

  // ---- A course says of a pass what it should --------------------------------------------------------

  predicate CourseMeans(c: Course, pass: seq<Event>) {
    var words := ReadsIn(pass);
    && c.count == |words|
    && (c.same <==> words == [] || AllAre(words, words[0]))
    && (c.fell <==> SourceDisarm in pass)
    && (c.failed <==> !NoFailure(pass))
    && (c.closing <==> EndsInClose(pass))
    && (LateEdge(pass) ==> c.late && !c.same)
  }

  /** One more event of the pass. */
  lemma AppendsEvent(pass: seq<Event>, e: Event)
    ensures ReadsIn(pass + [e]) == if e.Read? then ReadsIn(pass) + [e.word] else ReadsIn(pass)
    ensures SourceDisarm in pass + [e] <==> SourceDisarm in pass || e == SourceDisarm
    ensures NoFailure(pass + [e]) <==> NoFailure(pass) && !Failure(e)
    ensures EndsInClose(pass + [e]) <==> e.CloseShutter? || (!e.OpenShutter? && EndsInClose(pass))
  {
    assert (pass + [e])[..|pass|] == pass;
    assert forall i :: 0 <= i < |pass| ==> (pass + [e])[i] == pass[i];
  }

  lemma {:induction false} FirstOfReads(pass: seq<Event>)
    ensures FirstRead(pass) == if ReadsIn(pass) == [] then None else Some(ReadsIn(pass)[0])
    decreases |pass|
  {
    if pass != [] {
      var before, e := pass[..|pass| - 1], pass[|pass| - 1];
      FirstOfReads(before);
      FirstReadAppends(before, e);
      assert pass == before + [e];
    }
  }

  /** One more word read. */
  lemma ReadOn(words: seq<nat>, word: nat)
    ensures var more := words + [word];
            AllAre(more, more[0]) <==> words == [] || (AllAre(words, words[0]) && word == words[0])
    ensures words != [] ==> (words + [word])[..|words|] == words && (words + [word])[0] == words[0]
  {
    var more := words + [word];
    assert more[|words|] == word;
    assert forall i :: 0 <= i < |words| ==> more[i] == words[i];
  }

  lemma ReadsGoOn(c: Course, pass: seq<Event>, e: Event)
    requires CourseMeans(c, pass) && e.Read?
    ensures CourseMeans(Proceeds(c, FirstRead(pass), e), pass + [e])
  {
    var words := ReadsIn(pass);
    AppendsEvent(pass, e);
    FirstOfReads(pass);
    ReadOn(words, e.word);
    assert |words + [e.word]| - 1 == |words|;
  }

  /** What an event other than a read leaves of the course. */
  lemma CourseKeeps(c: Course, first: Option<nat>, e: Event)
    requires !e.Read? && e != PassBegins
    ensures var d := Proceeds(c, first, e);
            d.count == c.count && d.same == c.same && d.late == c.late && (d.fell <==> c.fell || e == SourceDisarm)
  {
  }

  /** What it adds. */
  lemma CourseCounts(c: Course, first: Option<nat>, e: Event)
    requires !e.Read? && e != PassBegins
    ensures var d := Proceeds(c, first, e);
            && (d.failed <==> c.failed || Failure(e))
            && (d.closing <==> e.CloseShutter? || (!e.OpenShutter? && c.closing))
  {
  }

  lemma OthersGoOn(c: Course, pass: seq<Event>, e: Event)
    requires CourseMeans(c, pass) && !e.Read? && e != PassBegins
    ensures CourseMeans(Proceeds(c, FirstRead(pass), e), pass + [e])
  {
    AppendsEvent(pass, e);
    CourseKeeps(c, FirstRead(pass), e);
    CourseCounts(c, FirstRead(pass), e);
  }

  lemma {:induction false} FollowMeans(log: Log)
    ensures CourseMeans(Follow(log), ThisPass(Events(log)))
    decreases log
  {
    if log.Then? {
      var before, e := Events(log.before), log.event;
      FollowMeans(log.before);
      SummaryMeans(log.before);
      ThisPassNext(before, e);
      if e.Read? {
        ReadsGoOn(Follow(log.before), ThisPass(before), e);
      } else if e != PassBegins {
        OthersGoOn(Follow(log.before), ThisPass(before), e);
      }
    }
  }

  /** A cleanup goes on only with the step that is due. */
  lemma CleanupSteps(c: Course, first: Option<nat>, e: Event)
    requires c.cleanup <= 4
    ensures var q := Proceeds(c, first, e).cleanup;
            q > 0 ==> q <= 4 && e == Falling(q - 1) && (q == 1 || c.cleanup == q - 1)
  {
  }

  lemma CleanupGoesOn(before: seq<Event>, p: nat, e: Event, q: nat)
    requires CleanedUp(before, p) && 0 < q <= 4 && e == Falling(q - 1) && (q == 1 || p == q - 1)
    ensures CleanedUp(before + [e], q)
  {
    var log := before + [e];
    forall k | 0 <= k < q
      ensures log[|log| - q + k] == Falling(k)
    {
      if k < q - 1 {
        assert log[|log| - q + k] == before[|before| - p + k];
      }
    }
  }

  lemma {:induction false} CleanupFollows(log: Log)
    ensures CleanedUp(Events(log), Follow(log).cleanup)
    decreases log
  {
    if log.Then? {
      CleanupFollows(log.before);
      var c, q := Follow(log.before), Follow(log).cleanup;
      CleanupSteps(c, Summarize(log.before).pass.firstRead, log.event);
      if q > 0 {
        CleanupGoesOn(Events(log.before), c.cleanup, log.event, q);
      }
    }
  }

  // ---- Armed passes -----------------------------------------------------------------------------------

  /** In a safe record every pass that went on, first read an armed word, read no other and
      had no command fail, ended with the shutter open. */
  lemma {:induction false} ArmedPassOpens(log: Log, j: nat)
    requires Safe(log) && j < |Events(log)| && Events(log)[j] == PassEnds
    ensures var before := Events(log)[..j];
            var words := ReadsIn(ThisPass(before));
            words != [] && Session.IsArmed(words[0]) && AllAre(words, words[0]) && NoFailure(ThisPass(before))
            ==> ShutterOf(before) == Open
    decreases log
  {
    if j == |Events(log)| - 1 {
      SummaryMeans(log.before);
      FollowMeans(log.before);
      assert Events(log)[..j] == Events(log.before);
      FirstOfReads(ThisPass(Events(log.before)));
    } else {
      ArmedPassOpens(log.before, j);
      assert Events(log.before)[..j] == Events(log)[..j];
    }
  }

  /** In a safe record every pass that went on, and whose armed word changed after it had
      been confirmed, closed the shutter last: even if opening it had reported failure. */
  lemma {:induction false} LateEdgeIsClosed(log: Log, j: nat)
    requires Safe(log) && j < |Events(log)| && Events(log)[j] == PassEnds
    ensures var pass := ThisPass(Events(log)[..j]);
            LateEdge(pass) && Session.IsArmed(ReadsIn(pass)[0]) ==> EndsInClose(pass)
    decreases log
  {
    if j == |Events(log)| - 1 {
      SummaryMeans(log.before);
      FollowMeans(log.before);
      assert Events(log)[..j] == Events(log.before);
      FirstOfReads(ThisPass(Events(log.before)));
    } else {
      LateEdgeIsClosed(log.before, j);
      assert Events(log.before)[..j] == Events(log)[..j];
    }
  }

  /** In a safe record a generation counts as handled only when its word was the last one
      read, and either all four steps of a cleanup came right before or it is prepared. */
  lemma {:induction false} HandledIsEarned(log: Log, j: nat)
    requires Safe(log) && j < |Events(log)| && Events(log)[j].Handled?
    ensures var before := Events(log)[..j];
            var word := Events(log)[j].word;
            LastRead(before) == Some(word) && (CleanedUp(before, 4) || Prepared(before, word))
    decreases log
  {
    if j == |Events(log)| - 1 {
      SummaryMeans(log.before);
      CleanupFollows(log.before);
      assert Events(log)[..j] == Events(log.before);
    } else {
      HandledIsEarned(log.before, j);
      assert Events(log.before)[..j] == Events(log)[..j];
    }
  }
}
