/** The desired-state word: an arm bit and a transition generation in one atomic
    64-bit word, changed by compare-and-swap loops in any number of threads. */
module Session {

  const WORD_BOUND: nat := 0x1_0000_0000_0000_0000
  const HALF_BOUND: nat := 0x8000_0000_0000_0000

  function Bit(armed: bool): nat {
    if armed then 1 else 0
  }

  predicate IsArmed(word: nat) {
    word % 2 == 1
  }

  /** The word that records an edge: add two, wrapping, then replace the low bit. */
  function NextWord(current: nat, armed: bool): nat {
    var added := (current + 2) % WORD_BOUND;
    added - added % 2 + Bit(armed)
  }

  /** The word after `k` edges from the initial zero, the first of them an arming. */
  function WordAfter(k: nat): nat {
    if k == 0 then 0 else NextWord(WordAfter(k - 1), k % 2 == 1)
  }

  // ---- The protocol ------------------------------------------------------------------

  /** One call of `arm` or `disarm`. `current` is the word it last saw, which was there
      after `sawAt` edges; it began after `from` edges and has lost `lost` races. */
  datatype Caller =
    | Outside
    | Trying(armed: bool, current: nat, from: nat, sawAt: nat, lost: nat)
    | Finished(armed: bool, from: nat, at: nat)

  /** The shared word, the edges made so far, and what each thread is doing. */
  datatype Control = Control(word: nat, edges: nat, callers: map<int, Caller>)

  datatype Step = Load(thread: int, armed: bool) | Attempt(thread: int)

  function CallerOf(s: Control, thread: int): Caller {
    if thread in s.callers then s.callers[thread] else Outside
  }

  /** One atomic action of one thread; a step that does not apply changes nothing. */
  function Apply(s: Control, step: Step): Control {
    match step
    case Load(i, armed) =>
      if CallerOf(s, i).Trying? then s
      else s.(callers := s.callers[i := Trying(armed, s.word, s.edges, s.edges, 0)])
    case Attempt(i) =>
      match CallerOf(s, i)
      case Trying(armed, current, from, sawAt, lost) =>
        if current % 2 == Bit(armed) then
          s.(callers := s.callers[i := Finished(armed, from, sawAt)])
        else if s.word == current then
          Control(NextWord(current, armed), s.edges + 1,
                  s.callers[i := Finished(armed, from, s.edges + 1)])
        else
          s.(callers := s.callers[i := Trying(armed, s.word, from, s.edges, lost + 1)])
      case _ => s
  }

  function Run(steps: seq<Step>): Control {
    if steps == [] then Control(0, 0, map[])
    else Apply(Run(steps[..|steps| - 1]), steps[|steps| - 1])
  }

  // ---- Arithmetic of the word -----------------------------------------------------------

  lemma {:induction false} WordParity(k: nat)
    ensures WordAfter(k) % 2 == k % 2
  {
    if k > 0 {
      LowBit((WordAfter(k - 1) + 2) % WORD_BOUND, k % 2);
    }
  }

  lemma LowBit(x: nat, b: nat)
    requires b < 2
    ensures (x - x % 2 + b) % 2 == b
  {
  }

  /** Recording the opposite state is exactly one more edge. */
  lemma NextWordIsNextEdge(k: nat, armed: bool)
    requires WordAfter(k) % 2 != Bit(armed)
    ensures NextWord(WordAfter(k), armed) == WordAfter(k + 1)
    ensures (k + 1) % 2 == Bit(armed)
  {
    WordParity(k);
    OtherParity(k, Bit(armed));
  }

  lemma OtherParity(k: nat, b: nat)
    requires k % 2 != b && b < 2
    ensures (k + 1) % 2 == b
  {
  }

  lemma ModUnique(v: nat, q: nat, r: nat)
    requires v == WORD_BOUND * q + r && r < WORD_BOUND
    ensures v % WORD_BOUND == r
  {
  }

  /** Below the last generation the next word holds the next one. */
  lemma NextInside(u: nat, b: nat, armed: bool)
    requires u + 1 < HALF_BOUND && b < 2
    ensures NextWord(2 * u + b, armed) == 2 * (u + 1) + Bit(armed)
  {
    ModUnique(2 * u + b + 2, 0, 2 * u + b + 2);
  }

  /** After the last generation the count begins again. */
  lemma NextWraps(b: nat, armed: bool)
    requires b < 2
    ensures NextWord(2 * (HALF_BOUND - 1) + b, armed) == Bit(armed)
  {
    ModUnique(2 * (HALF_BOUND - 1) + b + 2, 1, b);
  }

  /** Generation and arm state in closed form. */
  lemma {:induction false} WordOf(k: nat, q: nat, u: nat)
    requires k == HALF_BOUND * q + u && u < HALF_BOUND
    ensures WordAfter(k) == 2 * u + k % 2
    decreases k
  {
    if k > 0 {
      if u > 0 {
        WordOf(k - 1, q, u - 1);
        NextInside(u - 1, (k - 1) % 2, k % 2 == 1);
      } else {
        WordOf(k - 1, q - 1, HALF_BOUND - 1);
        NextWraps((k - 1) % 2, k % 2 == 1);
      }
    }
  }

  lemma Generation(k: nat) returns (q: nat, u: nat)
    ensures k == HALF_BOUND * q + u && u < HALF_BOUND && WordAfter(k) == 2 * u + k % 2
  {
    q, u := k / HALF_BOUND, k % HALF_BOUND;
    WordOf(k, q, u);
  }

  lemma ClosedForm(k: nat)
    ensures WordAfter(k) == (2 * k + k % 2) % WORD_BOUND
  {
    var q, u := Generation(k);
    ModUnique(2 * k + k % 2, q, 2 * u + k % 2);
  }

  lemma SameGeneration(u: nat, b: nat, v: nat, c: nat)
    requires 2 * u + b == 2 * v + c && b < 2 && c < 2
    ensures u == v
  {
  }

  lemma MultipleMod(x: nat, m: nat)
    requires x == HALF_BOUND * m
    ensures x % HALF_BOUND == 0
  {
  }

  lemma EqualReadsAreFarApart(j: nat, k: nat)
    requires j <= k && WordAfter(j) == WordAfter(k)
    ensures (k - j) % HALF_BOUND == 0
  {
    var p, u := Generation(j);
    var q, v := Generation(k);
    SameGeneration(u, j % 2, v, k % 2);
    MultipleMod(k - j, q - p);
  }

  lemma EvenApart(j: nat, k: nat, n: nat)
    requires k == j + 2 * n
    ensures k % 2 == j % 2
  {
  }

  lemma FarApartReadsAreEqual(j: nat, m: nat)
    ensures WordAfter(j) == WordAfter(j + HALF_BOUND * m)
  {
    var q, u := Generation(j);
    WordOf(j + HALF_BOUND * m, q + m, u);
    EvenApart(j, j + HALF_BOUND * m, 0x4000_0000_0000_0000 * m);
  }

  /** Two reads are equal exactly when the edges between them are a multiple of 2^63:
      that is, when there were none, as long as there were fewer than that many. */
  lemma EqualReads(j: nat, k: nat)
    requires j <= k
    ensures WordAfter(j) == WordAfter(k) <==> (k - j) % HALF_BOUND == 0
    ensures k - j < HALF_BOUND ==> (WordAfter(j) == WordAfter(k) <==> j == k)
  {
    if WordAfter(j) == WordAfter(k) {
      EqualReadsAreFarApart(j, k);
    }
    if (k - j) % HALF_BOUND == 0 {
      var m := (k - j) / HALF_BOUND;
      assert k == j + HALF_BOUND * m;
      FarApartReadsAreEqual(j, m);
    }
  }

  // ---- Every interleaving ---------------------------------------------------------------

  /** A call in progress saw the word as it was at some moment of the call, and lost at
      most one race per edge since it began. A finished call has a moment within it at
      which the state was the one asked for. */
  predicate CallerOk(c: Caller, edges: nat) {
    match c
    case Outside => true
    case Trying(armed, current, from, sawAt, lost) =>
      from <= sawAt <= edges && current == WordAfter(sawAt) && lost <= sawAt - from
    case Finished(armed, from, at) =>
      from <= at <= edges && at % 2 == Bit(armed)
  }

  predicate CallersOk(callers: map<int, Caller>, edges: nat) {
    forall i :: i in callers ==> CallerOk(callers[i], edges)
  }

  predicate Inv(s: Control) {
    s.word == WordAfter(s.edges) && CallersOk(s.callers, s.edges)
  }

  /** What holds of the callers keeps holding when one of them moves on. */
  lemma CallerMoves(callers: map<int, Caller>, before: nat, thread: int, c: Caller, edges: nat)
    requires CallersOk(callers, before) && before <= edges && CallerOk(c, edges)
    ensures CallersOk(callers[thread := c], edges)
  {
  }

  /** A caller that finds its state is finished at the moment it saw it. */
  lemma FoundIsOk(c: Caller, edges: nat)
    requires c.Trying? && CallerOk(c, edges) && c.current % 2 == Bit(c.armed)
    ensures CallerOk(Finished(c.armed, c.from, c.sawAt), edges)
  {
    WordParity(c.sawAt);
  }

  /** A caller whose swap succeeds made the edge itself. */
  lemma SwappedIsOk(c: Caller, word: nat, edges: nat)
    requires c.Trying? && CallerOk(c, edges) && c.current % 2 != Bit(c.armed)
    requires word == WordAfter(edges) == c.current
    ensures NextWord(c.current, c.armed) == WordAfter(edges + 1)
    ensures CallerOk(Finished(c.armed, c.from, edges + 1), edges + 1)
  {
    NextWordIsNextEdge(edges, c.armed);
  }

  /** A caller whose swap fails lost to an edge made since it looked. */
  lemma LostIsOk(c: Caller, word: nat, edges: nat)
    requires c.Trying? && CallerOk(c, edges) && word == WordAfter(edges) != c.current
    ensures CallerOk(Trying(c.armed, word, c.from, edges, c.lost + 1), edges)
  {
    assert c.sawAt != edges;
  }

  /** One attempt, from any state the protocol can be in. */
  lemma AttemptKeepsInv(s: Control, i: int)
    requires Inv(s) && CallerOf(s, i).Trying?
    ensures Inv(Apply(s, Attempt(i)))
  {
    var c := CallerOf(s, i);
    if c.current % 2 == Bit(c.armed) {
      FoundIsOk(c, s.edges);
      CallerMoves(s.callers, s.edges, i, Finished(c.armed, c.from, c.sawAt), s.edges);
    } else if s.word == c.current {
      SwappedIsOk(c, s.word, s.edges);
      CallerMoves(s.callers, s.edges, i, Finished(c.armed, c.from, s.edges + 1), s.edges + 1);
    } else {
      LostIsOk(c, s.word, s.edges);
      CallerMoves(s.callers, s.edges, i, Trying(c.armed, s.word, c.from, s.edges, c.lost + 1), s.edges);
    }
  }

  lemma StepKeepsInv(s: Control, step: Step)
    requires Inv(s)
    ensures Inv(Apply(s, step))
  {
    match step
    case Load(i, armed) =>
      CallerMoves(s.callers, s.edges, i, Trying(armed, s.word, s.edges, s.edges, 0), s.edges);
    case Attempt(i) =>
      if CallerOf(s, i).Trying? {
        AttemptKeepsInv(s, i);
      }
  }

  /** In every run, what an attempt does whose caller saw the other state. If the word has
      not changed since, it makes exactly one edge, to the state asked for, and the call is
      finished there; otherwise it makes none and looks at the present word next. The
      other calls are as they were. */
  lemma AttemptDecides(steps: seq<Step>, thread: int, other: int)
    requires var c := CallerOf(Run(steps), thread); c.Trying? && IsArmed(c.current) != c.armed
    ensures var s, c := Run(steps), CallerOf(Run(steps), thread);
            var next := Apply(s, Attempt(thread));
            && (c.current == s.word ==>
                  && next.edges == s.edges + 1 && next.word == WordAfter(s.edges + 1)
                  && IsArmed(next.word) == c.armed
                  && CallerOf(next, thread) == Finished(c.armed, c.from, s.edges + 1))
            && (c.current != s.word ==>
                  && next.edges == s.edges && next.word == s.word
                  && CallerOf(next, thread) == Trying(c.armed, s.word, c.from, s.edges, c.lost + 1))
            && (other != thread ==> CallerOf(next, other) == CallerOf(s, other))
  {
    var s, c := Run(steps), CallerOf(Run(steps), thread);
    RunKeepsInv(steps);
    if c.current == s.word {
      NextWordIsNextEdge(s.edges, c.armed);
      WordParity(s.edges + 1);
    }
  }

  /** An edge is counted exactly when the arm state flips. */
  lemma EdgesAreFlips(s: Control, step: Step)
    requires Inv(s)
    ensures var t := Apply(s, step);
            if t.edges == s.edges then t.word == s.word
            else t.edges == s.edges + 1 && IsArmed(t.word) != IsArmed(s.word)
  {
    StepKeepsInv(s, step);
    WordParity(s.edges);
    WordParity(Apply(s, step).edges);
  }

  lemma {:induction false} RunKeepsInv(steps: seq<Step>)
    ensures Inv(Run(steps))
    decreases |steps|
  {
    if steps != [] {
      RunKeepsInv(steps[..|steps| - 1]);
      StepKeepsInv(Run(steps[..|steps| - 1]), steps[|steps| - 1]);
    }
  }

  /** Over every interleaving of any number of arm and disarm calls, the word is
      determined by the number of actual edges. */
  lemma WordCountsEdges(steps: seq<Step>)
    ensures var s := Run(steps); s.word == (2 * s.edges + s.edges % 2) % WORD_BOUND
  {
    RunKeepsInv(steps);
    ClosedForm(Run(steps).edges);
  }

  lemma RunAdds(steps: seq<Step>, step: Step)
    ensures Run(steps + [step]) == Apply(Run(steps), step)
  {
    assert (steps + [step])[..|steps|] == steps;
  }

  /** Other threads do not touch a call. */
  lemma {:induction false} OthersLeaveCall(steps: seq<Step>, others: seq<Step>, thread: int)
    requires forall k :: 0 <= k < |others| ==> others[k].thread != thread
    ensures CallerOf(Run(steps + others), thread) == CallerOf(Run(steps), thread)
    decreases |others|
  {
    if others == [] {
      assert steps + others == steps;
    } else {
      var n := |others| - 1;
      OthersLeaveCall(steps, others[..n], thread);
      assert steps + others == (steps + others[..n]) + [others[n]];
      RunAdds(steps + others[..n], others[n]);
    }
  }

  /** A call that loads the state it asks for finishes without an edge, whatever other
      threads do between its load and its next step. */
  lemma SameStateMakesNoEdge(steps: seq<Step>, thread: int, armed: bool, others: seq<Step>)
    requires !CallerOf(Run(steps), thread).Trying? && IsArmed(Run(steps).word) == armed
    requires forall k :: 0 <= k < |others| ==> others[k].thread != thread
    ensures var s := Run(steps + [Load(thread, armed)] + others);
            var t := Run(steps + [Load(thread, armed)] + others + [Attempt(thread)]);
            t.word == s.word && t.edges == s.edges && CallerOf(t, thread).Finished?
  {
    RunAdds(steps, Load(thread, armed));
    OthersLeaveCall(steps + [Load(thread, armed)], others, thread);
    RunAdds(steps + [Load(thread, armed)] + others, Attempt(thread));
  }
}
