/** The start of armed content while the colour delay changes: every chunk is shown at the
    delay in force when it is produced, and a change of the delay drops the oldest waiting
    colours or puts black before them. */
module DelayChanges {
  import opened Points
  import opened ColorDelay
  import opened OutputStage

  /** Chunks in order, each with the delay it is produced at. */
  datatype Pieces = Done | Piece(chunk: seq<Point>, delay: nat, rest: Pieces)

  function Content(pieces: Pieces): seq<Point>
    decreases pieces
  {
    if pieces.Done? then [] else pieces.chunk + Content(pieces.rest)
  }

  /** What armed pieces become; an empty one does not even resize the delay line. */
  function ShownAll(s: Stage, pieces: Pieces, park: Point): (shown: seq<Point>)
    ensures |shown| == |Content(pieces)|
    decreases pieces
  {
    if pieces.Done? then []
    else if pieces.chunk == [] then ShownAll(s, pieces.rest, park)
    else
      Presented(s, pieces.chunk, true, park, pieces.delay)
      + ShownAll(NextStage(s, pieces.chunk, true, park, pieces.delay), pieces.rest, park)
  }

  // ---- What the delay line holds ---------------------------------------------------------------------

  /** The colour at place `i` of a line of `n`: one of the last `kept` that were made, or
      black. */
  function Waits(n: nat, made: seq<Color>, kept: nat, i: nat): Color
    requires kept <= |made| && i < n
  {
    if i + kept >= n then made[|made| + i - n] else BLACK
  }

  /** Of what was made, the line still holds the last `kept` colours, behind black. */
  predicate Keeps(carry: seq<Color>, made: seq<Color>, kept: nat) {
    && kept <= |carry| && kept <= |made|
    && (forall i :: 0 <= i < |carry| ==> carry[i] == Waits(|carry|, made, kept, i))
  }

  /** Resizing forgets what does not fit, for good. */
  lemma ResizeKeeps(carry: seq<Color>, made: seq<Color>, kept: nat, delay: nat)
    requires Keeps(carry, made, kept)
    ensures Keeps(Resized(carry, delay), made, Min(kept, delay))
  {
    var queue := Resized(carry, delay);
    forall i | 0 <= i < delay
      ensures queue[i] == Waits(delay, made, Min(kept, delay), i)
    {
      var j: int := i + |carry| - delay;
      if 0 <= j {
        assert queue[i] == carry[j];
      }
    }
  }

  /** A chunk moves up behind what is kept. */
  lemma ChunkKeeps(queue: seq<Color>, made: seq<Color>, kept: nat, more: seq<Color>)
    requires Keeps(queue, made, kept)
    ensures Keeps(Left(queue, more), made + more, Min(|queue|, kept + |more|))
  {
    QueueSplits(queue, more);
    var rest, n := Left(queue, more), |queue|;
    forall i | 0 <= i < n
      ensures rest[i] == Waits(n, made + more, Min(n, kept + |more|), i)
    {
      assert rest[i] == (queue + more)[|more| + i];
      MovesUp(queue, made, kept, more, i);
    }
  }

  lemma MovesUp(queue: seq<Color>, made: seq<Color>, kept: nat, more: seq<Color>, i: nat)
    requires Keeps(queue, made, kept) && i < |queue|
    ensures (queue + more)[|more| + i] == Waits(|queue|, made + more, Min(|queue|, kept + |more|), i)
  {
    var n, j := |queue|, |more| + i;
    if j < n {
      assert (queue + more)[j] == queue[j] == Waits(n, made, kept, j);
      if j + kept >= n {
        assert (made + more)[|made| + j - n] == made[|made| + j - n];
      }
    } else {
      assert (queue + more)[j] == more[j - n] == (made + more)[|made| + (j - n)];
    }
  }

  /** Each point shows the colour made `|queue|` points earlier, if that is kept. */
  lemma ChunkShows(queue: seq<Color>, made: seq<Color>, kept: nat, more: seq<Color>, i: nat)
    requires Keeps(queue, made, kept) && i < |more|
    ensures Popped(queue, more)[i]
         == if i + kept >= |queue| then (made + more)[|made| + i - |queue|] else BLACK
  {
    QueueSplits(queue, more);
    assert Popped(queue, more)[i] == (queue + more)[i];
    if i < |queue| {
      assert queue[i] == Waits(|queue|, made, kept, i);
    }
  }

  // ---- How long it stays dark ----------------------------------------------------------------------------

  /** In a chunk that begins after `at` points, with `kept` colours in a line of `delay`:
      the first point that shows one made after the startup blank. */
  function FirstShown(at: nat, kept: nat, delay: nat, blank: nat): nat {
    var unblanked := if blank + delay <= at then 0 else blank + delay - at;
    var forgotten := delay - Min(kept, delay);
    if unblanked >= forgotten then unblanked else forgotten
  }

  /** The colours kept after that chunk. */
  function KeptAfter(kept: nat, delay: nat, n: nat): nat {
    Min(delay, Min(kept, delay) + n)
  }

  /** The number of points that stay dark whatever the content is. */
  function DarkLength(at: nat, kept: nat, blank: nat, pieces: Pieces): (dark: nat)
    ensures dark <= |Content(pieces)|
    decreases pieces
  {
    if pieces.Done? then 0
    else if pieces.chunk == [] then DarkLength(at, kept, blank, pieces.rest)
    else
      var n, delay := |pieces.chunk|, pieces.delay;
      if FirstShown(at, kept, delay, blank) < n then FirstShown(at, kept, delay, blank)
      else n + DarkLength(at + n, KeptAfter(kept, delay, n), blank, pieces.rest)
  }

  lemma DarkLengthOf(at: nat, kept: nat, blank: nat, pieces: Pieces)
    requires pieces.Piece? && pieces.chunk != []
    ensures var n, delay := |pieces.chunk|, pieces.delay;
            var first := FirstShown(at, kept, delay, blank);
            DarkLength(at, kept, blank, pieces)
            == if first < n then first
               else n + DarkLength(at + n, KeptAfter(kept, delay, n), blank, pieces.rest)
  {
  }

  /** The delay at which point number `p` is shown. */
  function DelayAt(pieces: Pieces, p: nat): nat
    requires p < |Content(pieces)|
    decreases pieces
  {
    if p < |pieces.chunk| then pieces.delay else DelayAt(pieces.rest, p - |pieces.chunk|)
  }

  /** The colours made of content, the first `blank` of them black. */
  function Made(content: seq<Point>, blank: nat): (made: seq<Color>)
    ensures |made| == |content|
    ensures forall i :: 0 <= i < |made| ==> made[i] == if i < blank then BLACK else content[i].color
  {
    Colors(BlankPrefix(content, blank))
  }

  lemma MadeSplits(before: seq<Point>, chunk: seq<Point>, blank: nat)
    ensures Made(before + chunk, blank)
         == Made(before, blank) + Colors(BlankPrefix(chunk, blank - Min(blank, |before|)))
  {
  }

  /** A stage in which `before` has been shown of content with a startup blank. */
  predicate Along(s: Stage, before: seq<Point>, kept: nat, blank: nat) {
    && s.blankLeft == blank - Min(blank, |before|)
    && Keeps(s.carry, Made(before, blank), kept)
  }

  lemma PieceGoesAlong(s: Stage, before: seq<Point>, kept: nat, blank: nat, chunk: seq<Point>, park: Point, delay: nat)
    requires Along(s, before, kept, blank)
    ensures Along(NextStage(s, chunk, true, park, delay), before + chunk,
                  KeptAfter(kept, delay, |chunk|), blank)
  {
    var more := Colors(BlankedChunk(chunk, true, s.blankLeft, park));
    ResizeKeeps(s.carry, Made(before, blank), kept, delay);
    ChunkKeeps(Waiting(s, delay), Made(before, blank), Min(kept, delay), more);
    MadeSplits(before, chunk, blank);
  }

  /** The exact colour of a point of a chunk that follows `before`. */
  lemma PointShows(s: Stage, before: seq<Point>, kept: nat, blank: nat, chunk: seq<Point>, delay: nat, park: Point, i: nat)
    requires Along(s, before, kept, blank) && i < |chunk|
    ensures Presented(s, chunk, true, park, delay)[i].color
         == if i >= FirstShown(|before|, kept, delay, blank)
            then (before + chunk)[|before| + i - delay].color else BLACK
  {
    var more := Colors(BlankedChunk(chunk, true, s.blankLeft, park));
    var made, queue := Made(before, blank), Waiting(s, delay);
    ResizeKeeps(s.carry, made, kept, delay);
    ChunkShows(queue, made, Min(kept, delay), more, i);
    MadeSplits(before, chunk, blank);
    assert Colors(Presented(s, chunk, true, park, delay))[i] == Popped(queue, more)[i];
    if i + Min(kept, delay) >= delay {
      assert (made + more)[|made| + i - delay] == Made(before + chunk, blank)[|before| + i - delay];
    }
  }

  /** Every point of a piece that follows `before` has that colour. */
  predicate PieceLaw(shown: seq<Point>, before: seq<Point>, kept: nat, blank: nat, chunk: seq<Point>, delay: nat) {
    && |shown| == |chunk|
    && (forall i :: 0 <= i < |shown| ==>
          shown[i].color == if i >= FirstShown(|before|, kept, delay, blank)
                            then (before + chunk)[|before| + i - delay].color else BLACK)
  }

  /** So has every point of a series of pieces. */
  predicate Law(shown: seq<Point>, before: seq<Point>, kept: nat, blank: nat, pieces: Pieces)
    decreases pieces
  {
    if pieces.Done? then shown == []
    else if pieces.chunk == [] then Law(shown, before, kept, blank, pieces.rest)
    else
      var n, delay := |pieces.chunk|, pieces.delay;
      && n <= |shown|
      && PieceLaw(shown[..n], before, kept, blank, pieces.chunk, pieces.delay)
      && Law(shown[n..], before + pieces.chunk, KeptAfter(kept, delay, n), blank, pieces.rest)
  }

  lemma PieceShows(s: Stage, before: seq<Point>, kept: nat, blank: nat, chunk: seq<Point>, delay: nat, park: Point)
    requires Along(s, before, kept, blank)
    ensures PieceLaw(Presented(s, chunk, true, park, delay), before, kept, blank, chunk, delay)
  {
    var shown := Presented(s, chunk, true, park, delay);
    forall i | 0 <= i < |shown|
      ensures shown[i].color == if i >= FirstShown(|before|, kept, delay, blank)
                                then (before + chunk)[|before| + i - delay].color else BLACK
    {
      PointShows(s, before, kept, blank, chunk, delay, park, i);
    }
  }

  lemma {:induction false} LawHolds(s: Stage, before: seq<Point>, kept: nat, blank: nat, pieces: Pieces, park: Point)
    requires Along(s, before, kept, blank)
    ensures Law(ShownAll(s, pieces, park), before, kept, blank, pieces)
    decreases pieces
  {
    if pieces.Piece? {
      var Piece(chunk, delay, rest) := pieces;
      if chunk == [] {
        LawHolds(s, before, kept, blank, rest, park);
      } else {
        var next := NextStage(s, chunk, true, park, delay);
        PieceGoesAlong(s, before, kept, blank, chunk, park, delay);
        PieceShows(s, before, kept, blank, chunk, delay, park);
        LawHolds(next, before + chunk, KeptAfter(kept, delay, |chunk|), blank, rest, park);
        LawJoins(Presented(s, chunk, true, park, delay), ShownAll(next, rest, park), before, kept, blank, pieces);
      }
    }
  }

  lemma LawJoins(shown: seq<Point>, more: seq<Point>, before: seq<Point>, kept: nat, blank: nat, pieces: Pieces)
    requires pieces.Piece? && pieces.chunk != [] && PieceLaw(shown, before, kept, blank, pieces.chunk, pieces.delay)
    requires Law(more, before + pieces.chunk,
                 KeptAfter(kept, pieces.delay, |pieces.chunk|), blank, pieces.rest)
    ensures Law(shown + more, before, kept, blank, pieces)
  {
    var n := |pieces.chunk|;
    assert (shown + more)[..n] == shown && (shown + more)[n..] == more;
  }

  /** Before `DarkLength` every point is dark. */
  lemma {:induction false} DarkBefore(shown: seq<Point>, before: seq<Point>, kept: nat, blank: nat, pieces: Pieces, p: nat)
    requires Law(shown, before, kept, blank, pieces) && p < DarkLength(|before|, kept, blank, pieces)
    ensures p < |shown| && Dark(shown[p])
    decreases pieces
  {
    var Piece(chunk, delay, rest) := pieces;
    if chunk == [] {
      DarkBefore(shown, before, kept, blank, rest, p);
    } else {
      var n := |chunk|;
      if p < n {
        assert shown[p] == shown[..n][p];
      } else {
        DarkBefore(shown[n..], before + chunk, KeptAfter(kept, delay, n), blank, rest, p - n);
        assert shown[p] == shown[n..][p - n];
      }
    }
  }

  /** The colour that point `p` shows if nothing holds it back: that of the content as many
      points older as the delay in force. */
  function SourceColor(before: seq<Point>, pieces: Pieces, p: nat): Color
    requires p < |Content(pieces)|
    decreases pieces
  {
    var n, delay := |pieces.chunk|, pieces.delay;
    if p >= n then SourceColor(before + pieces.chunk, pieces.rest, p - n)
    else if |before| + p >= delay then (before + pieces.chunk)[|before| + p - delay].color
    else BLACK
  }

  lemma {:induction false} SourceColorMeans(before: seq<Point>, pieces: Pieces, p: nat)
    requires p < |Content(pieces)| && DelayAt(pieces, p) <= |before| + p
    ensures SourceColor(before, pieces, p) == (before + Content(pieces))[|before| + p - DelayAt(pieces, p)].color
    decreases pieces
  {
    var chunk, rest := pieces.chunk, pieces.rest;
    Associates(before, chunk, Content(rest));
    if p >= |chunk| {
      SourceColorMeans(before + chunk, rest, p - |chunk|);
    } else {
      assert (before + Content(pieces))[|before| + p - pieces.delay]
          == (before + chunk)[|before| + p - pieces.delay];
    }
  }

  lemma ShownInFirst(shown: seq<Point>, before: seq<Point>, kept: nat, blank: nat, pieces: Pieces)
    requires pieces.Piece? && |pieces.chunk| <= |shown|
    requires PieceLaw(shown[..|pieces.chunk|], before, kept, blank, pieces.chunk, pieces.delay)
    requires FirstShown(|before|, kept, pieces.delay, blank) < |pieces.chunk|
    ensures shown[FirstShown(|before|, kept, pieces.delay, blank)].color
         == SourceColor(before, pieces, FirstShown(|before|, kept, pieces.delay, blank))
  {
    var first := FirstShown(|before|, kept, pieces.delay, blank);
    assert shown[first] == shown[..|pieces.chunk|][first];
  }

  /** At `DarkLength` a point shows its source. */
  lemma {:induction false} ShownAtLast(shown: seq<Point>, before: seq<Point>, kept: nat, blank: nat, pieces: Pieces)
    requires Law(shown, before, kept, blank, pieces)
    requires DarkLength(|before|, kept, blank, pieces) < |Content(pieces)|
    ensures var dark := DarkLength(|before|, kept, blank, pieces);
            dark < |shown| && shown[dark].color == SourceColor(before, pieces, dark)
    decreases pieces
  {
    var Piece(chunk, delay, rest) := pieces;
    if chunk == [] {
      ShownAtLast(shown, before, kept, blank, rest);
      assert before + chunk == before;
    } else {
      var n, first := |chunk|, FirstShown(|before|, kept, delay, blank);
      DarkLengthOf(|before|, kept, blank, pieces);
      if first < n {
        ShownInFirst(shown, before, kept, blank, pieces);
      } else {
        var still := KeptAfter(kept, delay, n);
        ShownAtLast(shown[n..], before + chunk, still, blank, rest);
        var more := DarkLength(|before| + n, still, blank, rest);
        assert shown[n + more] == shown[n..][more];
        assert SourceColor(before, pieces, n + more) == SourceColor(before + chunk, rest, more);
      }
    }
  }

  /** That source is not blanked. */
  lemma {:induction false} LastIsUnblanked(at: nat, kept: nat, blank: nat, pieces: Pieces)
    requires DarkLength(at, kept, blank, pieces) < |Content(pieces)|
    ensures DelayAt(pieces, DarkLength(at, kept, blank, pieces)) + blank <= at + DarkLength(at, kept, blank, pieces)
    decreases pieces
  {
    var n, delay := |pieces.chunk|, pieces.delay;
    if n == 0 {
      LastIsUnblanked(at, kept, blank, pieces.rest);
    } else if FirstShown(at, kept, delay, blank) >= n {
      LastIsUnblanked(at + n, KeptAfter(kept, delay, n), blank, pieces.rest);
    }
  }

  /** Dark up to a point, and there the content that is as many points older as the delay. */
  predicate DarkThenShown(shown: seq<Point>, dark: nat, blank: nat, pieces: Pieces) {
    && dark <= |shown| == |Content(pieces)|
    && (forall p :: 0 <= p < dark ==> Dark(shown[p]))
    && (dark < |shown| ==>
          var delay := DelayAt(pieces, dark);
          delay + blank <= dark && shown[dark].color == Content(pieces)[dark - delay].color)
  }

  lemma DarkAll(shown: seq<Point>, blank: nat, pieces: Pieces)
    requires Law(shown, [], 0, blank, pieces) && |shown| == |Content(pieces)|
    ensures forall p :: 0 <= p < DarkLength(0, 0, blank, pieces) ==> Dark(shown[p])
  {
    forall p | 0 <= p < DarkLength(0, 0, blank, pieces)
      ensures Dark(shown[p])
    {
      DarkBefore(shown, [], 0, blank, pieces, p);
    }
  }

  lemma ShownThen(shown: seq<Point>, blank: nat, pieces: Pieces, dark: nat)
    requires Law(shown, [], 0, blank, pieces) && dark == DarkLength(0, 0, blank, pieces) < |Content(pieces)|
    ensures dark < |shown| && DelayAt(pieces, dark) + blank <= dark
    ensures shown[dark].color == Content(pieces)[dark - DelayAt(pieces, dark)].color
  {
    ShownAtLast(shown, [], 0, blank, pieces);
    LastIsUnblanked(0, 0, blank, pieces);
    SourceColorMeans([], pieces, dark);
    assert [] + Content(pieces) == Content(pieces);
  }

  /** Armed from a clean line, with a startup blank and any sequence of delays: exactly
      `DarkLength` points stay dark whatever the content is, and the next one shows the
      content that is as many points older as the delay in force. */
  lemma DarkLengthExactly(s: Stage, pieces: Pieces, park: Point)
    requires AllBlack(s.carry)
    ensures DarkThenShown(ShownAll(s, pieces, park), DarkLength(0, 0, s.blankLeft, pieces), s.blankLeft, pieces)
  {
    CleanStart(s, pieces, park);
    FromLaw(ShownAll(s, pieces, park), s.blankLeft, pieces);
  }

  lemma FromLaw(shown: seq<Point>, blank: nat, pieces: Pieces)
    requires Law(shown, [], 0, blank, pieces) && |shown| == |Content(pieces)|
    ensures DarkThenShown(shown, DarkLength(0, 0, blank, pieces), blank, pieces)
  {
    DarkAll(shown, blank, pieces);
    if DarkLength(0, 0, blank, pieces) < |shown| {
      ShownThen(shown, blank, pieces, DarkLength(0, 0, blank, pieces));
    }
  }

  lemma CleanStart(s: Stage, pieces: Pieces, park: Point)
    requires AllBlack(s.carry)
    ensures Law(ShownAll(s, pieces, park), [], 0, s.blankLeft, pieces)
  {
    assert Along(s, [], 0, s.blankLeft);
    LawHolds(s, [], 0, s.blankLeft, pieces, park);
  }

  // ---- What the delays do to it -----------------------------------------------------------------------

  predicate AllAtLeast(pieces: Pieces, least: nat)
    decreases pieces
  {
    pieces.Piece? ==> least <= pieces.delay && AllAtLeast(pieces.rest, least)
  }

  /** As long as the delay stays at or above `least`, so does the dark start. */
  lemma {:induction false} LeastDelay(at: nat, kept: nat, blank: nat, pieces: Pieces, least: nat)
    requires AllAtLeast(pieces, least)
    ensures at + DarkLength(at, kept, blank, pieces) >= Min(at + |Content(pieces)|, least + blank)
    decreases pieces
  {
    if pieces.Piece? {
      var n, delay := |pieces.chunk|, pieces.delay;
      if n == 0 {
        LeastDelay(at, kept, blank, pieces.rest, least);
      } else {
        DarkLengthOf(at, kept, blank, pieces);
        LeastDelay(at + n, KeptAfter(kept, delay, n), blank, pieces.rest, least);
      }
    }
  }

  predicate AllAt(pieces: Pieces, delay: nat)
    decreases pieces
  {
    pieces.Piece? ==> pieces.delay == delay && AllAt(pieces.rest, delay)
  }

  /** At a constant delay it is delay plus blank. */
  lemma {:induction false} ConstantDelay(at: nat, kept: nat, blank: nat, pieces: Pieces, delay: nat)
    requires AllAt(pieces, delay) && kept == Min(at, delay)
    ensures at + DarkLength(at, kept, blank, pieces)
         == if at >= delay + blank then at else Min(at + |Content(pieces)|, delay + blank)
    decreases pieces
  {
    if pieces.Piece? {
      var n := |pieces.chunk|;
      if n == 0 {
        ConstantDelay(at, kept, blank, pieces.rest, delay);
      } else {
        AtConstant(at, kept, delay, blank, n);
        DarkLengthOf(at, kept, blank, pieces);
        ConstantDelay(at + n, KeptAfter(kept, delay, n), blank, pieces.rest, delay);
      }
    }
  }

  lemma AtConstant(at: nat, kept: nat, delay: nat, blank: nat, n: nat)
    requires kept == Min(at, delay)
    ensures KeptAfter(kept, delay, n) == Min(at + n, delay)
    ensures FirstShown(at, kept, delay, blank) == if at >= delay + blank then 0 else delay + blank - at
  {
  }

  /** A shorter delay after enough points ends it at once, however long it was to last. */
  lemma ShrinkEndsIt(blank: nat, a: seq<Point>, b: seq<Point>, long: nat, short: nat)
    requires 0 < |a| <= long + blank && short + blank <= |a| && b != []
    ensures DarkLength(0, 0, blank, Piece(a, long, Piece(b, short, Done))) == |a|
  {
    DarkLengthOf(0, 0, blank, Piece(a, long, Piece(b, short, Done)));
    DarkLengthOf(|a|, KeptAfter(0, long, |a|), blank, Piece(b, short, Done));
  }
}
