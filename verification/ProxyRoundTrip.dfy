/** The interlock proxy against the client that writes through it: whatever list of
    commands the client encodes, and however its bytes arrive, the proxy takes out exactly
    those commands up to the first one it has to refuse. */
module ProxyRoundTrip {
  import opened Points
  import opened ProxyFraming
  import opened ProxyStream
  import opened DacCommands

  predicate SafeRate(rate: LongWord) {
    1_000 <= rate <= 30_000
  }

  /** Dark in every respect and within one count of the centre. */
  predicate Blanked(p: DacPoint) {
    && p.control == p.r == p.g == p.b == p.i == p.u1 == p.u2 == 0
    && -1 <= p.x <= 1 && -1 <= p.y <= 1
  }

  predicate AllBlanked(points: seq<DacPoint>) {
    forall i :: 0 <= i < |points| ==> Blanked(points[i])
  }

  /** What the client may ask of the device through the proxy. */
  predicate Permitted(c: Command) {
    match c
    case Begin(mark, rate) => mark == 0 && SafeRate(rate)
    case Update(mark, rate) => mark == 0 && SafeRate(rate)
    case PointRate(rate) => SafeRate(rate)
    case Data(points) => AllBlanked(points)
    case _ => true
  }

  // ---- One command ----------------------------------------------------------------------------------

  lemma EncodedIsWhole(c: Command)
    requires Writable(c)
    ensures CmdLen(Encode(c)) == Known(|Encode(c)|)
  {
    match c
    case Data(points) => DataLength(points);
    case _ =>
  }

  lemma MarkIsZero(c: Command)
    requires c.Begin? || c.Update?
    ensures |Encode(c)| == 7 && Word32(Encode(c), 3) == c.pointRate
    ensures Encode(c)[1] == 0 && Encode(c)[2] == 0 <==> c.lowWaterMark == 0
  {
    PayloadAt(c, 0);
    RateAt(c, 1, c.pointRate);
  }

  lemma WordsOfBlanked(p: DacPoint)
    ensures var words := PointWords(p);
            Blanked(p) <==>
              && words[0] == 0 && words[1] in {0, 1, 0xffff} && words[2] in {0, 1, 0xffff}
              && forall k :: 3 <= k < 9 ==> words[k] == 0
  {
    var words := PointWords(p);
    if forall k :: 3 <= k < 9 ==> words[k] == 0 {
      assert words[3] == 0 && words[4] == 0 && words[5] == 0 && words[6] == 0 && words[7] == 0 && words[8] == 0;
    }
  }

  lemma CentreMeans(b: Bytes, at: nat, p: DacPoint)
    requires HoldsPoint(b, at, p)
    ensures BlankedCentre(b, at) <==> Blanked(p)
  {
    var words := PointWords(p);
    assert Word16(b, at + 2 * 0) == words[0] && Word16(b, at + 2 * 1) == words[1] && Word16(b, at + 2 * 2) == words[2];
    assert forall k :: 3 <= k < 9 ==> Word16(b, at + 2 * k) == words[k];
    WordsOfBlanked(p);
    if BlankedCentre(b, at) {
      forall k | 3 <= k < 9
        ensures words[k] == 0
      {
        assert Word16(b, at + 2 * k) == 0;
      }
    }
    if Blanked(p) {
      forall k | 3 <= k < 9
        ensures Word16(b, at + 2 * k) == 0
      {
        assert words[k] == 0;
      }
    }
  }

  lemma CentreInData(points: seq<DacPoint>, i: nat)
    requires |points| <= 0xffff && i < |points|
    ensures BlankedCentre(Encode(Data(points)), 3 + i * POINT_BYTES) <==> Blanked(points[i])
  {
    var at := 3 + i * POINT_BYTES;
    DataHoldsPoint(points, i, at);
    CentreMeans(Encode(Data(points)), at, points[i]);
  }

  lemma CentresMean(b: Bytes, points: seq<DacPoint>)
    requires b != [] && b[0] == 0x64 && |b| == 3 + 18 * |points| && Word16(b, 1) == |points|
    requires forall i :: 0 <= i < |points| ==> (BlankedCentre(b, 3 + i * POINT_BYTES) <==> Blanked(points[i]))
    ensures CmdLen(b) == Known(|b|) && (Harmless(b) <==> AllBlanked(points))
  {
    if Harmless(b) {
      forall i | 0 <= i < |points|
        ensures Blanked(points[i])
      {
        assert BlankedCentre(b, 3 + i * POINT_BYTES);
      }
    }
    if AllBlanked(points) {
      forall i | 0 <= i < |points|
        ensures BlankedCentre(b, 3 + i * POINT_BYTES)
      {
        assert Blanked(points[i]);
      }
    }
  }

  lemma DataIsHarmless(points: seq<DacPoint>)
    requires |points| <= 0xffff
    ensures var b := Encode(Data(points));
            CmdLen(b) == Known(|b|) && (Harmless(b) <==> AllBlanked(points))
  {
    DataLength(points);
    forall i | 0 <= i < |points|
      ensures BlankedCentre(Encode(Data(points)), 3 + i * POINT_BYTES) <==> Blanked(points[i])
    {
      CentreInData(points, i);
    }
    CentresMean(Encode(Data(points)), points);
  }

  /** Exactly the permitted commands are harmless as bytes. */
  lemma PermittedIsHarmless(c: Command)
    requires Writable(c)
    ensures CmdLen(Encode(c)) == Known(|Encode(c)|) && (Harmless(Encode(c)) <==> Permitted(c))
  {
    EncodedIsWhole(c);
    match c
    case Begin(_, _) => MarkIsZero(c);
    case Update(_, _) => MarkIsZero(c);
    case PointRate(rate) => RateAt(c, 0, rate);
    case Data(points) => DataIsHarmless(points);
    case _ =>
  }

  /** At the head of the buffer a permitted command is taken out whole, and any other
      refused. */
  lemma CutsEncoded(c: Command, rest: Bytes)
    requires Writable(c)
    ensures CutAt(Encode(c) + rest)
         == if Permitted(c) then Take(|Encode(c)|) else Refuse(RefusedCmd(Encode(c)))
  {
    var b := Encode(c);
    PermittedIsHarmless(c);
    UnsafeMeans(b);
    assert b[..|b|] == b;
    CutStable(b, rest);
  }

  // ---- The whole stream ------------------------------------------------------------------------------

  predicate AllWritable(cs: seq<Command>) {
    forall i :: 0 <= i < |cs| ==> Writable(cs[i])
  }

  function Encodings(cs: seq<Command>): (bytes: seq<Bytes>)
    requires AllWritable(cs)
    ensures |bytes| == |cs|
  {
    if cs == [] then [] else [Encode(cs[0])] + Encodings(cs[1..])
  }

  /** How many commands come before the first that is not permitted. */
  function PermittedCount(cs: seq<Command>): (n: nat)
    ensures n <= |cs|
    ensures forall i :: 0 <= i < n ==> Permitted(cs[i])
    ensures n < |cs| ==> !Permitted(cs[n])
  {
    if cs == [] || !Permitted(cs[0]) then 0 else 1 + PermittedCount(cs[1..])
  }

  /** What is to come out: the commands before that one, and the refusal of it. */
  predicate ComesOut(e: Extraction, cs: seq<Command>)
    requires AllWritable(cs)
  {
    var n := PermittedCount(cs);
    && e.cmds == Encodings(cs)[..n]
    && e.verdict == (if n == |cs| then Going else RefusedCmd(Encode(cs[n])))
    && (n == |cs| ==> e.rest == [])
  }

  lemma {:induction false} ExtractsEncodings(cs: seq<Command>)
    requires AllWritable(cs)
    ensures ComesOut(Extract(CutAt, Flat(Encodings(cs))), cs)
    decreases |cs|
  {
    if cs != [] {
      var b, more := Encode(cs[0]), Flat(Encodings(cs[1..]));
      FlatFront(Encodings(cs));
      assert Encodings(cs)[1..] == Encodings(cs[1..]);
      CutsEncoded(cs[0], more);
      if Permitted(cs[0]) {
        ExtractsEncodings(cs[1..]);
        assert (b + more)[..|b|] == b && (b + more)[|b|..] == more;
      }
    }
  }

  /** For every list of commands and every way of splitting its bytes: the proxy takes out
      the encodings of exactly the commands before the first one that is not permitted,
      and refuses that one; if there is none it is still going, with nothing left over. */
  lemma ProxyRoundTrip(cs: seq<Command>, pieces: seq<Bytes>)
    requires AllWritable(cs) && Flat(pieces) == Flat(Encodings(cs))
    ensures ComesOut(FeedAll(CutAt, pieces), cs)
  {
    CutAtIsSound();
    FramingIgnoresReads(CutAt, pieces);
    ExtractsEncodings(cs);
  }

  lemma {:induction false} EncodingAt(cs: seq<Command>, i: nat)
    requires AllWritable(cs) && i < |cs|
    ensures Encodings(cs)[i] == Encode(cs[i])
    decreases i
  {
    if i > 0 {
      EncodingAt(cs[1..], i - 1);
    }
  }

  /** If all of them are permitted, the client's commands can be read back from what the
      proxy forwards, one by one. */
  lemma ForwardedCommandsDecode(cs: seq<Command>, pieces: seq<Bytes>, i: nat)
    requires AllWritable(cs) && Flat(pieces) == Flat(Encodings(cs))
    requires forall k :: 0 <= k < |cs| ==> Permitted(cs[k])
    requires i < |cs|
    ensures var e := FeedAll(CutAt, pieces);
            && |e.cmds| == |cs| && e.rest == [] && e.verdict == Going
            && Decode(e.cmds[i]) == Some(if cs[i] == EmergencyStopAlt then EmergencyStop else cs[i])
  {
    ProxyRoundTrip(cs, pieces);
    EncodingAt(cs, i);
    DecodesWhatWasEncoded(cs[i]);
    assert PermittedCount(cs) == |cs|;
    assert Encodings(cs)[..|cs|] == Encodings(cs);
  }
}
