/** Taking commands out of a byte stream, whatever the rule that cuts it. */
module ProxyStream {
  import opened Points
  import opened ProxyFraming

  type Cutter = Bytes -> Cut

  /** Decisions stand whatever bytes follow, take at least one byte and only what is
      there, and a refusal is final. */
  ghost predicate Sound(cut: Cutter) {
    && cut([]) == Wait
    && (forall a, b :: cut(a) != Wait ==> cut(a + b) == cut(a))
    && (forall a :: cut(a).Take? ==> 0 < cut(a).n <= |a|)
    && (forall a :: cut(a).Refuse? ==> !cut(a).verdict.Going?)
  }

  lemma CutAtIsSound()
    ensures Sound(CutAt)
  {
    forall a, b | CutAt(a) != Wait
      ensures CutAt(a + b) == CutAt(a)
    {
      CutStable(a, b);
    }
    forall a
      ensures CutAt(a).Take? ==> 0 < CutAt(a).n <= |a|
      ensures CutAt(a).Refuse? ==> !CutAt(a).verdict.Going?
    {
      CutMeans(a);
    }
  }

  /** The commands taken out of a stream, what is left of it, and whether the proxy is
      still going or has refused something and closed the connection. */
  datatype Extraction = Extraction(cmds: seq<Bytes>, rest: Bytes, verdict: Verdict)

  /** Everything that can be taken out of a buffer. */
  function Extract(cut: Cutter, buf: Bytes): Extraction
    decreases |buf|
  {
    match cut(buf)
    case Wait => Extraction([], buf, Going)
    case Refuse(verdict) => Extraction([], buf, verdict)
    case Take(n) =>
      if !(0 < n <= |buf|) then Extraction([], buf, Going)
      else
        var more := Extract(cut, buf[n..]);
        Extraction([buf[..n]] + more.cmds, more.rest, more.verdict)
  }

  /** The inner loop of the writer: take out whole commands until one is incomplete or
      refused. */
  method TakeCommands(buf: Bytes) returns (e: Extraction)
    ensures e == Extract(CutAt, buf)
  {
    CutAtIsSound();
    e := TakeWith(CutAt, buf);
  }

  method TakeWith(cut: Cutter, buf: Bytes) returns (e: Extraction)
    requires Sound(cut)
    ensures e == Extract(cut, buf)
  {
    var rest, cmds, verdict := buf, [], Going;
    while cut(rest).Take?
      invariant Extract(cut, buf)
             == Extraction(cmds + Extract(cut, rest).cmds, Extract(cut, rest).rest, Extract(cut, rest).verdict)
      decreases |rest|
    {
      var n := cut(rest).n;
      cmds := cmds + [rest[..n]];
      rest := rest[n..];
    }
    if cut(rest).Refuse? {
      verdict := cut(rest).verdict;
    }
    e := Extraction(cmds, rest, verdict);
  }

  /** What one read from the client adds, after what was left of the earlier ones. A
      connection that was refused takes nothing more. */
  function Feed(cut: Cutter, e: Extraction, read: Bytes): Extraction {
    if !e.verdict.Going? then e
    else
      var more := Extract(cut, e.rest + read);
      Extraction(e.cmds + more.cmds, more.rest, more.verdict)
  }

  function FeedAll(cut: Cutter, pieces: seq<Bytes>): Extraction {
    if pieces == [] then Extraction([], [], Going)
    else Feed(cut, FeedAll(cut, pieces[..|pieces| - 1]), pieces[|pieces| - 1])
  }

  /** More bytes continue an extraction that is going, and change nothing about one that
      has been refused. */
  lemma {:induction false} ExtractContinues(cut: Cutter, a: Bytes, b: Bytes)
    requires Sound(cut)
    ensures var e, whole := Extract(cut, a), Extract(cut, a + b);
            if e.verdict.Going? then whole == Feed(cut, e, b)
            else whole.cmds == e.cmds && whole.verdict == e.verdict
    decreases |a|
  {
    if cut(a).Wait? {
      assert Extract(cut, a) == Extraction([], a, Going);
    } else {
      assert cut(a + b) == cut(a);
      if cut(a).Take? {
        var n := cut(a).n;
        assert (a + b)[..n] == a[..n] && (a + b)[n..] == a[n..] + b;
        ExtractContinues(cut, a[n..], b);
        PrependContinues(cut, a[..n], Extract(cut, a[n..]), Extract(cut, a[n..] + b), b);
      }
    }
  }

  /** Prepending a command to both sides. */
  lemma PrependContinues(cut: Cutter, cmd: Bytes, e: Extraction, whole: Extraction, b: Bytes)
    requires if e.verdict.Going? then whole == Feed(cut, e, b)
             else whole.cmds == e.cmds && whole.verdict == e.verdict
    ensures var e', whole' := e.(cmds := [cmd] + e.cmds), whole.(cmds := [cmd] + whole.cmds);
            if e'.verdict.Going? then whole' == Feed(cut, e', b)
            else whole'.cmds == e'.cmds && whole'.verdict == e'.verdict
  {
  }

  /** Framing is independent of how reads split the stream: the same commands come out,
      in the same order, with the same verdict. */
  lemma {:induction false} FramingIgnoresReads(cut: Cutter, pieces: seq<Bytes>)
    requires Sound(cut)
    ensures var fed, whole := FeedAll(cut, pieces), Extract(cut, Flat(pieces));
            && fed.cmds == whole.cmds && fed.verdict == whole.verdict
            && (fed.verdict.Going? ==> fed.rest == whole.rest)
    decreases |pieces|
  {
    if pieces != [] {
      var before := pieces[..|pieces| - 1];
      FramingIgnoresReads(cut, before);
      ExtractContinues(cut, Flat(before), pieces[|pieces| - 1]);
    }
  }

  lemma Prepended(cmd: Bytes, cmds: seq<Bytes>, rest: Bytes, tail: Bytes)
    requires Flat(cmds) + rest == tail
    ensures Flat([cmd] + cmds) + rest == cmd + tail
  {
    FlatFront([cmd] + cmds);
    assert ([cmd] + cmds)[1..] == cmds;
    assert (cmd + Flat(cmds)) + rest == cmd + (Flat(cmds) + rest);
  }

  /** Nothing is lost, added or reordered: the commands and what is left are the stream. */
  lemma {:induction false} ExtractIsLossless(cut: Cutter, buf: Bytes)
    ensures Flat(Extract(cut, buf).cmds) + Extract(cut, buf).rest == buf
    decreases |buf|
  {
    var c := cut(buf);
    if c.Take? && 0 < c.n <= |buf| {
      var more := Extract(cut, buf[c.n..]);
      ExtractIsLossless(cut, buf[c.n..]);
      Prepended(buf[..c.n], more.cmds, more.rest, buf[c.n..]);
      assert buf == buf[..c.n] + buf[c.n..];
    } else {
      assert Extract(cut, buf).cmds == [] && Extract(cut, buf).rest == buf;
      assert [] + buf == buf;
    }
  }

  /** Only whole, harmless commands are ever taken out, and an incomplete one never is. */
  lemma {:induction false} TakenAreForwardable(buf: Bytes, i: nat)
    requires i < |Extract(CutAt, buf).cmds|
    ensures Forwardable(Extract(CutAt, buf).cmds[i])
    decreases |buf|
  {
    CutMeans(buf);
    var n := CutAt(buf).n;
    if i > 0 {
      TakenAreForwardable(buf[n..], i - 1);
    }
  }

  /** The proxy's framing, for every way the client's bytes arrive: the commands depend
      only on the bytes, each is whole and harmless, and together with what is left they
      are the bytes. */
  lemma ProxyFramesTheStream(pieces: seq<Bytes>)
    ensures var e := FeedAll(CutAt, pieces);
            && e.cmds == Extract(CutAt, Flat(pieces)).cmds
            && e.verdict == Extract(CutAt, Flat(pieces)).verdict
            && (forall i :: 0 <= i < |e.cmds| ==> Forwardable(e.cmds[i]))
            && (e.verdict.Going? ==> Flat(e.cmds) + e.rest == Flat(pieces))
            && Flat(e.cmds) <= Flat(pieces)
  {
    CutAtIsSound();
    FramingIgnoresReads(CutAt, pieces);
    ExtractIsLossless(CutAt, Flat(pieces));
    forall i | 0 <= i < |Extract(CutAt, Flat(pieces)).cmds|
      ensures Forwardable(Extract(CutAt, Flat(pieces)).cmds[i])
    {
      TakenAreForwardable(Flat(pieces), i);
    }
  }
}
