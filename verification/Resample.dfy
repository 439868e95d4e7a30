/** The streaming resampler: a global phase carried across calls and a pruned history,
    for any payload that can be interpolated between four samples. */
module Resample {

  // ---- Integer division -----------------------------------------------------------

  lemma DivBounds(a: nat, c: nat)
    requires c > 0
    ensures (a / c) * c <= a < (a / c) * c + c
    ensures a % c == a - (a / c) * c
  {
  }

  /** `q <= a / c` exactly when `q * c <= a`. */
  lemma DivAtLeast(q: nat, a: nat, c: nat)
    requires c > 0
    ensures q <= a / c <==> q * c <= a
  {
    DivBounds(a, c);
    if q <= a / c {
      assert q * c <= (a / c) * c;
    } else {
      assert (a / c + 1) * c <= q * c;
    }
  }

  lemma MulMonotone(a: nat, b: nat, c: nat)
    requires a <= b
    ensures a * c <= b * c
  {
  }

  lemma DivMonotone(a: nat, b: nat, c: nat)
    requires a <= b && c > 0
    ensures a / c <= b / c
  {
    DivBounds(a, c);
    DivAtLeast(a / c, b, c);
  }

  // ---- What the resampler computes ---------------------------------------------------

  /** Interpolation between the second and third of four samples at a fraction. */
  type Interp<!T> = (T, T, T, T, real) -> T

  datatype Rates = Rates(from: nat, to: nat)
  {
    predicate Valid() {
      from > 0 && to > 0
    }

    /** Outputs that exist once `n` inputs have been consumed. */
    function Total(n: nat): nat
      requires Valid()
    {
      if n == 0 then 0 else (n - 1) * to / from + 1
    }

    /** The input sample at or before output `n`. */
    function Index(n: nat): nat
      requires Valid()
    {
      n * from / to
    }

    /** How far output `n` lies beyond that sample. */
    function Phase(n: nat): real
      requires Valid()
    {
      (n * from % to) as real / to as real
    }
  }

  /** Sample `i` of the stream, clamped to the samples there are. */
  function At<T>(x: seq<T>, i: int): T
    requires x != []
  {
    if i < 0 then x[0] else if i < |x| then x[i] else x[|x| - 1]
  }

  /** Output `n` computed from the stream `x`. */
  function Sample<T>(f: Interp<T>, r: Rates, x: seq<T>, n: nat): T
    requires r.Valid() && x != []
  {
    var i := r.Index(n);
    f(At(x, i - 1), At(x, i), At(x, i + 1), At(x, i + 2), r.Phase(n))
  }

  /** The outputs that become due when the stream grows from `h` to `x`. */
  function Due<T>(f: Interp<T>, r: Rates, h: seq<T>, x: seq<T>): (out: seq<T>)
    requires r.Valid() && |h| <= |x|
    ensures |out| == r.Total(|x|) - r.Total(|h|)
  {
    TotalGrows(r, |h|, |x|);
    seq(r.Total(|x|) - r.Total(|h|), k requires 0 <= k < r.Total(|x|) - r.Total(|h|) =>
      TotalOfEmpty(r, |x|); Sample(f, r, x, r.Total(|h|) + k))
  }

  lemma TotalOfEmpty(r: Rates, n: nat)
    requires r.Valid()
    ensures r.Total(n) > 0 <==> n > 0
  {
    if n > 0 {
      DivBounds((n - 1) * r.to, r.from);
    }
  }

  lemma TotalGrows(r: Rates, m: nat, n: nat)
    requires r.Valid() && m <= n
    ensures r.Total(m) <= r.Total(n)
  {
    if m > 0 {
      MulMonotone(m - 1, n - 1, r.to);
      DivMonotone((m - 1) * r.to, (n - 1) * r.to, r.from);
    }
  }

  /** A due output lies within the stream, strictly before its last sample unless it
      falls exactly on one. */
  lemma DueIsInside(r: Rates, n: nat, count: nat)
    requires r.Valid() && n < r.Total(count)
    ensures count > 0 && r.Index(n) <= count - 1
    ensures r.Index(n) == count - 1 ==> n * r.from % r.to == 0
  {
    TotalOfEmpty(r, count);
    DivAtLeast(n, (count - 1) * r.to, r.from);
    assert (count - 1) * r.to + r.to == count * r.to;
    DivAtLeast(count, n * r.from, r.to);
    DivBounds(n * r.from, r.to);
  }

  /** An output that is not due yet lies at or beyond the last sample. */
  lemma NotDueIsBeyond(r: Rates, n: nat, count: nat)
    requires r.Valid() && count > 0 && n >= r.Total(count)
    ensures r.Index(n) >= count - 1
  {
    DivAtLeast(n, (count - 1) * r.to, r.from);
    assert n * r.from > (count - 1) * r.to;
    DivAtLeast(count - 1, n * r.from, r.to);
  }

  lemma IndexGrows(r: Rates, m: nat, n: nat)
    requires r.Valid() && m <= n
    ensures r.Index(m) <= r.Index(n)
  {
    MulMonotone(m, n, r.from);
    DivMonotone(m * r.from, n * r.from, r.to);
  }

  // ---- The resampler -------------------------------------------------------------------

  class StreamingResampler<T> {
    const catmull: Interp<T>
    var rates: Rates
    /** Retained input samples, absolute indices `[bufStart, nIn)`. */
    var buf: seq<T>
    var bufStart: nat
    var nIn: nat
    var nOut: nat
    /** Every sample since the last reset. */
    ghost var stream: seq<T>

    /** The retained samples are the tail of the stream, and reach back far enough
        for every output from the next one on. */
    ghost predicate KeepsContext()
      reads this
    {
      && rates.Valid()
      && nIn == |stream| && bufStart <= nIn && buf == stream[bufStart..]
      && (nIn > 0 ==> |buf| >= 1)
      && (bufStart > 0 ==> bufStart < rates.Index(nOut))
    }

    /** Between calls every due output is out, and at most two samples are kept. */
    ghost predicate Valid()
      reads this
    {
      KeepsContext() && nOut == rates.Total(nIn) && |buf| <= 2
    }

    constructor (catmull: Interp<T>, from: nat, to: nat)
      requires from > 0 && to > 0
      ensures this.catmull == catmull
      ensures Valid() && rates == Rates(from, to) && stream == []
    {
      this.catmull := catmull;
      rates := Rates(from, to);
      buf, bufStart, nIn, nOut := [], 0, 0, 0;
      stream := [];
    }

    method Reset()
      requires Valid()
      modifies this
      ensures Valid() && rates == old(rates) && stream == []
    {
      buf := [];
      bufStart := 0;
      nIn := 0;
      nOut := 0;
      stream := [];
    }

    /** A change of either rate starts a new stream; the same rates change nothing. */
    method SetRates(from: nat, to: nat)
      requires Valid() && from > 0 && to > 0
      modifies this
      ensures Valid() && rates == Rates(from, to)
      ensures rates == old(rates) ==> stream == old(stream) && nOut == old(nOut) && buf == old(buf)
      ensures rates != old(rates) ==> stream == []
    {
      if from != rates.from || to != rates.to {
        rates := Rates(from, to);
        buf := [];
        bufStart := 0;
        nIn := 0;
        nOut := 0;
        stream := [];
      }
    }

    /** What `Process` will emit for a chunk of this size. */
    function PendingOutputCount(inputLen: nat): (count: nat)
      requires Valid()
      reads this
      ensures count == rates.Total(|stream| + inputLen) - rates.Total(|stream|)
    {
      TotalGrows(rates, nIn, nIn + inputLen);
      rates.Total(nIn + inputLen) - nOut
    }

    /** Read an absolute index out of the retained samples, clamped to the stream. */
    function Read(abs: int, last: nat): (sample: T)
      requires last + 1 == |stream| && bufStart + |buf| == |stream| && buf == stream[bufStart..]
      requires bufStart <= (if abs < 0 then 0 else if abs <= last then abs else last)
      reads this
      ensures sample == At(stream, abs)
    {
      var clamped := if abs < 0 then 0 else if abs <= last then abs else last;
      buf[clamped - bufStart]
    }

    /** Interpolate the next output from the retained samples. */
    method Interpolate(last: nat) returns (sample: T)
      requires KeepsContext() && last + 1 == nIn && nOut < rates.Total(nIn)
      ensures sample == Sample(catmull, rates, stream, nOut)
    {
      DueIsInside(rates, nOut, nIn);
      var p := nOut * rates.from;
      var i := p / rates.to;
      var t := (p % rates.to) as real / rates.to as real;
      var s0, s1, s2, s3 := Read(i - 1, last), Read(i, last), Read(i + 1, last), Read(i + 2, last);
      sample := catmull(s0, s1, s2, s3, t);
    }

    /** Resample a chunk: emits exactly the outputs that become due, each computed as
        from the whole stream so far, though at most two samples are kept. */
    method Process(input: seq<T>) returns (out: seq<T>)
      requires Valid()
      modifies this
      ensures Valid() && rates == old(rates)
      ensures stream == old(stream) + input
      ensures out == Due(catmull, rates, old(stream), stream)
    {
      buf := buf + input;
      nIn := nIn + |input|;
      stream := stream + input;
      out := [];
      assert buf == stream[bufStart..];
      TotalGrows(rates, nIn - |input|, nIn);
      if nIn == 0 {
        return;
      }
      out := EmitDue(nIn - 1, rates.Total(nIn));
      Prune();
    }

    /** Every output from the next one up to `target`. */
    method EmitDue(last: nat, target: nat) returns (out: seq<T>)
      requires KeepsContext() && last + 1 == nIn && nOut <= target == rates.Total(nIn)
      modifies this`nOut
      ensures KeepsContext() && nOut == target && |out| == target - old(nOut)
      ensures forall k :: 0 <= k < |out| ==> out[k] == Sample(catmull, rates, stream, old(nOut) + k)
    {
      out := [];
      while nOut < target
        invariant old(nOut) <= nOut <= target && KeepsContext()
        invariant |out| == nOut - old(nOut)
        invariant forall k :: 0 <= k < |out| ==> out[k] == Sample(catmull, rates, stream, old(nOut) + k)
      {
        var sample := Interpolate(last);
        out := out + [sample];
        IndexGrows(rates, nOut, nOut + 1);
        nOut := nOut + 1;
      }
    }

    /** Drop the samples that no later output can refer to. */
    method Prune()
      requires KeepsContext() && nIn > 0 && nOut == rates.Total(nIn)
      modifies this`buf, this`bufStart
      ensures Valid()
    {
      var nextIndex := nOut * rates.from / rates.to;
      var targetStart := if nextIndex > 0 then nextIndex - 1 else 0;
      NotDueIsBeyond(rates, nOut, nIn);
      while bufStart < targetStart && |buf| > 1
        invariant KeepsContext()
        decreases |buf|
      {
        buf := buf[1..];
        bufStart := bufStart + 1;
      }
    }
  }
}
