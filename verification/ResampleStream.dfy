/** Resampling a stream in chunks against resampling it whole. */
module ResampleStream {
  import opened Points
  import opened Resample

  /** Everything a resampler emits while it is fed these chunks from the start. */
  function Chunked<T>(f: Interp<T>, r: Rates, chunks: seq<seq<T>>): seq<T>
    requires r.Valid()
  {
    if chunks == [] then []
    else
      var before := chunks[..|chunks| - 1];
      Chunked(f, r, before) + Due(f, r, Flat(before), Flat(chunks))
  }

  /** Feeding chunk after chunk emits exactly that. */
  method FeedChunks<T>(resampler: StreamingResampler<T>, chunks: seq<seq<T>>) returns (out: seq<T>)
    requires resampler.Valid() && resampler.stream == []
    modifies resampler
    ensures resampler.Valid() && resampler.rates == old(resampler.rates)
    ensures resampler.stream == Flat(chunks)
    ensures out == Chunked(resampler.catmull, resampler.rates, chunks)
  {
    out := [];
    var i := 0;
    assert chunks[..0] == [];
    while i < |chunks|
      invariant i <= |chunks|
      invariant resampler.Valid() && resampler.rates == old(resampler.rates)
      invariant resampler.stream == Flat(chunks[..i])
      invariant out == Chunked(resampler.catmull, resampler.rates, chunks[..i])
    {
      var emitted := resampler.Process(chunks[i]);
      assert chunks[..i + 1][..i] == chunks[..i];
      out := out + emitted;
      i := i + 1;
    }
    assert chunks[..i] == chunks;
  }

  /** The output count depends only on how many samples went in. */
  lemma {:induction false} ChunkedCount<T>(f: Interp<T>, r: Rates, chunks: seq<seq<T>>)
    requires r.Valid()
    ensures |Chunked(f, r, chunks)| == r.Total(|Flat(chunks)|)
    decreases |chunks|
  {
    if chunks != [] {
      ChunkedCount(f, r, chunks[..|chunks| - 1]);
    }
  }

  /** How much of the stream had arrived when output `n` was computed: it is computed with
      the first chunk after which it is due. */
  function SeenFor<T>(r: Rates, chunks: seq<seq<T>>, n: nat): nat
    requires r.Valid()
  {
    if chunks == [] then 0
    else
      var before := chunks[..|chunks| - 1];
      if n < r.Total(|Flat(before)|) then SeenFor(r, before, n) else |Flat(chunks)|
  }

  /** Each output was computed from that prefix of the stream, in which it was due. */
  lemma {:induction false} ChunkedFromPrefix<T>(f: Interp<T>, r: Rates, chunks: seq<seq<T>>, n: nat)
    returns (h: seq<T>)
    requires r.Valid() && n < |Chunked(f, r, chunks)|
    ensures h <= Flat(chunks) && h != [] && n < r.Total(|h|) && |h| == SeenFor(r, chunks, n)
    ensures Chunked(f, r, chunks)[n] == Sample(f, r, h, n)
    decreases |chunks|
  {
    var before := chunks[..|chunks| - 1];
    ChunkedCount(f, r, before);
    if n < |Chunked(f, r, before)| {
      h := ChunkedFromPrefix(f, r, before, n);
    } else {
      h := Flat(chunks);
      ChunkedCount(f, r, chunks);
      TotalOfEmpty(r, |h|);
      assert Chunked(f, r, chunks)[n] == Due(f, r, Flat(before), h)[n - |Chunked(f, r, before)|];
    }
  }

  lemma Scaled(q: real, whole: real)
    requires whole > 0.0
    ensures q >= 1.0 ==> q * whole >= whole
    ensures q < 0.0 ==> q * whole < 0.0
    ensures q > 0.0 ==> q * whole > 0.0
    ensures q == 0.0 ==> q * whole == 0.0
  {
    if q >= 1.0 {
      assert (q - 1.0) * whole >= 0.0;
    }
  }

  lemma Quotient(q: real, part: real, whole: real)
    requires 0.0 <= part < whole && q * whole == part
    ensures 0.0 <= q < 1.0
    ensures q == 0.0 <==> part == 0.0
  {
    Scaled(q, whole);
  }

  lemma PhaseRange(r: Rates, n: nat)
    requires r.Valid()
    ensures 0.0 <= r.Phase(n) < 1.0
    ensures r.Phase(n) == 0.0 <==> n * r.from % r.to == 0
  {
    var part, whole := (n * r.from % r.to) as real, r.to as real;
    Quotient(part / whole, part, whole);
  }

  /** Computed from a prefix in which it is due, an output uses the same samples as
      from the whole stream, except that the look-ahead may still be clamped to the
      sample before it. On a sample, it uses that same sample. */
  lemma PrefixContext<T>(r: Rates, h: seq<T>, x: seq<T>, n: nat)
    requires r.Valid() && h != [] && h <= x && n < r.Total(|h|)
    ensures var i := r.Index(n);
            && At(h, i - 1) == At(x, i - 1)
            && At(h, i) == At(x, i)
            && (r.Phase(n) != 0.0 ==> At(h, i + 1) == At(x, i + 1))
            && (r.Phase(n) != 0.0 ==> At(h, i + 2) == At(x, i + 2) || At(h, i + 2) == At(x, i + 1))
  {
    DueIsInside(r, n, |h|);
    PhaseRange(r, n);
  }
}
