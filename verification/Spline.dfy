/** The Catmull-Rom spline over the reals, and what chunking costs when it is used. */
module Spline {
  import opened Points
  import opened Resample
  import opened ResampleStream

  function Abs(x: real): real {
    if x < 0.0 then -x else x
  }

  /** A polynomial by Horner's rule, the constant coefficient first. */
  function Horner(c: seq<real>, t: real): real {
    if c == [] then 0.0 else Horner(c[1..], t) * t + c[0]
  }

  /** The spline between `s1` and `s2` at `t`. */
  function CatmullRom(s0: real, s1: real, s2: real, s3: real, t: real): real {
    var c1 := 0.5 * (s2 - s0);
    var c2 := s0 - 2.5 * s1 + 2.0 * s2 - 0.5 * s3;
    var c3 := 0.5 * (s3 - s0) + 1.5 * (s1 - s2);
    Horner([s1, c1, c2, c3], t)
  }

  lemma HornerCubic(c0: real, c1: real, c2: real, c3: real, t: real)
    ensures Horner([c0, c1, c2, c3], t) == ((c3 * t + c2) * t + c1) * t + c0
  {
    var none: seq<real> := [];
    assert [c0, c1, c2, c3][1..] == [c1, c2, c3] && [c1, c2, c3][1..] == [c2, c3];
    assert [c2, c3][1..] == [c3] && [c3][1..] == none;
    assert Horner(none, t) == 0.0;
    assert Horner([c3], t) == 0.0 * t + c3 == c3;
    assert Horner([c2, c3], t) == c3 * t + c2;
    assert Horner([c1, c2, c3], t) == (c3 * t + c2) * t + c1;
  }

  /** At the knots the spline is the knot. */
  lemma SplineAtKnots(s0: real, s1: real, s2: real, s3: real)
    ensures CatmullRom(s0, s1, s2, s3, 0.0) == s1
    ensures CatmullRom(s0, s1, s2, s3, 1.0) == s2
  {
    var c1 := 0.5 * (s2 - s0);
    var c2 := s0 - 2.5 * s1 + 2.0 * s2 - 0.5 * s3;
    var c3 := 0.5 * (s3 - s0) + 1.5 * (s1 - s2);
    HornerCubic(s1, c1, c2, c3, 0.0);
    HornerCubic(s1, c1, c2, c3, 1.0);
  }

  lemma MulNonnegative(a: real, b: real)
    requires a >= 0.0 && b >= 0.0
    ensures a * b >= 0.0
  {
  }

  /** `t * t * (1 - t)` peaks at two thirds. */
  lemma Hump(t: real)
    requires 0.0 <= t <= 1.0
    ensures 0.0 <= t * t * (1.0 - t) <= 4.0 / 27.0
  {
    var u := t - 2.0 / 3.0;
    MulNonnegative(t, t);
    MulNonnegative(t * t, 1.0 - t);
    if u >= 0.0 { MulNonnegative(u, u); } else { MulNonnegative(-u, -u); }
    MulNonnegative(u * u, t + 1.0 / 3.0);
    assert u * u == t * t - 4.0 / 3.0 * t + 4.0 / 9.0;
    assert 4.0 / 27.0 - t * t * (1.0 - t) == u * u * (t + 1.0 / 3.0);
  }

  /** How far a cubic moves with its two leading coefficients. */
  lemma CubicMoves(c0: real, c1: real, c2: real, c3: real, d: real, t: real)
    ensures (((c3 - d) * t + (c2 + d)) * t + c1) * t + c0 - (((c3 * t + c2) * t + c1) * t + c0)
         == d * (t * t * (1.0 - t))
  {
    var h := c3 * t + c2;
    assert (c3 - d) * t + (c2 + d) == h + d * (1.0 - t);
    assert (h + d * (1.0 - t)) * t == h * t + d * (1.0 - t) * t;
    assert (h * t + d * (1.0 - t) * t + c1) * t == (h * t + c1) * t + d * (1.0 - t) * t * t;
    assert d * (1.0 - t) * t * t == d * (t * t * (1.0 - t));
  }

  lemma HornerMoves(c0: real, c1: real, p2: real, p3: real, q2: real, q3: real, d: real, t: real)
    requires p2 == q2 + d && p3 == q3 - d
    ensures Horner([c0, c1, p2, p3], t) - Horner([c0, c1, q2, q3], t) == d * (t * t * (1.0 - t))
  {
    HornerCubic(c0, c1, p2, p3, t);
    HornerCubic(c0, c1, q2, q3, t);
    CubicMoves(c0, c1, q2, q3, d, t);
  }

  /** How far the spline moves with its look-ahead sample. */
  lemma LookAheadEffect(s0: real, s1: real, s2: real, a: real, b: real, t: real)
    ensures CatmullRom(s0, s1, s2, a, t) - CatmullRom(s0, s1, s2, b, t)
         == 0.5 * (b - a) * (t * t * (1.0 - t))
  {
    var c1 := 0.5 * (s2 - s0);
    var p2, q2 := s0 - 2.5 * s1 + 2.0 * s2 - 0.5 * a, s0 - 2.5 * s1 + 2.0 * s2 - 0.5 * b;
    var p3, q3 := 0.5 * (a - s0) + 1.5 * (s1 - s2), 0.5 * (b - s0) + 1.5 * (s1 - s2);
    HornerMoves(s1, c1, p2, p3, q2, q3, 0.5 * (b - a), t);
  }

  lemma ScaledBound(d: real, hump: real)
    requires 0.0 <= hump <= 4.0 / 27.0
    ensures Abs(0.5 * d * hump) <= 2.0 / 27.0 * Abs(d)
  {
    if d >= 0.0 {
      MulNonnegative(d, hump);
      MulNonnegative(d, 4.0 / 27.0 - hump);
    } else {
      MulNonnegative(-d, hump);
      MulNonnegative(-d, 4.0 / 27.0 - hump);
    }
  }

  /** A difference of that size is at most 2/27 of the step. */
  lemma EffectBound(p: real, q: real, d: real, t: real)
    requires 0.0 <= t <= 1.0 && p - q == 0.5 * d * (t * t * (1.0 - t))
    ensures Abs(p - q) <= 2.0 / 27.0 * Abs(d)
  {
    Hump(t);
    ScaledBound(d, t * t * (1.0 - t));
  }

  /** How much the choice between two look-ahead samples matters. */
  ghost function Gap(f: Interp<real>, s0: real, s1: real, s2: real, a: real, b: real, t: real): real {
    Abs(f(s0, s1, s2, a, t) - f(s0, s1, s2, b, t))
  }

  /** What chunking needs of an interpolation: it passes through its knots, and moves
      by at most `k` times the step of its look-ahead sample. */
  ghost predicate Smooth(f: Interp<real>, k: real) {
    && (forall s0, s1, s2, s3 :: f(s0, s1, s2, s3, 0.0) == s1)
    && (forall s0, s1, s2, a, b, t | 0.0 <= t <= 1.0 ::
          Gap(f, s0, s1, s2, a, b, t) <= k * Abs(b - a))
  }

  lemma SplineGap(s0: real, s1: real, s2: real, a: real, b: real, t: real)
    requires 0.0 <= t <= 1.0
    ensures Gap(CatmullRom, s0, s1, s2, a, b, t) <= 2.0 / 27.0 * Abs(b - a)
  {
    LookAheadEffect(s0, s1, s2, a, b, t);
    EffectBound(CatmullRom(s0, s1, s2, a, t), CatmullRom(s0, s1, s2, b, t), b - a, t);
  }

  lemma SplineIsSmooth()
    ensures Smooth(CatmullRom, 2.0 / 27.0)
  {
    forall s0, s1, s2, s3
      ensures CatmullRom(s0, s1, s2, s3, 0.0) == s1
    {
      SplineAtKnots(s0, s1, s2, s3);
    }
    forall s0, s1, s2, a, b, t | 0.0 <= t <= 1.0
      ensures Gap(CatmullRom, s0, s1, s2, a, b, t) <= 2.0 / 27.0 * Abs(b - a)
    {
      SplineGap(s0, s1, s2, a, b, t);
    }
  }

  /** With either look-ahead the value is within the bound of the true one. */
  lemma EitherLookAhead(f: Interp<real>, k: real, s0: real, s1: real, s2: real, s3: real, t: real, y: real)
    requires Smooth(f, k) && k >= 0.0 && 0.0 <= t <= 1.0
    requires y == f(s0, s1, s2, s3, t) || y == f(s0, s1, s2, s2, t)
    ensures Abs(y - f(s0, s1, s2, s3, t)) <= k * Abs(s3 - s2)
  {
    MulNonnegative(k, Abs(s3 - s2));
    assert Gap(f, s0, s1, s2, s2, s3, t) <= k * Abs(s3 - s2);
  }

  /** `y` stands in for output `n` of the stream `x`: exactly on a sample, and within
      `k` steps into the look-ahead sample otherwise. */
  ghost predicate StandsIn(f: Interp<real>, k: real, r: Rates, x: seq<real>, n: nat, y: real)
    requires r.Valid() && x != []
  {
    var i := r.Index(n);
    && (r.Phase(n) == 0.0 ==> y == Sample(f, r, x, n) == At(x, i))
    && Abs(y - Sample(f, r, x, n)) <= k * Abs(At(x, i + 2) - At(x, i + 1))
  }

  /** What a prefix gives for an output against what the whole stream gives. */
  lemma PrefixStandsIn(f: Interp<real>, k: real, r: Rates, h: seq<real>, x: seq<real>, n: nat)
    requires Smooth(f, k) && k >= 0.0 && r.Valid() && h != [] && h <= x && n < r.Total(|h|)
    ensures StandsIn(f, k, r, x, n, Sample(f, r, h, n))
  {
    PrefixContext(r, h, x, n);
    PhaseRange(r, n);
    var i: int, t := r.Index(n), r.Phase(n);
    var s0, s1, s2, s3 := At(x, i - 1), At(x, i), At(x, i + 1), At(x, i + 2);
    if t == 0.0 {
      assert f(At(h, i - 1), At(h, i), At(h, i + 1), At(h, i + 2), 0.0) == s1;
      assert f(s0, s1, s2, s3, 0.0) == s1;
      MulNonnegative(k, Abs(s3 - s2));
    } else {
      EitherLookAhead(f, k, s0, s1, s2, s3, t, Sample(f, r, h, n));
    }
  }

  /** For every way of cutting the input, every output of the chunked stream stands in
      for the one that the whole stream would give. */
  lemma ChunkedStandsIn(f: Interp<real>, k: real, r: Rates, chunks: seq<seq<real>>, n: nat)
    requires Smooth(f, k) && k >= 0.0 && r.Valid() && n < |Chunked(f, r, chunks)|
    ensures Flat(chunks) != []
    ensures StandsIn(f, k, r, Flat(chunks), n, Chunked(f, r, chunks)[n])
  {
    var h := ChunkedFromPrefix(f, r, chunks, n);
    PrefixStandsIn(f, k, r, h, Flat(chunks), n);
  }

  /** The resampler over the reals: exact on samples, otherwise within 2/27 of the step
      into the look-ahead sample, for every way of cutting the input. */
  lemma ChunkedIsClose(r: Rates, chunks: seq<seq<real>>, n: nat)
    requires r.Valid() && n < |Chunked(CatmullRom, r, chunks)|
    ensures Flat(chunks) != []
    ensures StandsIn(CatmullRom, 2.0 / 27.0, r, Flat(chunks), n, Chunked(CatmullRom, r, chunks)[n])
  {
    SplineIsSmooth();
    ChunkedStandsIn(CatmullRom, 2.0 / 27.0, r, chunks, n);
  }

  /** The bound is attained: fed [0, 0] and then [1] at a ratio of 2 to 3, output
      number one is off by what the look-ahead costs at two thirds. */
  lemma TwoChunks(f: Interp<real>)
    ensures var r, chunks := Rates(2, 3), [[0.0, 0.0], [1.0]];
            && Flat(chunks) == [0.0, 0.0, 1.0] && 1 < |Chunked(f, r, chunks)| && r.Index(1) == 0
            && Chunked(f, r, chunks)[1] == f(0.0, 0.0, 0.0, 0.0, 2.0 / 3.0)
            && Sample(f, r, Flat(chunks), 1) == f(0.0, 0.0, 0.0, 1.0, 2.0 / 3.0)
  {
    var r, a, b := Rates(2, 3), [0.0, 0.0], [1.0];
    var chunks, none: seq<seq<real>> := [a, b], [];
    assert chunks[..1] == [a] && [a][..0] == none;
    assert Flat([a]) == a && Flat(chunks) == [0.0, 0.0, 1.0];
    assert r.Total(0) == 0 && r.Total(2) == 2 && r.Total(3) == 4;
    assert Chunked(f, r, [a]) == [] + Due(f, r, [], a);
    assert r.Phase(1) == 2.0 / 3.0;
    assert Chunked(f, r, chunks)[1] == Due(f, r, [], a)[1] == Sample(f, r, a, 1);
  }

  /** Output `n` of the chunked stream is off by exactly `k` steps into the look-ahead
      sample. */
  ghost predicate Attains(f: Interp<real>, k: real, r: Rates, chunks: seq<seq<real>>, n: nat) {
    && r.Valid() && Flat(chunks) != [] && n < |Chunked(f, r, chunks)|
    && var x, i := Flat(chunks), r.Index(n);
       Abs(Chunked(f, r, chunks)[n] - Sample(f, r, x, n)) == k * Abs(At(x, i + 2) - At(x, i + 1))
  }

  /** On that input the bound is attained. */
  lemma BoundIsTight()
    ensures Attains(CatmullRom, 2.0 / 27.0, Rates(2, 3), [[0.0, 0.0], [1.0]], 1)
  {
    TwoThirds();
    AttainedBy(CatmullRom, 2.0 / 27.0);
  }

  lemma AttainedBy(f: Interp<real>, k: real)
    requires Gap(f, 0.0, 0.0, 0.0, 0.0, 1.0, 2.0 / 3.0) == k
    ensures Attains(f, k, Rates(2, 3), [[0.0, 0.0], [1.0]], 1)
  {
    TwoChunks(f);
    var x := Flat([[0.0, 0.0], [1.0]]);
    assert At(x, 2) == 1.0 && At(x, 1) == 0.0;
    assert k * 1.0 == k;
  }

  lemma TwoThirds()
    ensures Gap(CatmullRom, 0.0, 0.0, 0.0, 0.0, 1.0, 2.0 / 3.0) == 2.0 / 27.0
  {
    LookAheadEffect(0.0, 0.0, 0.0, 0.0, 1.0, 2.0 / 3.0);
    assert 2.0 / 3.0 * (2.0 / 3.0) * (1.0 - 2.0 / 3.0) == 4.0 / 27.0;
  }
}
