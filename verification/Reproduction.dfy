/** What the resampler makes of a stream that lies on a parabola or on a straight line: every
    output is the point of that curve at the output's own position. */
module Reproduction {
  import opened Points
  import opened Resample
  import opened ResampleStream
  import opened Spline

  /** `c + b * u + a * u * u` */
  function Curve(a: real, b: real, c: real, u: real): real {
    (a * u + b) * u + c
  }

  ghost predicate OnCurve(x: seq<real>, a: real, b: real, c: real) {
    forall j :: 0 <= j < |x| ==> x[j] == Curve(a, b, c, j as real)
  }

  /** Where output `n` lies among the inputs. */
  function Position(r: Rates, n: nat): real
    requires r.Valid()
  {
    (n * r.from) as real / r.to as real
  }

  lemma CurveMoves(a: real, b: real, c: real, v: real, t: real)
    ensures Curve(a, b, c, v + t) == Curve(a, b, c, v) + (a * t + (2.0 * (a * v) + b)) * t
  {
    assert a * (v + t) + b == (a * v + b) + a * t;
    assert ((a * v + b) + a * t) * (v + t) == (a * v + b) * v + (a * v + b) * t + a * t * v + a * t * t;
    assert a * t * v == (a * v) * t;
    assert (a * t + (2.0 * (a * v) + b)) * t == a * t * t + (a * v) * t + (a * v) * t + b * t;
  }

  /** The spline through three steps of equal second difference is the parabola. */
  lemma SplineOfSteps(s: real, d: real, a: real, t: real)
    ensures CatmullRom(s - d + a, s, s + d + a, s + 2.0 * d + 4.0 * a, t) == s + (a * t + d) * t
  {
    var s0, s2, s3 := s - d + a, s + d + a, s + 2.0 * d + 4.0 * a;
    var c1 := 0.5 * (s2 - s0);
    var c2 := s0 - 2.5 * s + 2.0 * s2 - 0.5 * s3;
    var c3 := 0.5 * (s3 - s0) + 1.5 * (s - s2);
    assert c1 == d && c2 == a && c3 == 0.0;
    HornerCubic(s, c1, c2, c3, t);
    assert c3 * t == 0.0;
  }

  /** Between four consecutive points of a parabola the spline is that parabola. */
  lemma SplineReproduces(a: real, b: real, c: real, v: real, t: real)
    ensures CatmullRom(Curve(a, b, c, v - 1.0), Curve(a, b, c, v), Curve(a, b, c, v + 1.0), Curve(a, b, c, v + 2.0), t)
         == Curve(a, b, c, v + t)
  {
    var s, d := Curve(a, b, c, v), 2.0 * (a * v) + b;
    CurveMoves(a, b, c, v, -1.0);
    CurveMoves(a, b, c, v, 1.0);
    CurveMoves(a, b, c, v, 2.0);
    CurveMoves(a, b, c, v, t);
    SplineOfSteps(s, d, a, t);
  }

  lemma Quotients(whole: nat, part: nat, to: nat)
    requires to > 0
    ensures whole as real + part as real / to as real == (whole * to + part) as real / to as real
  {
    var w, p, q := whole as real, part as real, to as real;
    assert (whole * to + part) as real == w * q + p;
    assert (w * q + p) / q == w + p / q;
  }

  /** The sample at or before it and the fraction beyond are the position. */
  lemma PositionSplits(r: Rates, n: nat)
    requires r.Valid()
    ensures r.Index(n) as real + r.Phase(n) == Position(r, n)
  {
    var m := n * r.from;
    DivBounds(m, r.to);
    Quotients(m / r.to, m % r.to, r.to);
  }

  /** A stream on a parabola is reproduced wherever all four samples are there. */
  lemma CurveIsReproduced(r: Rates, x: seq<real>, n: nat, a: real, b: real, c: real)
    requires r.Valid() && OnCurve(x, a, b, c)
    requires 1 <= r.Index(n) && r.Index(n) + 2 < |x|
    ensures Sample(CatmullRom, r, x, n) == Curve(a, b, c, Position(r, n))
  {
    var i := r.Index(n);
    var v := i as real;
    assert (i - 1) as real == v - 1.0 && (i + 1) as real == v + 1.0 && (i + 2) as real == v + 2.0;
    SplineReproduces(a, b, c, v, r.Phase(n));
    PositionSplits(r, n);
  }

  /** If the stream ends where the look-ahead would be, the output is off by exactly that
      much. */
  lemma CurveWithoutLookAhead(r: Rates, x: seq<real>, n: nat, a: real, b: real, c: real)
    requires r.Valid() && OnCurve(x, a, b, c)
    requires 1 <= r.Index(n) && r.Index(n) + 2 == |x|
    ensures var u, t := r.Index(n) as real, r.Phase(n);
            Sample(CatmullRom, r, x, n) - Curve(a, b, c, Position(r, n))
            == 0.5 * (Curve(a, b, c, u + 2.0) - Curve(a, b, c, u + 1.0)) * (t * t * (1.0 - t))
  {
    var i, t := r.Index(n), r.Phase(n);
    var v := i as real;
    assert (i - 1) as real == v - 1.0 && (i + 1) as real == v + 1.0;
    var s2, s3 := Curve(a, b, c, v + 1.0), Curve(a, b, c, v + 2.0);
    LookAheadEffect(x[i - 1], x[i], s2, s2, s3, t);
    SplineReproduces(a, b, c, v, t);
    PositionSplits(r, n);
  }

  /** Fed in any chunks, a stream on a parabola is reproduced at every output whose four
      samples lie inside what had arrived when it was computed. */
  lemma ChunkedCurve(r: Rates, chunks: seq<seq<real>>, n: nat, a: real, b: real, c: real)
    requires r.Valid() && OnCurve(Flat(chunks), a, b, c)
    requires n < |Chunked(CatmullRom, r, chunks)|
    requires 1 <= r.Index(n) && r.Index(n) + 2 < SeenFor(r, chunks, n)
    ensures Chunked(CatmullRom, r, chunks)[n] == Curve(a, b, c, Position(r, n))
  {
    var h := ChunkedFromPrefix(CatmullRom, r, chunks, n);
    CurveIsReproduced(r, h, n, a, b, c);
  }

  ghost predicate OnLine(x: seq<real>, b: real, c: real) {
    forall j :: 0 <= j < |x| ==> x[j] == c + b * j as real
  }

  lemma StraightCurve(b: real, c: real, u: real)
    ensures Curve(0.0, b, c, u) == c + b * u
  {
  }

  lemma LineIsCurve(x: seq<real>, b: real, c: real)
    requires OnLine(x, b, c)
    ensures OnCurve(x, 0.0, b, c)
  {
    forall j | 0 <= j < |x|
      ensures x[j] == Curve(0.0, b, c, j as real)
    {
      StraightCurve(b, c, j as real);
    }
  }

  /** In particular a straight line: output `n` is its value at `n * from / to`. */
  lemma ChunkedLine(r: Rates, chunks: seq<seq<real>>, n: nat, b: real, c: real)
    requires r.Valid() && n < |Chunked(CatmullRom, r, chunks)| && OnLine(Flat(chunks), b, c)
    requires 1 <= r.Index(n) && r.Index(n) + 2 < SeenFor(r, chunks, n)
    ensures Chunked(CatmullRom, r, chunks)[n] == c + b * Position(r, n)
  {
    LineIsCurve(Flat(chunks), b, c);
    ChunkedCurve(r, chunks, n, 0.0, b, c);
    StraightCurve(b, c, Position(r, n));
  }
}
