/** The point type shared by every stage of the output path, and the small
    helpers that blank it. */
module Points {

  newtype U16 = n: int | 0 <= n < 0x1_0000

  datatype Option<+T> = None | Some(value: T)

  /** The four channels that the colour delay line moves as one value. */
  datatype Color = Color(r: U16, g: U16, b: U16, intensity: U16)

  const BLACK := Color(0, 0, 0, 0)

  /** Coordinates are reals: float rounding is outside this model. */
  datatype Point = Point(x: real, y: real, color: Color)

  type Frame = seq<Point>

  function Blanked(x: real, y: real): Point {
    Point(x, y, BLACK)
  }

  predicate Dark(p: Point) {
    p.color == BLACK
  }

  function Colors(points: seq<Point>): seq<Color> {
    seq(|points|, i requires 0 <= i < |points| => points[i].color)
  }

  /** `n` copies of one value. */
  function Repeat<T>(value: T, n: nat): (copies: seq<T>)
    ensures |copies| == n
    ensures forall i :: 0 <= i < n ==> copies[i] == value
  {
    seq(n, _ => value)
  }

  /** Pieces put together. */
  function Flat<T>(pieces: seq<seq<T>>): seq<T> {
    if pieces == [] then [] else Flat(pieces[..|pieces| - 1]) + pieces[|pieces| - 1]
  }

  /** They can be put together from the front as well. */
  lemma {:induction false} FlatFront<T>(pieces: seq<seq<T>>)
    requires pieces != []
    ensures Flat(pieces) == pieces[0] + Flat(pieces[1..])
    decreases |pieces|
  {
    var n := |pieces| - 1;
    if n == 0 {
      assert pieces[..0] == [] && pieces[1..] == [];
      assert Flat(pieces) == [] + pieces[0];
    } else {
      var mid := pieces[1..n];
      FlatFront(pieces[..n]);
      assert pieces[..n][1..] == mid;
      FlatLast(mid, pieces[n]);
      assert pieces[1..] == mid + [pieces[n]];
      Associates(pieces[0], Flat(mid), pieces[n]);
    }
  }

  lemma FlatLast<T>(pieces: seq<seq<T>>, last: seq<T>)
    ensures Flat(pieces + [last]) == Flat(pieces) + last
  {
    assert (pieces + [last])[..|pieces|] == pieces;
  }

  lemma Associates<T>(a: seq<T>, b: seq<T>, c: seq<T>)
    ensures a + (b + c) == (a + b) + c
  {
  }

  function Min(a: nat, b: nat): nat {
    if a <= b then a else b
  }
}
