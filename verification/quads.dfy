/** Quadrilaterals as the networks see them: four planar vertices, and the two
    ways the models flatten them into eight numbers. */
module Quads {
  import opened Cyclic

  datatype Point = Point(x: real, y: real)

  /** `tf.reshape(quad, (-1, 8))` of a (4, 2) tensor: coordinates interleaved
      vertex by vertex, (x0, y0, x1, y1, ...). */
  function Flatten(q: seq<Point>): (r: seq<real>)
    ensures |r| == 2 * |q|
  {
    if |q| == 0 then [] else [q[0].x, q[0].y] + Flatten(q[1..])
  }

  /** Rotating the four vertices by s is a roll of the interleaved eight-vector
      by 2s. */
  lemma FlattenRoll(q: seq<Point>, s: int)
    requires |q| == 4
    ensures Flatten(Roll(q, s)) == Roll(Flatten(q), 2 * s)
  {
    var f := Flatten(q);
    var t := s % 4;
    RollFour(q, s);
    FlattenFour(q);
    FlattenFour(Roll(q, s));
    RollMod(f, 2 * s);
    assert s == (s / 4) * 4 + t;
    ModUnique(2 * s, 8, s / 4, 2 * t);
    RollEight(f, 2 * t);
  }

  /** Entry 2i of the flattened quadrilateral is x_i and entry 2i + 1 is y_i. */
  lemma {:induction false} FlattenIndex(q: seq<Point>, i: nat)
    requires i < |q|
    ensures Flatten(q)[2 * i] == q[i].x && Flatten(q)[2 * i + 1] == q[i].y
  {
    if i > 0 {
      FlattenIndex(q[1..], i - 1);
    }
  }

  lemma FlattenFour(q: seq<Point>)
    requires |q| == 4
    ensures Flatten(q) == [q[0].x, q[0].y, q[1].x, q[1].y, q[2].x, q[2].y, q[3].x, q[3].y]
  {
    assert Flatten(q[3..]) == [q[3].x, q[3].y] + Flatten(q[4..]);
    assert Flatten(q[2..]) == [q[2].x, q[2].y] + Flatten(q[3..]);
    assert Flatten(q[1..]) == [q[1].x, q[1].y] + Flatten(q[2..]);
  }

  /** The rolls of an eight-vector by an even shift 0, 2, 4 or 6. */
  lemma RollEight<T>(f: seq<T>, u: int)
    requires |f| == 8 && u in {0, 2, 4, 6}
    ensures u == 0 ==> Roll(f, u) == f
    ensures u == 2 ==> Roll(f, u) == [f[6], f[7], f[0], f[1], f[2], f[3], f[4], f[5]]
    ensures u == 4 ==> Roll(f, u) == [f[4], f[5], f[6], f[7], f[0], f[1], f[2], f[3]]
    ensures u == 6 ==> Roll(f, u) == [f[2], f[3], f[4], f[5], f[6], f[7], f[0], f[1]]
  {
    forall i | 0 <= i < 8
      ensures Roll(f, u)[i] == f[(i - u) % 8]
    {
      RollAtLength(f, 8, u, i);
    }
  }

  /** The x coordinates of the vertices. */
  function Xs(q: seq<Point>): (r: seq<real>)
    ensures |r| == |q| && forall i :: 0 <= i < |q| ==> r[i] == q[i].x
  {
    if |q| == 0 then [] else [q[0].x] + Xs(q[1..])
  }

  /** The y coordinates of the vertices. */
  function Ys(q: seq<Point>): (r: seq<real>)
    ensures |r| == |q| && forall i :: 0 <= i < |q| ==> r[i] == q[i].y
  {
    if |q| == 0 then [] else [q[0].y] + Ys(q[1..])
  }

  /** Coordinate extraction commutes with rotation of the vertices. */
  lemma XsYsRoll(q: seq<Point>, s: int)
    ensures Xs(Roll(q, s)) == Roll(Xs(q), s) && Ys(Roll(q, s)) == Roll(Ys(q), s)
  {
    forall i | 0 <= i < |q|
      ensures Xs(Roll(q, s))[i] == Roll(Xs(q), s)[i] && Ys(Roll(q, s))[i] == Roll(Ys(q), s)[i]
    {
      RollAt(q, s, i);
      RollAt(Xs(q), s, i);
      RollAt(Ys(q), s, i);
    }
  }
}
