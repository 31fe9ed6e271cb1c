/** One-dimensional convolutions along the vertex axis.  A `Conv1D` with kernel
    width 3 and 'valid' padding, followed by any number of width-1 layers, is a
    single opaque function of the three inputs under its window; only which
    vertices each output position sees is modelled. */
module Conv {
  import opened Cyclic

  /** The three consecutive positions a width-3 kernel reads. */
  datatype Window<T> = Window(left: T, mid: T, right: T)

  /** A width-3 'valid' convolution (with whatever pointwise layers follow):
      output position i reads input positions i, i + 1 and i + 2, so the
      output is two positions shorter. */
  function ValidConv3<A, B>(xs: seq<A>, k: Window<A> -> B): (r: seq<B>)
    requires |xs| >= 3
    ensures |r| == |xs| - 2
    ensures forall i :: 0 <= i < |r| ==> r[i] == k(Window(xs[i], xs[i + 1], xs[i + 2]))
  {
    if |xs| == 3 then [k(Window(xs[0], xs[1], xs[2]))]
    else [k(Window(xs[0], xs[1], xs[2]))] + ValidConv3(xs[1..], k)
  }

  /** `tf.concat([q[:, -1:], q, q[:, :1]], axis=1)`: the last vertex is copied in
      front and the first vertex behind. */
  function CircularPad<T>(q: seq<T>): (p: seq<T>)
    requires |q| >= 1
    ensures |p| == |q| + 2
    ensures p[0] == q[|q| - 1] && p[|q| + 1] == q[0]
    ensures forall i :: 0 <= i < |q| ==> p[i + 1] == q[i]
  {
    q[|q| - 1..] + q + q[..1]
  }

  /** Per-vertex features of the circularly padded input. */
  function CircularConv<T, B>(q: seq<T>, k: Window<T> -> B): seq<B>
    requires |q| >= 1
  {
    ValidConv3(CircularPad(q), k)
  }

  /** With circular padding a quadrilateral gets one output per vertex, and
      the window of vertex i is its cyclic neighbourhood
      (q[i-1], q[i], q[i+1]) mod 4. */
  lemma CircularConvWindows<T, B>(q: seq<T>, k: Window<T> -> B)
    requires |q| == 4
    ensures |CircularConv(q, k)| == 4
    ensures forall i :: 0 <= i < 4 ==>
      CircularConv(q, k)[i] == k(Window(q[(i - 1) % 4], q[i], q[(i + 1) % 4]))
  {
    CircularConvFour(q, k);
  }

  lemma CircularConvFour<T, B>(q: seq<T>, k: Window<T> -> B)
    requires |q| == 4
    ensures CircularConv(q, k) == [k(Window(q[3], q[0], q[1])), k(Window(q[0], q[1], q[2])),
                                   k(Window(q[1], q[2], q[3])), k(Window(q[2], q[3], q[0]))]
  {
    var p := CircularPad(q);
    assert p == [q[3], q[0], q[1], q[2], q[3], q[0]];
  }

  /** The circularly padded convolution is rotation-equivariant: rotating the
      vertices rotates the per-vertex features the same way. */
  lemma CircularConvEquivariant<T, B>(q: seq<T>, k: Window<T> -> B, s: int)
    requires |q| == 4
    ensures CircularConv(Roll(q, s), k) == Roll(CircularConv(q, k), s)
  {
    var c := CircularConv(q, k);
    var r := Roll(q, s);
    CircularConvFour(q, k);
    RollFour(q, s);
    RollFour(c, s);
    CircularConvFour(r, k);
  }

  /** `tf.concat([q, q[:, :1]], axis=1)`: only the first vertex is repeated, at
      the end. */
  function OneSidedPad<T>(q: seq<T>): (p: seq<T>)
    requires |q| >= 1
    ensures |p| == |q| + 1
    ensures p[|q|] == q[0]
    ensures forall i :: 0 <= i < |q| ==> p[i] == q[i]
  {
    q + q[..1]
  }
}
