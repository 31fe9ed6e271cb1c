/** The algebraic invariant of `GroupInvariance` and `GroupInvarianceConv`:
    each vertex's feature vector is split into groups of four channels and,
    per group, the four cyclic products
        a0·b1·c2·d3 + b0·c1·d2·a3 + c0·d1·a2·b3 + d0·a1·b2·c3
    are summed, where a, b, c, d are the channel 4-vectors of vertices 0..3. */
module FourTerm {
  import opened Cyclic
  import opened RealSeqs

  /** Where channel j of group i sits in a per-vertex vector of 4*g features.
      `GroupInvariance` reshapes the vector to (g, 4), so the channel is entry
      4*i + j (GroupMajor); `GroupInvarianceConv` reshapes it to (4, g), so the
      channel is entry j*g + i (ChannelMajor). */
  datatype Layout = GroupMajor | ChannelMajor

  function FeatureIndex(layout: Layout, g: nat, i: nat, j: nat): (k: nat)
    requires i < g && j < 4
    ensures k < 4 * g
  {
    match layout
    case GroupMajor => 4 * i + j
    case ChannelMajor => j * g + i
  }

  /** Both layouts address each feature from exactly one (group, channel) pair:
      no two pairs share an entry ... */
  lemma FeatureIndexInjective(layout: Layout, g: nat, i: nat, j: nat, i': nat, j': nat)
    requires i < g && j < 4 && i' < g && j' < 4
    requires FeatureIndex(layout, g, i, j) == FeatureIndex(layout, g, i', j')
    ensures i == i' && j == j'
  {
    match layout
    case GroupMajor =>
      ModUnique(4 * i + j, 4, i, j);
      ModUnique(4 * i' + j', 4, i', j');
    case ChannelMajor =>
      ModUnique(j * g + i, g, j, i);
      ModUnique(j' * g + i', g, j', i');
  }

  /** ... and every entry of the vector is some pair's channel. */
  lemma FeatureIndexSurjective(layout: Layout, g: nat, k: nat)
    requires k < 4 * g
    ensures exists i: nat, j: nat :: i < g && j < 4 && FeatureIndex(layout, g, i, j) == k
  {
    match layout
    case GroupMajor =>
      var i, j := k / 4, k % 4;
      assert FeatureIndex(layout, g, i, j) == k;
    case ChannelMajor =>
      var i, j := k % g, k / g;
      assert j < 4 by {
        if j >= 4 {
          MulMonotone(4, j, g);
          assert false;
        }
      }
      assert FeatureIndex(layout, g, i, j) == k;
  }

  lemma MulMonotone(a: int, b: int, n: int)
    requires a <= b && n >= 0
    ensures a * n <= b * n
  {
    assert b * n - a * n == (b - a) * n;
  }

  /** The four channels of group i in one vertex's feature vector. */
  function Channels(f: seq<real>, layout: Layout, g: nat, i: nat): (c: seq<real>)
    requires |f| == 4 * g && i < g
    ensures |c| == 4
    ensures forall j :: 0 <= j < 4 ==> c[j] == f[FeatureIndex(layout, g, i, j)]
  {
    seq(4, j requires 0 <= j < 4 => f[FeatureIndex(layout, g, i, j)])
  }

  /** The four-term sum exactly as the models write it. */
  function FourTermSum(a: seq<real>, b: seq<real>, c: seq<real>, d: seq<real>): real
    requires |a| == 4 && |b| == 4 && |c| == 4 && |d| == 4
  {
    a[0] * b[1] * c[2] * d[3]
    + b[0] * c[1] * d[2] * a[3]
    + c[0] * d[1] * a[2] * b[3]
    + d[0] * a[1] * b[2] * c[3]
  }

  /** Channel j of vertex (j + k) mod 4, for j = 0 .. 3. */
  function CyclicColumn(vs: seq<seq<real>>, k: nat): (c: seq<real>)
    requires |vs| == 4 && forall v :: 0 <= v < 4 ==> |vs[v]| == 4
    ensures |c| == 4
    ensures forall j :: 0 <= j < 4 ==> c[j] == vs[(j + k) % 4][j]
  {
    seq(4, j requires 0 <= j < 4 => vs[(j + k) % 4][j])
  }

  /** Reference form: term k multiplies channel j of vertex (j + k) mod 4. */
  function CyclicTerm(vs: seq<seq<real>>, k: nat): real
    requires |vs| == 4 && forall v :: 0 <= v < 4 ==> |vs[v]| == 4
  {
    Prod(CyclicColumn(vs, k))
  }

  /** The terms of the cyclic group of order 4, in order. */
  function CyclicTerms(vs: seq<seq<real>>): (ts: seq<real>)
    requires |vs| == 4 && forall v :: 0 <= v < 4 ==> |vs[v]| == 4
    ensures |ts| == 4
    ensures forall k :: 0 <= k < 4 ==> ts[k] == CyclicTerm(vs, k)
  {
    seq(4, k requires 0 <= k < 4 => CyclicTerm(vs, k))
  }

  /** The models' expression is the sum over the cyclic group of order 4 of
      the reference terms. */
  lemma FourTermSumIsCyclicSum(a: seq<real>, b: seq<real>, c: seq<real>, d: seq<real>)
    requires |a| == 4 && |b| == 4 && |c| == 4 && |d| == 4
    ensures FourTermSum(a, b, c, d) == Sum(CyclicTerms([a, b, c, d]))
  {
    var vs := [a, b, c, d];
    assert CyclicTerm(vs, 0) == a[0] * b[1] * c[2] * d[3] by { ProdFour(CyclicColumn(vs, 0)); }
    assert CyclicTerm(vs, 1) == b[0] * c[1] * d[2] * a[3] by { ProdFour(CyclicColumn(vs, 1)); }
    assert CyclicTerm(vs, 2) == c[0] * d[1] * a[2] * b[3] by { ProdFour(CyclicColumn(vs, 2)); }
    assert CyclicTerm(vs, 3) == d[0] * a[1] * b[2] * c[3] by { ProdFour(CyclicColumn(vs, 3)); }
    SumFour(CyclicTerms(vs));
  }

  lemma ProdFour(xs: seq<real>)
    requires |xs| == 4
    ensures Prod(xs) == xs[0] * xs[1] * xs[2] * xs[3]
  {
    assert Prod(xs[3..]) == xs[3];
    assert Prod(xs[2..]) == xs[2] * xs[3];
    assert Prod(xs[1..]) == xs[1] * (xs[2] * xs[3]);
  }

  lemma SumFour(xs: seq<real>)
    requires |xs| == 4
    ensures Sum(xs) == xs[0] + xs[1] + xs[2] + xs[3]
  {
    assert Sum(xs[3..]) == xs[3];
    assert Sum(xs[2..]) == xs[2] + xs[3];
  }

  /** Relabelling the vertices (a, b, c, d) as (b, c, d, a) only reorders the
      four products. */
  lemma FourTermSumRelabel(a: seq<real>, b: seq<real>, c: seq<real>, d: seq<real>)
    requires |a| == 4 && |b| == 4 && |c| == 4 && |d| == 4
    ensures FourTermSum(b, c, d, a) == FourTermSum(a, b, c, d)
  {
  }

  /** The invariance is cyclic only: reversing the vertex order can change the
      sum. */
  lemma FourTermSumNotReversalInvariant()
    ensures exists a, b, c, d ::
      |a| == 4 && |b| == 4 && |c| == 4 && |d| == 4 &&
      FourTermSum(d, c, b, a) != FourTermSum(a, b, c, d)
  {
    var a, b, c, d := [1.0, 0.0, 0.0, 0.0], [0.0, 1.0, 0.0, 0.0], [0.0, 0.0, 1.0, 0.0], [0.0, 0.0, 0.0, 1.0];
    assert FourTermSum(a, b, c, d) == 1.0;
    assert FourTermSum(d, c, b, a) == 0.0;
  }

  /** Reshape, unstack and four-term sum: feats[v] is the feature vector of
      vertex v (4*g entries) and the result has one entry per channel group. */
  function InvariantFeatures(feats: seq<seq<real>>, g: nat, layout: Layout): (r: seq<real>)
    requires |feats| == 4 && forall v :: 0 <= v < 4 ==> |feats[v]| == 4 * g
    ensures |r| == g
  {
    seq(g, i requires 0 <= i < g =>
      FourTermSum(Channels(feats[0], layout, g, i), Channels(feats[1], layout, g, i),
                  Channels(feats[2], layout, g, i), Channels(feats[3], layout, g, i)))
  }

  /** Rolling the per-vertex features leaves every group's four-term sum, and
      hence the whole invariant feature vector, unchanged. */
  lemma InvariantFeaturesRoll(feats: seq<seq<real>>, g: nat, layout: Layout, s: int)
    requires |feats| == 4 && forall v :: 0 <= v < 4 ==> |feats[v]| == 4 * g
    ensures |Roll(feats, s)| == 4 && forall v :: 0 <= v < 4 ==> |Roll(feats, s)[v]| == 4 * g
    ensures InvariantFeatures(Roll(feats, s), g, layout) == InvariantFeatures(feats, g, layout)
  {
    RollFour(feats, s);
    var lhs := InvariantFeatures(Roll(feats, s), g, layout);
    var rhs := InvariantFeatures(feats, g, layout);
    forall i | 0 <= i < g
      ensures lhs[i] == rhs[i]
    {
      var a, b, c, d := Channels(feats[0], layout, g, i), Channels(feats[1], layout, g, i),
                        Channels(feats[2], layout, g, i), Channels(feats[3], layout, g, i);
      FourTermSumRelabel(a, b, c, d);
      FourTermSumRelabel(b, c, d, a);
      FourTermSumRelabel(c, d, a, b);
    }
  }
}
