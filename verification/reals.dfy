/** Sums, products and element-wise vector operations over `real`, standing in
    for `tf.reduce_sum`, `tf.reduce_mean`, `np.prod` and tensor addition.
    Arithmetic is exact: floating-point rounding is not modelled. */
module RealSeqs {
  import opened Cyclic

  function Sum(xs: seq<real>): real
  {
    if |xs| == 0 then 0.0 else xs[0] + Sum(xs[1..])
  }

  function Prod(xs: seq<real>): real
  {
    if |xs| == 0 then 1.0 else xs[0] * Prod(xs[1..])
  }

  lemma {:induction false} SumRemoveAt(xs: seq<real>, i: nat)
    requires i < |xs|
    ensures Sum(xs) == xs[i] + Sum(RemoveAt(xs, i))
  {
    if i > 0 {
      SumRemoveAt(xs[1..], i - 1);
      assert RemoveAt(xs, i) == [xs[0]] + RemoveAt(xs[1..], i - 1);
    } else {
      assert RemoveAt(xs, 0) == xs[1..];
    }
  }

  lemma {:induction false} ProdRemoveAt(xs: seq<real>, i: nat)
    requires i < |xs|
    ensures Prod(xs) == xs[i] * Prod(RemoveAt(xs, i))
  {
    if i > 0 {
      var r := RemoveAt(xs[1..], i - 1);
      ProdRemoveAt(xs[1..], i - 1);
      assert RemoveAt(xs, i) == [xs[0]] + r;
      assert ([xs[0]] + r)[1..] == r;
      ProdSwapFront(xs[0], xs[i], Prod(xs[1..]), Prod(r), Prod(xs), Prod(RemoveAt(xs, i)));
    } else {
      assert RemoveAt(xs, 0) == xs[1..];
    }
  }

  /** The arithmetic step of `ProdRemoveAt`, kept apart from the sequences. */
  lemma ProdSwapFront(a: real, b: real, tail: real, p: real, whole: real, rest: real)
    requires tail == b * p && whole == a * tail && rest == a * p
    ensures whole == b * rest
  {
    MulSwap(a, b, p);
  }

  lemma MulSwap(a: real, b: real, c: real)
    ensures a * (b * c) == b * (a * c)
  {
  }

  /** Summation order does not matter: two rearrangements of the same terms
      have the same sum. */
  lemma {:induction false} SumPermutation(a: seq<real>, b: seq<real>)
    requires multiset(a) == multiset(b)
    ensures Sum(a) == Sum(b)
    decreases |a|
  {
    if |a| > 0 {
      var i := RemoveMatching(a, b);
      var r := RemoveAt(b, i);
      SumRemoveAt(b, i);
      SumPermutation(a[1..], r);
    } else {
      assert |b| == |multiset(b)| == 0;
    }
  }

  /** Multiplication order does not matter either. */
  lemma {:induction false} ProdPermutation(a: seq<real>, b: seq<real>)
    requires multiset(a) == multiset(b)
    ensures Prod(a) == Prod(b)
    decreases |a|
  {
    if |a| > 0 {
      var i := RemoveMatching(a, b);
      var r := RemoveAt(b, i);
      ProdRemoveAt(b, i);
      ProdPermutation(a[1..], r);
    } else {
      assert |b| == |multiset(b)| == 0;
    }
  }

  lemma {:induction false} SumConcat(a: seq<real>, b: seq<real>)
    ensures Sum(a + b) == Sum(a) + Sum(b)
  {
    if |a| > 0 {
      assert (a + b)[1..] == a[1..] + b;
      SumConcat(a[1..], b);
    } else {
      assert a + b == b;
    }
  }

  /** A sum whose terms are all zero but one is that term. */
  lemma {:induction false} SumOneNonZero(xs: seq<real>, i: nat)
    requires i < |xs|
    requires forall j :: 0 <= j < |xs| && j != i ==> xs[j] == 0.0
    ensures Sum(xs) == xs[i]
  {
    if i > 0 {
      SumOneNonZero(xs[1..], i - 1);
    } else {
      SumZero(xs[1..]);
    }
  }

  lemma {:induction false} SumZero(xs: seq<real>)
    requires forall j :: 0 <= j < |xs| ==> xs[j] == 0.0
    ensures Sum(xs) == 0.0
  {
    if |xs| > 0 {
      SumZero(xs[1..]);
    }
  }

  /** A sum of k copies of one value is k times that value. */
  lemma {:induction false} SumConstant(xs: seq<real>, v: real)
    requires forall i :: 0 <= i < |xs| ==> xs[i] == v
    ensures Sum(xs) == |xs| as real * v
  {
    if |xs| > 0 {
      SumConstant(xs[1..], v);
    }
  }

  /** Element-wise sum of two vectors of the same width (tensor `+`). */
  function AddVec(u: seq<real>, v: seq<real>): (r: seq<real>)
    requires |u| == |v|
    ensures |r| == |u|
    ensures forall j :: 0 <= j < |u| ==> r[j] == u[j] + v[j]
  {
    if |u| == 0 then [] else [u[0] + v[0]] + AddVec(u[1..], v[1..])
  }

  /** `s1 + s2 + s3 + s4` on four equally wide vectors, added left to right. */
  function AddFour(a: seq<real>, b: seq<real>, c: seq<real>, d: seq<real>): (r: seq<real>)
    requires |a| == |b| == |c| == |d|
    ensures |r| == |a|
  {
    AddVec(AddVec(AddVec(a, b), c), d)
  }

  /** The sum of four vectors is the same whichever of them is added first. */
  lemma AddFourRotate(a: seq<real>, b: seq<real>, c: seq<real>, d: seq<real>)
    requires |a| == |b| == |c| == |d|
    ensures AddFour(b, c, d, a) == AddFour(a, b, c, d)
  {
    var l, r := AddFour(b, c, d, a), AddFour(a, b, c, d);
    forall j | 0 <= j < |a|
      ensures l[j] == r[j]
    {
      assert l[j] == b[j] + c[j] + d[j] + a[j];
      assert r[j] == a[j] + b[j] + c[j] + d[j];
    }
  }

  /** `tf.concat(vs, axis=-1)`, or a reshape that merges the vertex axis into
      the feature axis: the vectors laid end to end. */
  function Concat<T>(vs: seq<seq<T>>): seq<T>
  {
    if |vs| == 0 then [] else vs[0] + Concat(vs[1..])
  }

  /** Four vectors laid end to end. */
  lemma ConcatFour<T>(vs: seq<seq<T>>)
    requires |vs| == 4
    ensures Concat(vs) == vs[0] + vs[1] + vs[2] + vs[3]
  {
    assert Concat(vs[3..]) == vs[3] + Concat(vs[4..]);
    assert Concat(vs[2..]) == vs[2] + Concat(vs[3..]);
    assert Concat(vs[1..]) == vs[1] + Concat(vs[2..]);
  }

  /** Vectors of one width w laid end to end: n of them make n * w entries. */
  lemma {:induction false} ConcatLength<T>(vs: seq<seq<T>>, w: nat)
    requires forall k :: 0 <= k < |vs| ==> |vs[k]| == w
    ensures |Concat(vs)| == |vs| * w
  {
    if |vs| > 0 {
      ConcatLength(vs[1..], w);
      assert |vs| * w == w + (|vs| - 1) * w;
    }
  }

  /** Entry j of the i-th of equally wide vectors lands at position i * w + j. */
  lemma {:induction false} ConcatBlocks<T>(vs: seq<seq<T>>, w: nat, i: nat, j: nat)
    requires forall k :: 0 <= k < |vs| ==> |vs[k]| == w
    requires i < |vs| && j < w
    ensures i * w + j < |Concat(vs)|
    ensures Concat(vs)[i * w + j] == vs[i][j]
  {
    ConcatLength(vs, w);
    MulAtMost(i, |vs|, w);
    if i > 0 {
      ConcatBlocks(vs[1..], w, i - 1, j);
      assert i * w + j == w + ((i - 1) * w + j);
    }
  }

  lemma MulAtMost(i: nat, n: nat, w: nat)
    requires i < n
    ensures i * w + w <= n * w
  {
    var d := n - i - 1;
    assert n == i + 1 + d;
    assert n * w == i * w + w + d * w;
  }

  /** Entry j of every vector of a stack. */
  function Column(vs: seq<seq<real>>, j: nat): (r: seq<real>)
    requires forall k :: 0 <= k < |vs| ==> j < |vs[k]|
    ensures |r| == |vs|
    ensures forall k :: 0 <= k < |vs| ==> r[k] == vs[k][j]
  {
    if |vs| == 0 then [] else [vs[0][j]] + Column(vs[1..], j)
  }

  /** `tf.reduce_mean(tf.stack(vs, -1), -1)`: the stack of equally wide vectors
      reduced to the entry-wise mean. */
  function MeanOfStack(vs: seq<seq<real>>, w: nat): (r: seq<real>)
    requires |vs| > 0
    requires forall k :: 0 <= k < |vs| ==> |vs[k]| == w
    ensures |r| == w
  {
    seq(w, j requires 0 <= j < w => Sum(Column(vs, j)) / (|vs| as real))
  }

  /** The mean of a stack of four vectors, entry by entry. */
  lemma MeanOfFour(vs: seq<seq<real>>, w: nat, j: nat)
    requires |vs| == 4 && j < w
    requires forall k :: 0 <= k < |vs| ==> |vs[k]| == w
    ensures MeanOfStack(vs, w)[j] == (vs[0][j] + vs[1][j] + vs[2][j] + vs[3][j]) / 4.0
  {
    var c := Column(vs, j);
    assert c == [vs[0][j], vs[1][j], vs[2][j], vs[3][j]];
    assert Sum(c[3..]) == vs[3][j];
    assert Sum(c[2..]) == vs[2][j] + vs[3][j];
    assert Sum(c[1..]) == vs[1][j] + vs[2][j] + vs[3][j];
  }
}
