/** `groupAvereaging`: a network is evaluated on the four cyclic rotations of
    a quadrilateral's vertex order and the four outputs are averaged.  The
    definition is shared by the area models and the two-quadrilateral models. */
module GroupAveraging {
  import opened Cyclic
  import opened RealSeqs

  /** A layer stack with a fixed output width, as every Keras model here has:
      the network is otherwise opaque. */
  ghost predicate HasWidth<A(!new)>(f: A -> seq<real>, w: nat)
  {
    forall a :: |f(a)| == w
  }

  /** A network built for inputs of n vertices: defined on every such input,
      with output width w. */
  ghost predicate HasWidthOn<V(!new)>(op: seq<V> --> seq<real>, n: nat, w: nat)
  {
    forall ys: seq<V> :: |ys| == n ==> op.requires(ys) && |op(ys)| == w
  }

  /** The four network outputs that are stacked: on the input itself and on its
      rolls by 1, 2 and 3 positions along the vertex axis. */
  function RollOutputs<V(!new)>(xs: seq<V>, op: seq<V> --> seq<real>): seq<seq<real>>
    requires forall ys: seq<V> :: |ys| == |xs| ==> op.requires(ys)
  {
    [op(xs), op(Roll(xs, 1)), op(Roll(xs, 2)), op(Roll(xs, 3))]
  }

  /** groupAvereaging(inputs, operation): the entry-wise mean of the stacked
      outputs of `op` on the four rolls of the input. */
  function GroupAverage<V(!new)>(xs: seq<V>, op: seq<V> --> seq<real>, w: nat): (r: seq<real>)
    requires HasWidthOn(op, |xs|, w)
    ensures |r| == w
    ensures forall j :: 0 <= j < w ==>
      r[j] == (op(xs)[j] + op(Roll(xs, 1))[j] + op(Roll(xs, 2))[j] + op(Roll(xs, 3))[j]) / 4.0
  {
    var vs := RollOutputs(xs, op);
    assert forall j :: 0 <= j < w ==>
      MeanOfStack(vs, w)[j] == (vs[0][j] + vs[1][j] + vs[2][j] + vs[3][j]) / 4.0 by {
      forall j | 0 <= j < w {
        MeanOfFour(vs, w, j);
      }
    }
    MeanOfStack(vs, w)
  }

  /** On four vertices, rolling a roll lands on one of the four base rolls. */
  lemma RollOfRollFour<V>(xs: seq<V>, s: int, k: int)
    requires |xs| == 4
    ensures Roll(Roll(xs, s), k) == Roll(xs, (s % 4 + k) % 4)
  {
    RollRoll(xs, s, k);
    RollMod(xs, s + k);
    ModSubReduced(s, -k, 4);
  }

  /** Rotating the vertex order of a quadrilateral never changes the group
      average, whatever the network: the four rolls form the whole cyclic
      group of order 4, so rotating the input only reorders the four terms. */
  lemma GroupAverageRollInvariant<V(!new)>(xs: seq<V>, op: seq<V> --> seq<real>, w: nat, s: int)
    requires |xs| == 4 && HasWidthOn(op, 4, w)
    ensures GroupAverage(Roll(xs, s), op, w) == GroupAverage(xs, op, w)
  {
    var ys := Roll(xs, s);
    var t := s % 4;
    RollZero(xs);
    RollZero(ys);
    RollOfRollFour(xs, s, 0);
    RollOfRollFour(xs, s, 1);
    RollOfRollFour(xs, s, 2);
    RollOfRollFour(xs, s, 3);
    var lhs := GroupAverage(ys, op, w);
    var rhs := GroupAverage(xs, op, w);
    forall j | 0 <= j < w
      ensures lhs[j] == rhs[j]
    {
      var a0, a1, a2, a3 := op(xs)[j], op(Roll(xs, 1))[j], op(Roll(xs, 2))[j], op(Roll(xs, 3))[j];
      if t == 0 {
        assert lhs[j] == (a0 + a1 + a2 + a3) / 4.0;
      } else if t == 1 {
        assert lhs[j] == (a1 + a2 + a3 + a0) / 4.0;
      } else if t == 2 {
        assert lhs[j] == (a2 + a3 + a0 + a1) / 4.0;
      } else {
        assert lhs[j] == (a3 + a0 + a1 + a2) / 4.0;
      }
    }
  }

  /** Averaging is a projection: a network that is already invariant on the
      rolls of the input comes out unchanged. */
  lemma GroupAverageOfInvariant<V(!new)>(xs: seq<V>, op: seq<V> --> seq<real>, w: nat)
    requires HasWidthOn(op, |xs|, w)
    requires forall k :: 1 <= k < 4 ==> op(Roll(xs, k)) == op(xs)
    ensures GroupAverage(xs, op, w) == op(xs)
  {
    var r := GroupAverage(xs, op, w);
    forall j | 0 <= j < w
      ensures r[j] == op(xs)[j]
    {
      assert op(Roll(xs, 1)) == op(xs) && op(Roll(xs, 2)) == op(xs) && op(Roll(xs, 3)) == op(xs);
    }
  }

  /** Averaging twice is averaging once. */
  lemma GroupAverageIdempotent<V(!new)>(xs: seq<V>, op: seq<V> --> seq<real>, w: nat)
    requires |xs| == 4 && HasWidthOn(op, 4, w)
    ensures HasWidthOn((ys: seq<V>) requires |ys| == 4 => GroupAverage(ys, op, w), 4, w)
    ensures GroupAverage(xs, (ys: seq<V>) requires |ys| == 4 => GroupAverage(ys, op, w), w)
      == GroupAverage(xs, op, w)
  {
    var avg := (ys: seq<V>) requires |ys| == 4 => GroupAverage(ys, op, w);
    forall k | 1 <= k < 4
      ensures avg(Roll(xs, k)) == avg(xs)
    {
      GroupAverageRollInvariant(xs, op, w, k);
    }
    GroupAverageOfInvariant(xs, avg, w);
  }
}
