/** The single-quadrilateral models of models/area4.py.  Every Keras layer
    stack is an opaque function parameter; what is modelled is how each
    architecture wires the four vertices into those stacks, and therefore
    which of them are unchanged when the vertex list is rotated. */
module Area4 {
  import opened Cyclic
  import opened RealSeqs
  import opened GroupAveraging
  import opened FourTerm
  import opened Conv
  import opened Quads

  /** `GroupInvariance`: the last feature layer has 4 * 64 units, so 64
      channel groups. */
  const InvarianceGroups: nat := 64

  /** `GroupInvarianceConv.last_n` and `Conv1d.last_n`. */
  const ConvLastN: nat := 128

  // ---------------------------------------------------------------- SimpleNet

  /** `SimpleNet.process`: the quadrilateral reshaped to (x0, y0, ..., x3, y3)
      and fed to the dense stack. */
  function SimpleProcess(mlp: seq<real> -> seq<real>, q: seq<Point>): seq<real>
  {
    mlp(Flatten(q))
  }

  /** `SimpleNet.call`: the dense stack averaged over the four vertex rolls. */
  function SimpleNetCall(mlp: seq<real> -> seq<real>, w: nat, q: seq<Point>): (r: seq<real>)
    requires |q| == 4 && HasWidth(mlp, w)
    ensures |r| == w
  {
    var op := (p: seq<Point>) => SimpleProcess(mlp, p);
    assert HasWidthOn(op, 4, w);
    GroupAverage(q, op, w)
  }

  /** Rotating the vertices never changes `SimpleNet`'s output, whatever the
      weights. */
  lemma SimpleNetRollInvariant(mlp: seq<real> -> seq<real>, w: nat, q: seq<Point>, s: int)
    requires |q| == 4 && HasWidth(mlp, w)
    ensures SimpleNetCall(mlp, w, Roll(q, s)) == SimpleNetCall(mlp, w, q)
  {
    var op := (p: seq<Point>) => SimpleProcess(mlp, p);
    assert HasWidthOn(op, 4, w);
    GroupAverageRollInvariant(q, op, w, s);
  }

  /** Seen on the flattened eight-vector f, `SimpleNet` averages the stack
      over the rolls of f by 0, 2, 4 and 6 positions: whole vertices move. */
  lemma SimpleNetFlatRolls(mlp: seq<real> -> seq<real>, w: nat, q: seq<Point>, j: nat)
    requires |q| == 4 && HasWidth(mlp, w) && j < w
    ensures SimpleNetCall(mlp, w, q)[j]
      == (mlp(Flatten(q))[j] + mlp(Roll(Flatten(q), 2))[j]
          + mlp(Roll(Flatten(q), 4))[j] + mlp(Roll(Flatten(q), 6))[j]) / 4.0
  {
    RollZero(q);
    FlattenRoll(q, 1);
    FlattenRoll(q, 2);
    FlattenRoll(q, 3);
  }

  // ------------------------------------------------------------------- Conv1d

  /** The per-vertex features of `Conv1d.process`: circular padding, then a
      width-3 convolution and a width-1 convolution, so vertex i's features
      depend on the window (q[i-1], q[i], q[i+1]). */
  function ConvFeatures(k: Window<Point> -> seq<real>, q: seq<Point>): (r: seq<seq<real>>)
    requires |q| == 4
    ensures |r| == 4
    ensures forall v :: 0 <= v < 4 ==> r[v] == k(Window(q[(v - 1) % 4], q[v], q[(v + 1) % 4]))
  {
    CircularConvWindows(q, k);
    CircularConv(q, k)
  }

  /** `Conv1d.process`: the features of the four vertices reshaped into one
      vector, vertex by vertex, and fed to the dense head. */
  function ConvProcess(k: Window<Point> -> seq<real>, head: seq<real> -> seq<real>, q: seq<Point>): seq<real>
    requires |q| == 4
  {
    head(Concat(ConvFeatures(k, q)))
  }

  /** `Conv1d.call`: `process` averaged over the four vertex rolls. */
  function ConvNetCall(k: Window<Point> -> seq<real>, head: seq<real> -> seq<real>, w: nat, q: seq<Point>): (r: seq<real>)
    requires |q| == 4 && HasWidth(head, w)
    ensures |r| == w
  {
    var op := (p: seq<Point>) requires |p| == 4 => ConvProcess(k, head, p);
    assert HasWidthOn(op, 4, w);
    GroupAverage(q, op, w)
  }

  /** Rotating the vertices rotates the per-vertex convolution features. */
  lemma ConvFeaturesEquivariant(k: Window<Point> -> seq<real>, q: seq<Point>, s: int)
    requires |q| == 4
    ensures ConvFeatures(k, Roll(q, s)) == Roll(ConvFeatures(k, q), s)
  {
    CircularConvEquivariant(q, k, s);
  }

  /** Rotating the vertices never changes `Conv1d`'s output. */
  lemma ConvNetRollInvariant(k: Window<Point> -> seq<real>, head: seq<real> -> seq<real>, w: nat,
                             q: seq<Point>, s: int)
    requires |q| == 4 && HasWidth(head, w)
    ensures ConvNetCall(k, head, w, Roll(q, s)) == ConvNetCall(k, head, w, q)
  {
    var op := (p: seq<Point>) requires |p| == 4 => ConvProcess(k, head, p);
    assert HasWidthOn(op, 4, w);
    GroupAverageRollInvariant(q, op, w, s);
  }

  /** A window network that reports the x coordinate of the window's centre. */
  const CentreX: Window<Point> -> seq<real> := (win: Window<Point>) => [win.mid.x]

  /** A head that reports the first entry of its input. */
  const FirstEntry: seq<real> -> seq<real> := (v: seq<real>) => [if |v| == 0 then 0.0 else v[0]]

  /** Without the averaging, `process` alone is not invariant: the head sees
      the vertices in a fixed order.  With the networks above, any
      quadrilateral whose first and last vertices differ in x changes output
      when rotated by one vertex. */
  lemma ConvProcessNotInvariant(q: seq<Point>)
    requires |q| == 4 && q[0].x != q[3].x
    ensures ConvProcess(CentreX, FirstEntry, Roll(q, 1)) != ConvProcess(CentreX, FirstEntry, q)
  {
    RollFour(q, 1);
    var r := Roll(q, 1);
    CircularConvFour(q, CentreX);
    CircularConvFour(r, CentreX);
    ConcatFour(ConvFeatures(CentreX, q));
    ConcatFour(ConvFeatures(CentreX, r));
    assert ConvProcess(CentreX, FirstEntry, q) == [q[0].x];
    assert ConvProcess(CentreX, FirstEntry, r) == [q[3].x];
  }

  // --------------------------------------------------------- GroupInvariance

  /** The channel groups `GroupInvariance` forms: reshaping a vertex's 4*g
      features to (g, 4) makes group i the four consecutive features
      4i .. 4i+3. */
  lemma GroupMajorChannels(f: seq<real>, g: nat, i: nat)
    requires |f| == 4 * g && i < g
    ensures Channels(f, GroupMajor, g, i) == f[4 * i .. 4 * i + 4]
  {
  }

  /** The channel groups `GroupInvarianceConv` forms: reshaping to (4, g)
      makes group i the features i, g + i, 2g + i and 3g + i, one from each
      quarter of the vector. */
  lemma ChannelMajorChannels(f: seq<real>, g: nat, i: nat)
    requires |f| == 4 * g && i < g
    ensures Channels(f, ChannelMajor, g, i) == [f[i], f[g + i], f[2 * g + i], f[3 * g + i]]
  {
  }

  /** `GroupInvariance.call`: the dense feature stack applied to every vertex,
      the four-term sum per channel group, then the dense head.  g is 64 here
      and `num_features` in models/two_quads.py. */
  function GroupInvarianceCall(feat: Point -> seq<real>, g: nat, head: seq<real> -> seq<real>,
                               q: seq<Point>): seq<real>
    requires |q| == 4 && HasWidth(feat, 4 * g)
  {
    head(InvariantFeatures(MapSeq(feat, q), g, GroupMajor))
  }

  /** Rotating the vertices never changes `GroupInvariance`'s output: the
      four-term sum is unchanged under the cyclic relabelling and the
      feature stack is shared by all vertices. */
  lemma GroupInvarianceRollInvariant(feat: Point -> seq<real>, g: nat, head: seq<real> -> seq<real>,
                                     q: seq<Point>, s: int)
    requires |q| == 4 && HasWidth(feat, 4 * g)
    ensures GroupInvarianceCall(feat, g, head, Roll(q, s)) == GroupInvarianceCall(feat, g, head, q)
  {
    MapRoll(feat, q, s);
    InvariantFeaturesRoll(MapSeq(feat, q), g, GroupMajor, s);
  }

  // ----------------------------------------------------- GroupInvarianceConv

  /** `GroupInvarianceConv.call`: circular padding and the convolution stack
      give 4 * lastN features per vertex, reshaped to (4, lastN); the
      four-term sum runs over each of the lastN channel groups, then the
      dense head.  lastN is 128 here and 88 in models/two_quads.py. */
  function GroupInvarianceConvCall(k: Window<Point> -> seq<real>, lastN: nat, head: seq<real> -> seq<real>,
                                   q: seq<Point>): seq<real>
    requires |q| == 4 && HasWidth(k, 4 * lastN)
  {
    head(InvariantFeatures(ConvFeatures(k, q), lastN, ChannelMajor))
  }

  /** Rotating the vertices never changes `GroupInvarianceConv`'s output:
      the features rotate with the vertices and the four-term sum ignores
      the rotation. */
  lemma GroupInvarianceConvRollInvariant(k: Window<Point> -> seq<real>, lastN: nat,
                                         head: seq<real> -> seq<real>, q: seq<Point>, s: int)
    requires |q| == 4 && HasWidth(k, 4 * lastN)
    ensures GroupInvarianceConvCall(k, lastN, head, Roll(q, s)) == GroupInvarianceConvCall(k, lastN, head, q)
  {
    ConvFeaturesEquivariant(k, q, s);
    InvariantFeaturesRoll(ConvFeatures(k, q), lastN, ChannelMajor, s);
  }

  // --------------------------------------------------------------- SegmentNet

  /** `tf.concat([quad[:, i], quad[:, j]], axis=-1)`: one directed edge. */
  function Segment(p: Point, p': Point): seq<real>
  {
    [p.x, p.y, p'.x, p'.y]
  }

  /** `SegmentNet.process` (its `call`): the shared segment stack applied to
      the four edges q0q1, q1q2, q2q3, q3q0, the results added, then the
      dense head.  No group averaging is involved. */
  function SegmentNetCall(seg: seq<real> -> seq<real>, w: nat, head: seq<real> -> seq<real>,
                          q: seq<Point>): seq<real>
    requires |q| == 4 && HasWidth(seg, w)
  {
    head(AddFour(seg(Segment(q[0], q[1])), seg(Segment(q[1], q[2])),
                 seg(Segment(q[2], q[3])), seg(Segment(q[3], q[0]))))
  }

  /** Rotating the vertices only permutes the four edges, so `SegmentNet` is
      invariant on its own. */
  lemma SegmentNetRollInvariant(seg: seq<real> -> seq<real>, w: nat, head: seq<real> -> seq<real>,
                                q: seq<Point>, s: int)
    requires |q| == 4 && HasWidth(seg, w)
    ensures SegmentNetCall(seg, w, head, Roll(q, s)) == SegmentNetCall(seg, w, head, q)
  {
    RollFour(q, s);
    var e0, e1, e2, e3 := seg(Segment(q[0], q[1])), seg(Segment(q[1], q[2])),
                          seg(Segment(q[2], q[3])), seg(Segment(q[3], q[0]));
    AddFourRotate(e0, e1, e2, e3);
    AddFourRotate(e1, e2, e3, e0);
    AddFourRotate(e2, e3, e0, e1);
  }

  // ----------------------------------------------------------- MessagePassing

  /** The four layer stacks of `MessagePassing`: per-vertex features, the
      message network M, the update network U and the readout R. */
  datatype MessageLayers = MessageLayers(
    feat: Point -> seq<real>,
    message: seq<real> -> seq<real>,
    update: seq<real> -> seq<real>,
    readout: seq<real> -> seq<real>)

  /** One round of the loop body: vertex v receives the message
      M(U[v-1] ++ U[v]) from its predecessor and is updated to
      U(message ++ U[v] ++ raw[v]). */
  function UpdateRound(layers: MessageLayers, us: seq<seq<real>>, raw: seq<seq<real>>): (r: seq<seq<real>>)
    requires |us| == 4 && |raw| == 4
    ensures |r| == 4
  {
    var mab := layers.message(us[0] + us[1]);
    var mbc := layers.message(us[1] + us[2]);
    var mcd := layers.message(us[2] + us[3]);
    var mda := layers.message(us[3] + us[0]);
    [layers.update(mda + us[0] + raw[0]), layers.update(mab + us[1] + raw[1]),
     layers.update(mbc + us[2] + raw[2]), layers.update(mcd + us[3] + raw[3])]
  }

  /** `for i in range(rounds)` over `UpdateRound`. */
  function Rounds(layers: MessageLayers, us: seq<seq<real>>, raw: seq<seq<real>>, rounds: nat): (r: seq<seq<real>>)
    requires |us| == 4 && |raw| == 4
    ensures |r| == 4
    decreases rounds
  {
    if rounds == 0 then us else Rounds(layers, UpdateRound(layers, us, raw), raw, rounds - 1)
  }

  /** The vertex states after the source's single round. */
  function MessagePassingStates(layers: MessageLayers, q: seq<Point>): (r: seq<seq<real>>)
    requires |q| == 4
    ensures |r| == 4
  {
    var raw := MapSeq(layers.feat, q);
    Rounds(layers, raw, raw, 1)
  }

  /** `MessagePassing.call`: the readout of the four states concatenated in
      vertex order. */
  function MessagePassingCall(layers: MessageLayers, q: seq<Point>): seq<real>
    requires |q| == 4
  {
    layers.readout(Concat(MessagePassingStates(layers, q)))
  }

  /** One round is rotation-equivariant: rotated states and inputs give the
      rotated new states. */
  lemma UpdateRoundEquivariant(layers: MessageLayers, us: seq<seq<real>>, raw: seq<seq<real>>, s: int)
    requires |us| == 4 && |raw| == 4
    ensures UpdateRound(layers, Roll(us, s), Roll(raw, s)) == Roll(UpdateRound(layers, us, raw), s)
  {
    RollFour(us, s);
    RollFour(raw, s);
    RollFour(UpdateRound(layers, us, raw), s);
  }

  /** One round first, then the rest. */
  lemma RoundsStep(layers: MessageLayers, us: seq<seq<real>>, raw: seq<seq<real>>, rounds: nat)
    requires |us| == 4 && |raw| == 4 && rounds > 0
    ensures Rounds(layers, us, raw, rounds) == Rounds(layers, UpdateRound(layers, us, raw), raw, rounds - 1)
  {
  }

  /** Any number of rounds is rotation-equivariant. */
  lemma {:induction false} RoundsEquivariant(layers: MessageLayers, us: seq<seq<real>>, raw: seq<seq<real>>,
                                             rounds: nat, s: int)
    requires |us| == 4 && |raw| == 4
    ensures Rounds(layers, Roll(us, s), Roll(raw, s), rounds) == Roll(Rounds(layers, us, raw, rounds), s)
    decreases rounds
  {
    if rounds > 0 {
      var next := UpdateRound(layers, us, raw);
      calc {
        Rounds(layers, Roll(us, s), Roll(raw, s), rounds);
        { RoundsStep(layers, Roll(us, s), Roll(raw, s), rounds); }
        Rounds(layers, UpdateRound(layers, Roll(us, s), Roll(raw, s)), Roll(raw, s), rounds - 1);
        { UpdateRoundEquivariant(layers, us, raw, s); }
        Rounds(layers, Roll(next, s), Roll(raw, s), rounds - 1);
        { RoundsEquivariant(layers, next, raw, rounds - 1, s); }
        Roll(Rounds(layers, next, raw, rounds - 1), s);
        { RoundsStep(layers, us, raw, rounds); }
        Roll(Rounds(layers, us, raw, rounds), s);
      }
    }
  }

  /** Rotating the input vertices rotates the vertex states of
      `MessagePassing`. */
  lemma MessagePassingEquivariant(layers: MessageLayers, q: seq<Point>, s: int)
    requires |q| == 4
    ensures MessagePassingStates(layers, Roll(q, s)) == Roll(MessagePassingStates(layers, q), s)
  {
    MapRoll(layers.feat, q, s);
    RoundsEquivariant(layers, MapSeq(layers.feat, q), MapSeq(layers.feat, q), 1, s);
  }

  /** Layers under which a vertex's state is its own x coordinate and the
      readout reports vertex 0's state. */
  const ProbeLayers: MessageLayers := MessageLayers(
    (p: Point) => [p.x],
    (v: seq<real>) => v,
    (v: seq<real>) => if |v| == 0 then [] else [v[|v| - 1]],
    FirstEntry)

  /** The concatenating readout breaks the symmetry: under `ProbeLayers` any
      quadrilateral whose first and last vertices differ in x changes output
      when rotated by one vertex. */
  lemma MessagePassingNotInvariant(q: seq<Point>)
    requires |q| == 4 && q[0].x != q[3].x
    ensures MessagePassingCall(ProbeLayers, Roll(q, 1)) != MessagePassingCall(ProbeLayers, q)
  {
    RollFour(q, 1);
    var r := Roll(q, 1);
    var rawq, rawr := MapSeq(ProbeLayers.feat, q), MapSeq(ProbeLayers.feat, r);
    var sq, sr := MessagePassingStates(ProbeLayers, q), MessagePassingStates(ProbeLayers, r);
    assert sq == UpdateRound(ProbeLayers, rawq, rawq);
    assert sr == UpdateRound(ProbeLayers, rawr, rawr);
    assert sq[0] == [q[0].x];
    assert sr[0] == [q[3].x];
    ConcatFour(sq);
    ConcatFour(sr);
  }

  // -------------------------------------------------------------------- Maron

  /** What `inv` returns: one value per exponent-table row, and the
      approximation loss of the product network. */
  datatype InvOut = InvOut(value: seq<real>, loss: real)

  /** `inv` of a fixed model has one value per row of its exponent table. */
  ghost predicate InvHasWidth(inv: seq<real> -> InvOut, w: nat)
  {
    forall v :: |inv(v).value| == w
  }

  /** `Maron.call`'s `term`: the coordinates are transposed so that a..d are
      the x and e..h the y coordinates of vertices 0..3, and `inv` is summed
      over the four joint cyclic shifts, value and loss alike. */
  function MaronTerm(inv: seq<real> -> InvOut, w: nat, q: seq<Point>): (r: InvOut)
    requires |q| == 4 && InvHasWidth(inv, w)
    ensures |r.value| == w
  {
    ShiftSum(inv, w, Xs(q), Ys(q))
  }

  /** The body of `term` on a..d = xs and e..h = ys: `inv` on the joint rolls
      of the two coordinate vectors by 0, 1, 2 and 3 (`ShiftSumArguments`
      spells the four argument lists out as the source writes them). */
  function ShiftSum(inv: seq<real> -> InvOut, w: nat, xs: seq<real>, ys: seq<real>): (r: InvOut)
    requires |xs| == 4 && |ys| == 4 && InvHasWidth(inv, w)
    ensures |r.value| == w
  {
    AddOuts(JointTerm(inv, xs, ys, 0), JointTerm(inv, xs, ys, 1),
            JointTerm(inv, xs, ys, 2), JointTerm(inv, xs, ys, 3))
  }

  /** The four argument lists of `term` are the joint rolls by 0, 1, 2 and 3
      of the x and y coordinate vectors. */
  lemma ShiftSumArguments(xs: seq<real>, ys: seq<real>)
    requires |xs| == 4 && |ys| == 4
    ensures Roll(xs, 0) + Roll(ys, 0) == [xs[0], xs[1], xs[2], xs[3], ys[0], ys[1], ys[2], ys[3]]
    ensures Roll(xs, 1) + Roll(ys, 1) == [xs[3], xs[0], xs[1], xs[2], ys[3], ys[0], ys[1], ys[2]]
    ensures Roll(xs, 2) + Roll(ys, 2) == [xs[2], xs[3], xs[0], xs[1], ys[2], ys[3], ys[0], ys[1]]
    ensures Roll(xs, 3) + Roll(ys, 3) == [xs[1], xs[2], xs[3], xs[0], ys[1], ys[2], ys[3], ys[0]]
  {
    RollFour(xs, 0);
    RollFour(ys, 0);
    RollFour(xs, 1);
    RollFour(ys, 1);
    RollFour(xs, 2);
    RollFour(ys, 2);
    RollFour(xs, 3);
    RollFour(ys, 3);
  }

  /** `inv` on the joint roll of the coordinate vectors by k. */
  function JointTerm(inv: seq<real> -> InvOut, xs: seq<real>, ys: seq<real>, k: int): InvOut
  {
    inv(Roll(xs, k) + Roll(ys, k))
  }

  /** Adding four `inv` results, value by value and loss by loss. */
  function AddOuts(t1: InvOut, t2: InvOut, t3: InvOut, t4: InvOut): (r: InvOut)
    requires |t1.value| == |t2.value| == |t3.value| == |t4.value|
    ensures r.loss == t1.loss + t2.loss + t3.loss + t4.loss
  {
    InvOut(AddFour(t1.value, t2.value, t3.value, t4.value), t1.loss + t2.loss + t3.loss + t4.loss)
  }

  /** `term` as the source writes it: `inv` on (a..h), (d, a, b, c, h, e, f, g),
      (c, d, a, b, g, h, e, f) and (b, c, d, a, f, g, h, e). */
  lemma ShiftSumLiteral(inv: seq<real> -> InvOut, w: nat, xs: seq<real>, ys: seq<real>)
    requires |xs| == 4 && |ys| == 4 && InvHasWidth(inv, w)
    ensures var a, b, c, d, e, f, g, h := xs[0], xs[1], xs[2], xs[3], ys[0], ys[1], ys[2], ys[3];
      ShiftSum(inv, w, xs, ys)
      == AddOuts(inv([a, b, c, d, e, f, g, h]), inv([d, a, b, c, h, e, f, g]),
                 inv([c, d, a, b, g, h, e, f]), inv([b, c, d, a, f, g, h, e]))
  {
    ShiftSumArguments(xs, ys);
  }

  /** Adding four results starting from the second gives the same sum. */
  lemma AddOutsRotate(t1: InvOut, t2: InvOut, t3: InvOut, t4: InvOut)
    requires |t1.value| == |t2.value| == |t3.value| == |t4.value|
    ensures AddOuts(t2, t3, t4, t1) == AddOuts(t1, t2, t3, t4)
  {
    AddFourRotate(t1.value, t2.value, t3.value, t4.value);
  }

  /** A joint roll of the coordinate vectors changes neither value nor loss. */
  lemma ShiftSumRollInvariant(inv: seq<real> -> InvOut, w: nat, xs: seq<real>, ys: seq<real>, s: int)
    requires |xs| == 4 && |ys| == 4 && InvHasWidth(inv, w)
    ensures ShiftSum(inv, w, Roll(xs, s), Roll(ys, s)) == ShiftSum(inv, w, xs, ys)
  {
    var t := s % 4;
    var rx, ry := Roll(xs, s), Roll(ys, s);
    var us := seq(4, k requires 0 <= k < 4 => JointTerm(inv, xs, ys, k));
    RolledJointTerms(inv, w, xs, ys, s);
    assert JointTerm(inv, rx, ry, 0) == us[t];
    assert JointTerm(inv, rx, ry, 1) == us[(t + 1) % 4];
    assert JointTerm(inv, rx, ry, 2) == us[(t + 2) % 4];
    assert JointTerm(inv, rx, ry, 3) == us[(t + 3) % 4];
    AddOutsShift(us, t);
  }

  /** The joint roll by k of inputs already rolled by s is the joint roll by
      (s mod 4 + k) mod 4 of the originals. */
  lemma RolledJointTerms(inv: seq<real> -> InvOut, w: nat, xs: seq<real>, ys: seq<real>, s: int)
    requires |xs| == 4 && |ys| == 4 && InvHasWidth(inv, w)
    ensures forall k :: 0 <= k < 4 ==>
      JointTerm(inv, Roll(xs, s), Roll(ys, s), k) == JointTerm(inv, xs, ys, (s % 4 + k) % 4)
  {
    forall k | 0 <= k < 4
      ensures JointTerm(inv, Roll(xs, s), Roll(ys, s), k) == JointTerm(inv, xs, ys, (s % 4 + k) % 4)
    {
      RollOfRollFour(xs, s, k);
      RollOfRollFour(ys, s, k);
    }
  }

  /** Adding four results starting from any of them gives the same sum. */
  lemma AddOutsShift(us: seq<InvOut>, t: int)
    requires |us| == 4 && 0 <= t < 4
    requires |us[0].value| == |us[1].value| == |us[2].value| == |us[3].value|
    ensures AddOuts(us[t], us[(t + 1) % 4], us[(t + 2) % 4], us[(t + 3) % 4])
         == AddOuts(us[0], us[1], us[2], us[3])
  {
    var a, b, c, d := us[0], us[1], us[2], us[3];
    if t == 0 {
      assert [us[t], us[(t + 1) % 4], us[(t + 2) % 4], us[(t + 3) % 4]] == [a, b, c, d];
    } else if t == 1 {
      assert [us[t], us[(t + 1) % 4], us[(t + 2) % 4], us[(t + 3) % 4]] == [b, c, d, a];
      AddOutsRotate(a, b, c, d);
    } else if t == 2 {
      assert [us[t], us[(t + 1) % 4], us[(t + 2) % 4], us[(t + 3) % 4]] == [c, d, a, b];
      AddOutsRotate(a, b, c, d);
      AddOutsRotate(b, c, d, a);
    } else {
      assert [us[t], us[(t + 1) % 4], us[(t + 2) % 4], us[(t + 3) % 4]] == [d, a, b, c];
      AddOutsRotate(d, a, b, c);
    }
  }

  /** Rotating the vertices changes neither the value nor the loss of
      `term`. */
  lemma MaronTermRollInvariant(inv: seq<real> -> InvOut, w: nat, q: seq<Point>, s: int)
    requires |q| == 4 && InvHasWidth(inv, w)
    ensures MaronTerm(inv, w, Roll(q, s)) == MaronTerm(inv, w, q)
  {
    XsYsRoll(q, s);
    ShiftSumRollInvariant(inv, w, Xs(q), Ys(q), s);
  }

  /** `Maron.call`: the dense stack applied to the summed values, returned
      with the summed loss. */
  function MaronCall(inv: seq<real> -> InvOut, w: nat, mlp: seq<real> -> seq<real>, q: seq<Point>): (r: InvOut)
    requires |q| == 4 && InvHasWidth(inv, w)
  {
    var t := MaronTerm(inv, w, q);
    InvOut(mlp(t.value), t.loss)
  }

  /** Hence `Maron` is rotation-invariant in both outputs. */
  lemma MaronRollInvariant(inv: seq<real> -> InvOut, w: nat, mlp: seq<real> -> seq<real>, q: seq<Point>, s: int)
    requires |q| == 4 && InvHasWidth(inv, w)
    ensures MaronCall(inv, w, mlp, Roll(q, s)) == MaronCall(inv, w, mlp, q)
  {
    MaronTermRollInvariant(inv, w, q, s);
  }
}
