/** The quadrilateral processors of models/two_quads.py and `InsideNet`,
    which compares two quadrilaterals.  `groupAvereaging`, `GroupInvariance`
    and the circular-padding convolution are the same constructions as in
    models/area4.py and are shared with that model. */
module TwoQuads {
  import opened Cyclic
  import opened RealSeqs
  import opened GroupAveraging
  import opened FourTerm
  import opened Conv
  import opened Quads
  import opened Area4

  /** `GroupInvarianceConv.last_n` in this file. */
  const InsideLastN: nat := 88

  // ------------------------------------------------------------------- Conv1d

  /** The convolution stack of this file's `Conv1d`: the first vertex repeated
      at the end (five positions), a width-3 'valid' convolution (three
      positions) and a second one (a single position). */
  function OneSidedFeatures<H>(k1: Window<Point> -> H, k2: Window<H> -> seq<real>, q: seq<Point>): (r: seq<seq<real>>)
    requires |q| == 4
    ensures |r| == 1
  {
    ValidConv3(ValidConv3(OneSidedPad(q), k1), k2)
  }

  /** The single position sees the three windows (q0, q1, q2), (q1, q2, q3)
      and (q2, q3, q0): the window (q3, q0, q1) is missing, so the stack is not
      symmetric in the vertices. */
  lemma OneSidedFeaturesWindows<H>(k1: Window<Point> -> H, k2: Window<H> -> seq<real>, q: seq<Point>)
    requires |q| == 4
    ensures OneSidedFeatures(k1, k2, q)
      == [k2(Window(k1(Window(q[0], q[1], q[2])), k1(Window(q[1], q[2], q[3])), k1(Window(q[2], q[3], q[0]))))]
  {
    var p := OneSidedPad(q);
    assert p == [q[0], q[1], q[2], q[3], q[0]];
  }

  /** `Conv1d.process`: the single position reshaped to `last_n` features and
      fed to the dense head. */
  function OneSidedProcess<H>(k1: Window<Point> -> H, k2: Window<H> -> seq<real>, head: seq<real> -> seq<real>,
                              q: seq<Point>): seq<real>
    requires |q| == 4
  {
    head(OneSidedFeatures(k1, k2, q)[0])
  }

  /** `Conv1d.call`: `process` averaged over the four vertex rolls. */
  function OneSidedNetCall<H>(k1: Window<Point> -> H, k2: Window<H> -> seq<real>, head: seq<real> -> seq<real>,
                              w: nat, q: seq<Point>): (r: seq<real>)
    requires |q| == 4 && HasWidth(head, w)
    ensures |r| == w
  {
    var op := (p: seq<Point>) requires |p| == 4 => OneSidedProcess(k1, k2, head, p);
    assert HasWidthOn(op, 4, w);
    GroupAverage(q, op, w)
  }

  /** The averaging alone makes `Conv1d` rotation-invariant. */
  lemma OneSidedNetRollInvariant<H>(k1: Window<Point> -> H, k2: Window<H> -> seq<real>,
                                    head: seq<real> -> seq<real>, w: nat, q: seq<Point>, s: int)
    requires |q| == 4 && HasWidth(head, w)
    ensures OneSidedNetCall(k1, k2, head, w, Roll(q, s)) == OneSidedNetCall(k1, k2, head, w, q)
  {
    var op := (p: seq<Point>) requires |p| == 4 => OneSidedProcess(k1, k2, head, p);
    assert HasWidthOn(op, 4, w);
    GroupAverageRollInvariant(q, op, w, s);
  }

  /** A window network that keeps the left input of its window. */
  const LeftX: Window<Point> -> real := (win: Window<Point>) => win.left.x

  /** A second layer that reports the left input of its window. */
  const LeftOf: Window<real> -> seq<real> := (win: Window<real>) => [win.left]

  /** `process` by itself is not invariant: under the networks above it reports
      x0, so any quadrilateral whose first and last vertices differ in x
      changes output when rotated by one vertex. */
  lemma OneSidedProcessNotInvariant(q: seq<Point>)
    requires |q| == 4 && q[0].x != q[3].x
    ensures OneSidedProcess(LeftX, LeftOf, FirstEntry, Roll(q, 1)) != OneSidedProcess(LeftX, LeftOf, FirstEntry, q)
  {
    RollFour(q, 1);
    OneSidedFeaturesWindows(LeftX, LeftOf, q);
    OneSidedFeaturesWindows(LeftX, LeftOf, Roll(q, 1));
  }

  // ------------------------------------------- GroupOperationResultAveraging

  /** `GroupOperationResultAveraging.call`: the quadrilateral flattened to the
      interleaved (x0, y0, ..., x3, y3), rolled by one entry three times in a
      row, the shared stack applied to each and the four outputs averaged. */
  function ResultAveragingCall(mlp: seq<real> -> seq<real>, w: nat, q: seq<Point>): (r: seq<real>)
    requires |q| == 4 && HasWidth(mlp, w)
    ensures |r| == w
  {
    var x1 := Flatten(q);
    var x2 := Roll(x1, 1);
    var x3 := Roll(x2, 1);
    var x4 := Roll(x3, 1);
    MeanOfStack([mlp(x1), mlp(x2), mlp(x3), mlp(x4)], w)
  }

  /** The model is `groupAvereaging` applied to the flat eight-vector: it
      averages over flat rolls by 0, 1, 2 and 3 entries, that is by whole and
      half vertices, not over the rotations of the quadrilateral. */
  lemma ResultAveragingIsFlatAverage(mlp: seq<real> -> seq<real>, w: nat, q: seq<Point>)
    requires |q| == 4 && HasWidth(mlp, w)
    ensures HasWidthOn(mlp, 8, w)
    ensures ResultAveragingCall(mlp, w, q) == GroupAverage(Flatten(q), mlp, w)
  {
    var x1 := Flatten(q);
    RollZero(x1);
    RollRoll(x1, 1, 1);
    RollRoll(x1, 2, 1);
    var r, a := ResultAveragingCall(mlp, w, q), GroupAverage(x1, mlp, w);
    forall j | 0 <= j < w
      ensures r[j] == a[j]
    {
      MeanOfFour([mlp(x1), mlp(Roll(x1, 1)), mlp(Roll(x1, 2)), mlp(Roll(x1, 3))], w, j);
    }
  }

  /** A stack that reports the first entry of the flat vector. */
  const FirstOfFlat: seq<real> -> seq<real> := FirstEntry

  /** Because {0, 1, 2, 3} is not closed under adding 2 modulo 8, the model is
      not rotation-invariant: with the stack above it computes
      (x0 + y3 + x3 + y2) / 4, and rotating by one vertex gives
      (x3 + y2 + x2 + y1) / 4. */
  lemma ResultAveragingNotInvariant(q: seq<Point>)
    requires |q| == 4 && q[0].x + q[3].y != q[2].x + q[1].y
    ensures ResultAveragingCall(FirstOfFlat, 1, Roll(q, 1)) != ResultAveragingCall(FirstOfFlat, 1, q)
  {
    var r := Roll(q, 1);
    RollFour(q, 1);
    assert HasWidth(FirstOfFlat, 1);
    FirstValue(q);
    FirstValue(r);
  }

  lemma FirstValue(q: seq<Point>)
    requires |q| == 4
    ensures HasWidth(FirstOfFlat, 1)
    ensures ResultAveragingCall(FirstOfFlat, 1, q)[0] == (q[0].x + q[3].y + q[3].x + q[2].y) / 4.0
  {
    var f := Flatten(q);
    FlattenFour(q);
    ResultAveragingIsFlatAverage(FirstOfFlat, 1, q);
    RollAtLength(f, 8, 1, 0);
    RollAtLength(f, 8, 2, 0);
    RollAtLength(f, 8, 3, 0);
  }

  /** The averaging the class name describes: the flat vector rolled by one
      vertex (two entries) at a time, so that the four inputs are the
      flattened rotations of the quadrilateral. */
  function VertexResultAveragingCall(mlp: seq<real> -> seq<real>, w: nat, q: seq<Point>): (r: seq<real>)
    requires |q| == 4 && HasWidth(mlp, w)
    ensures |r| == w
  {
    var x1 := Flatten(q);
    var x2 := Roll(x1, 2);
    var x3 := Roll(x2, 2);
    var x4 := Roll(x3, 2);
    MeanOfStack([mlp(x1), mlp(x2), mlp(x3), mlp(x4)], w)
  }

  /** Rolling by whole vertices computes what `SimpleNet` of models/area4.py
      computes with the same stack. */
  lemma VertexResultAveragingIsSimpleNet(mlp: seq<real> -> seq<real>, w: nat, q: seq<Point>)
    requires |q| == 4 && HasWidth(mlp, w)
    ensures VertexResultAveragingCall(mlp, w, q) == SimpleNetCall(mlp, w, q)
  {
    var x1 := Flatten(q);
    RollRoll(x1, 2, 2);
    RollRoll(x1, 4, 2);
    var r, a := VertexResultAveragingCall(mlp, w, q), SimpleNetCall(mlp, w, q);
    forall j | 0 <= j < w
      ensures r[j] == a[j]
    {
      MeanOfFour([mlp(x1), mlp(Roll(x1, 2)), mlp(Roll(x1, 4)), mlp(Roll(x1, 6))], w, j);
      SimpleNetFlatRolls(mlp, w, q, j);
    }
  }

  /** The corrected averaging is rotation-invariant, whatever the weights. */
  lemma VertexResultAveragingRollInvariant(mlp: seq<real> -> seq<real>, w: nat, q: seq<Point>, s: int)
    requires |q| == 4 && HasWidth(mlp, w)
    ensures VertexResultAveragingCall(mlp, w, Roll(q, s)) == VertexResultAveragingCall(mlp, w, q)
  {
    VertexResultAveragingIsSimpleNet(mlp, w, q);
    VertexResultAveragingIsSimpleNet(mlp, w, Roll(q, s));
    SimpleNetRollInvariant(mlp, w, q, s);
  }

  // ---------------------------------------------------------------- InsideNet

  /** `InsideNet.call`: the same `GroupInvarianceConv` processor (last_n = 88)
      applied to both quadrilaterals, quadrilateral 1's features first, then
      the dense head. */
  function InsideNetCall(k: Window<Point> -> seq<real>, head: seq<real> -> seq<real>, fc: seq<real> -> seq<real>,
                         q1: seq<Point>, q2: seq<Point>): seq<real>
    requires |q1| == 4 && |q2| == 4 && HasWidth(k, 4 * InsideLastN)
  {
    fc(GroupInvarianceConvCall(k, InsideLastN, head, q1) + GroupInvarianceConvCall(k, InsideLastN, head, q2))
  }

  /** Rotating either quadrilateral, each by its own shift, never changes the
      output. */
  lemma InsideNetRollInvariant(k: Window<Point> -> seq<real>, head: seq<real> -> seq<real>,
                               fc: seq<real> -> seq<real>, q1: seq<Point>, q2: seq<Point>, s1: int, s2: int)
    requires |q1| == 4 && |q2| == 4 && HasWidth(k, 4 * InsideLastN)
    ensures InsideNetCall(k, head, fc, Roll(q1, s1), Roll(q2, s2)) == InsideNetCall(k, head, fc, q1, q2)
  {
    GroupInvarianceConvRollInvariant(k, InsideLastN, head, q1, s1);
    GroupInvarianceConvRollInvariant(k, InsideLastN, head, q2, s2);
  }

  /** Every channel of a vertex is its x coordinate. */
  const AllX: Window<Point> -> seq<real> := (win: Window<Point>) => seq(4 * InsideLastN, i => win.mid.x)

  /** The product of the four x coordinates. */
  function XProduct(q: seq<Point>): real
    requires |q| == 4
  {
    q[0].x * q[1].x * q[2].x * q[3].x
  }

  /** A vector whose entries all equal x has x in every channel of group 0. */
  lemma ConstantChannels(f: seq<real>, g: nat, x: real)
    requires |f| == 4 * g && 0 < g
    requires forall i :: 0 <= i < |f| ==> f[i] == x
    ensures Channels(f, ChannelMajor, g, 0) == [x, x, x, x]
  {
  }

  /** With every channel of vertex v equal to x_v, each of the four products
      is x0 x1 x2 x3. */
  lemma ConstantFourTermSum(x0: real, x1: real, x2: real, x3: real)
    ensures FourTermSum([x0, x0, x0, x0], [x1, x1, x1, x1], [x2, x2, x2, x2], [x3, x3, x3, x3])
      == 4.0 * (x0 * x1 * x2 * x3)
  {
    assert x1 * x2 * x3 * x0 == x0 * x1 * x2 * x3;
    assert x2 * x3 * x0 * x1 == x0 * x1 * x2 * x3;
    assert x3 * x0 * x1 * x2 == x0 * x1 * x2 * x3;
  }

  /** Under `AllX`, every channel of vertex v is x_v. */
  lemma AllXChannels(q: seq<Point>, v: nat)
    requires |q| == 4 && v < 4
    ensures HasWidth(AllX, 4 * InsideLastN)
    ensures Channels(ConvFeatures(AllX, q)[v], ChannelMajor, InsideLastN, 0) == [q[v].x, q[v].x, q[v].x, q[v].x]
  {
    var f := ConvFeatures(AllX, q)[v];
    assert f == AllX(Window(q[(v - 1) % 4], q[v], q[(v + 1) % 4]));
    ConstantChannels(f, InsideLastN, q[v].x);
  }

  /** Under `AllX` and first-entry heads, the processor reports four times the
      product of the x coordinates. */
  lemma AllXProcessor(q: seq<Point>)
    requires |q| == 4
    ensures HasWidth(AllX, 4 * InsideLastN)
    ensures GroupInvarianceConvCall(AllX, InsideLastN, FirstEntry, q) == [4.0 * XProduct(q)]
  {
    var feats := ConvFeatures(AllX, q);
    AllXChannels(q, 0);
    AllXChannels(q, 1);
    AllXChannels(q, 2);
    AllXChannels(q, 3);
    var inv := InvariantFeatures(feats, InsideLastN, ChannelMajor);
    ConstantFourTermSum(q[0].x, q[1].x, q[2].x, q[3].x);
    assert inv[0] == 4.0 * XProduct(q);
  }

  /** The two quadrilaterals are not interchangeable: the head sees
      quadrilateral 1's features first, so swapping two quadrilaterals with
      different x products changes the output under the networks above. */
  lemma InsideNetNotSymmetric(q1: seq<Point>, q2: seq<Point>)
    requires |q1| == 4 && |q2| == 4 && XProduct(q1) != XProduct(q2)
    ensures HasWidth(AllX, 4 * InsideLastN)
    ensures InsideNetCall(AllX, FirstEntry, FirstEntry, q2, q1) != InsideNetCall(AllX, FirstEntry, FirstEntry, q1, q2)
  {
    AllXProcessor(q1);
    AllXProcessor(q2);
  }
}
