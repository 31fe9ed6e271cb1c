# G-invariant quadrilateral networks in Dafny

This project models the invariance constructions of the G-invariant
repository. These are networks that map a quadrilateral (four vertices, each
a point (x, y)) to a prediction, such as its area. The prediction must not
depend on which vertex is listed first. The repository builds that
invariance in three ways, and the model covers all of them:

- **Group averaging** (`groupAvereaging`): the network runs on the four
  cyclic rolls of the vertex list (`tf.roll` along the vertex axis) and the
  four outputs are averaged. `SimpleNet` and `Conv1d` in models/area4.py use
  it, and so does `Conv1d` in models/two_quads.py. Its variant
  `GroupOperationResultAveraging` in models/two_quads.py rolls the flattened
  coordinates instead.
- **The four-term invariant** (`GroupInvariance`, `GroupInvarianceConv`): a
  shared per-vertex feature stack gives each vertex four channels a, b, c, d.
  These are combined as a0·b1·c2·d3 + b0·c1·d2·a3 + c0·d1·a2·b3 + d0·a1·b2·c3.
  The two classes reshape their features differently: the dense one takes
  channel j of group i from entry 4i + j, the convolutional one from entry
  j·last_n + i. The convolutions pad the quadrilateral circularly, so the
  per-vertex features are equivariant under rotation. models/ginv.py states
  the same construction generally: `sigmaPi` sums, over a stack of
  permutation matrices, the product of the selected entries, and
  `prepare_permutation_matices` builds that stack.
- **Segments, monomials and message passing**: `SegmentNet` adds shared
  features of the four edges. `Maron` sums a learned function of monomials
  over the four rotated coordinate orders; its exponent table comes from
  `partitionfunc` and `itertools.permutations`. `MessagePassing` runs
  message and update rounds on the 4-cycle.

The network layers are trained `tf.keras` layers. They are modelled as
arbitrary functions given as parameters, with a fixed output width where a
reshape depends on it. Every invariance theorem therefore holds for every
choice of weights. Where the source does not give invariance, the model
proves a counterexample instead:

- the bare `process` of the convolutional nets;
- `MessagePassing`, whose readout concatenates the vertex states;
- `InsideNet`, under swapping its two quadrilaterals;
- `GroupOperationResultAveraging` (see Findings).

The evaluation script experiments/invariance_area_nmid_test.py is modelled
up to its file system, clock and network calls:

- the model/width/split grid and the order in which its loops visit it;
- the run names and the checkpoint glob patterns;
- choosing the checkpoint among the glob's matches: the last match under
  the key `(len(x), x)`, with ".index" removed;
- the IndexError raised when a glob matches nothing;
- the shape of the result rows.

Globbing and evaluation are parameters. Two of its claims are proved: the key
makes step numbers compare numerically, and `secondary` finishes exactly
when every pattern matches something.

The script globs only `best*.index` files
(experiments/invariance_area_nmid_test.py:66), and the model does the same.

Files: cyclic.dfy (rolls), reals.dfy (sums, products, means), averaging.dfy,
conv.dfy, quads.dfy, four_term.dfy, area4.dfy, two_quads.dfy, partition.dfy,
maron_table.dfy, ginv.dfy, strings.dfy, decimal.dfy, checkpoint.dfy and
nmid_experiment.dfy.

## Model

| member | source | states |
|---|---|---|
| Cyclic.RollAt | models/area4.py:14-16 | after `tf.roll` by s along the vertex axis, position i holds the input's element (i - s) mod n, for every shift, including negative ones and ones of n or more |
| Cyclic.RollRoll | models/area4.py:14-16 | two rolls compose into one roll by the sum of the shifts |
| Cyclic.RollInverse | models/area4.py:14-16 | rolling back by the same shift restores the input |
| Cyclic.RollPermutes | models/area4.py:14-16 | a roll only rearranges the elements (same multiset) |
| Cyclic.RollMod | models/area4.py:14-16 | a roll depends only on its shift modulo the length |
| Cyclic.RollSplit | models/area4.py:14-16 | a roll by s moves the last s mod n elements to the front, in order |
| Cyclic.MapRoll | models/area4.py:49-50 | a shared layer applied to every vertex commutes with every roll |
| RealSeqs.MeanOfFour | models/area4.py:23 | `reduce_mean(stack(...), -1)` of four equally wide outputs is, entry by entry, their sum divided by 4 |
| RealSeqs.SumPermutation | models/ginv.py:11 | a sum does not depend on the order of its terms |
| RealSeqs.ProdPermutation | models/ginv.py:10 | a product does not depend on the order of its factors |
| RealSeqs.AddFourRotate | models/area4.py:198 | the sum of the four segment features is unchanged when the segments are rotated |
| GroupAveraging.GroupAverageRollInvariant | models/area4.py:11-24 | for any operation and any shift, the group average of a rolled quadrilateral equals that of the original |
| GroupAveraging.GroupAverageOfInvariant | models/area4.py:11-24 | averaging an operation that is already invariant returns that operation's output unchanged |
| GroupAveraging.GroupAverageIdempotent | models/area4.py:11-24 | averaging the averaged operation a second time changes nothing |
| GroupAveraging.RollOfRollFour | models/area4.py:14-16 | a roll by k of a four-vertex roll by s is the roll by (s mod 4 + k) mod 4: the rolls of a rolled input are the original's rolls, reordered |
| Quads.FlattenIndex | models/area4.py:160 | `reshape(quad, (-1, 8))` puts vertex i's x at 2i and its y at 2i + 1 |
| Quads.FlattenRoll | models/area4.py:160 | flattening a quadrilateral rolled by s vertices is the flat vector rolled by 2s entries |
| Quads.XsYsRoll | models/area4.py:329-331 | the transposed x row and y row of a rolled quadrilateral are the rolled rows |
| Area4.SimpleNetRollInvariant | models/area4.py:159-169 | `SimpleNet` gives the same output for every rotation of the vertices, whatever the weights |
| Area4.SimpleNetFlatRolls | models/area4.py:159-169 | on the flattened vector, `SimpleNet` averages the stack over rolls by 0, 2, 4 and 6 entries (whole vertices) |
| Conv.ValidConv3 | models/area4.py:71 | a width-3 'valid' convolution is two positions shorter, and output i depends only on inputs i, i+1, i+2 |
| Conv.CircularPad | models/area4.py:81 | the padding adds the last vertex in front and the first vertex behind, keeping the quadrilateral in between |
| Conv.CircularConvWindows | models/area4.py:129-131 | after circular padding, the feature of vertex v is computed from vertices v-1, v and v+1 (mod 4) |
| Conv.CircularConvEquivariant | models/area4.py:129-131 | the padded convolution commutes with every rotation of the vertices |
| Area4.ConvFeatures | models/area4.py:124-131 | there are four per-vertex feature vectors, each computed from the vertex and its two cyclic neighbours |
| Area4.ConvFeaturesEquivariant | models/area4.py:124-131 | rotating the quadrilateral rotates the per-vertex convolution features the same way |
| Area4.ConvNetRollInvariant | models/area4.py:139-142 | `Conv1d.call` (average of `process` over the rolls) is rotation-invariant, whatever the weights |
| Area4.ConvProcessNotInvariant | models/area4.py:124-137 | `process` alone is not invariant: there are layers for which rotating by one vertex changes the output of every quadrilateral whose first and last x differ |
| FourTerm.FeatureIndexInjective | models/area4.py:51 | both reshapes (group-major 4i+j and channel-major j·L+i) send distinct (group, channel) pairs to distinct features |
| FourTerm.FeatureIndexSurjective | models/area4.py:86-89 | both reshapes reach every feature, so each is a bijection onto 0 .. 4g-1 |
| Area4.GroupMajorChannels | models/area4.py:51 | `reshape(x, (bs, n, -1, 4))` makes group i's four channels the consecutive entries 4i .. 4i+3 |
| Area4.ChannelMajorChannels | models/area4.py:86-89 | `reshape(a, (-1, 4, last_n))` takes channel j of group i from entry j·last_n + i |
| FourTerm.FourTermSumIsCyclicSum | models/area4.py:53-56 | the written four-term expression is the sum over k of the products of channel j of vertex (j + k) mod 4 |
| FourTerm.FourTermSumRelabel | models/area4.py:53-56 | relabelling the vertices cyclically (a,b,c,d to b,c,d,a) leaves the four-term sum unchanged |
| FourTerm.FourTermSumNotReversalInvariant | models/area4.py:53-56 | the sum is not invariant under reversing the vertex order: some channel values change it |
| FourTerm.InvariantFeaturesRoll | models/area4.py:52-56 | for either reshape, the per-group four-term features of rolled vertex features equal those of the original |
| Area4.GroupInvarianceRollInvariant | models/area4.py:45-61 | `GroupInvariance` is rotation-invariant, whatever the weights (the same class in models/two_quads.py:114-131 is this function with another width) |
| Area4.GroupInvarianceConvRollInvariant | models/area4.py:80-103 | `GroupInvarianceConv` (circular padding, channel-major reshape, four-term sum) is rotation-invariant, whatever the weights |
| Area4.SegmentNetRollInvariant | models/area4.py:186-206 | `SegmentNet`, which sums the shared features of the four edges, is rotation-invariant, whatever the weights |
| Area4.UpdateRoundEquivariant | models/area4.py:391-399 | one message-and-update round commutes with rotating the vertex states and the raw features together |
| Area4.RoundsEquivariant | models/area4.py:390-399 | any number of rounds commutes with rotation (the source runs one) |
| Area4.MessagePassingEquivariant | models/area4.py:378-399 | the four final vertex states of a rotated quadrilateral are the rotated states |
| Area4.MessagePassingNotInvariant | models/area4.py:401-403 | the concatenating readout breaks invariance: for some layers, every quadrilateral whose first and last x differ changes output when rotated |
| Area4.ShiftSumLiteral | models/area4.py:333-340 | the modelled `term` calls `inv` on exactly the four argument orders written in the source, and adds values and losses |
| Area4.AddOutsRotate | models/area4.py:338-339 | adding the four (value, loss) pairs does not depend on which pair comes first in the cycle |
| Area4.ShiftSumRollInvariant | models/area4.py:333-340 | `term` of rolled x and y rows equals `term` of the original rows, for any `inv` |
| Area4.MaronTermRollInvariant | models/area4.py:329-342 | transposing, flattening and summing the rotated `inv` calls gives the same value and loss for every rotation of the quadrilateral |
| Area4.MaronRollInvariant | models/area4.py:309-347 | `Maron`'s prediction and loss are rotation-invariant, whatever the weights |
| Partition.PartitionsSound | models/area4.py:260-270 | every tuple `partitionfunc(n, k, l)` yields has k entries, each at least l, in non-decreasing order, summing to n |
| Partition.PartitionsComplete | models/area4.py:260-270 | for l >= 0 and k >= 1, every such tuple is yielded |
| Partition.PartitionsShort | models/area4.py:262-267 | k < 1 yields nothing; k = 1 yields (n,) exactly when n >= l |
| Partition.PartitionsAscending | models/area4.py:268-270 | the tuples come out in strictly increasing lexicographic order |
| Partition.PartitionsDistinct | models/area4.py:268-270 | no tuple is yielded twice |
| Partition.PartitionsMissNegative | models/area4.py:260-261 | for a negative minimum the docstring's promise fails: (-1, -1) is a valid pair for n = -2, l = -5 but is not yielded |
| MaronTable.PermsCharacterised | models/area4.py:306 | `permutations(x)` yields p exactly when p is a rearrangement of x |
| MaronTable.Sort | models/area4.py:306 | every tuple has a non-decreasing rearrangement (used to show that every row is reached) |
| MaronTable.TotalRearranged | models/area4.py:306 | rearranging a tuple keeps its sum |
| MaronTable.TableCharacterised | models/area4.py:306 | the set of permutations of the partitions of n into k >= 1 naturals is exactly the set of k-tuples of naturals summing to n |
| MaronTable.CompositionsCount | models/area4.py:306-307 | the ascending enumeration of those tuples has `Count(n, k)` entries |
| MaronTable.TableSize | models/area4.py:306-307 | the table has exactly `Count(n, k)` rows |
| MaronTable.TableFourSize | models/area4.py:306-307 | the table for n = 4 has k(k+1)(k+2)(k+3)/24 rows |
| MaronTable.ExponentTableSize | models/area4.py:306-307 | `Maron`'s table holds exactly the 8-tuples of naturals summing to 4, and there are 330 of them |
| TwoQuads.OneSidedFeaturesWindows | models/two_quads.py:49-53 | padding with the first vertex at the end and two 'valid' convolutions leave one position, computed from windows (q0,q1,q2), (q1,q2,q3), (q2,q3,q0) |
| TwoQuads.OneSidedNetRollInvariant | models/two_quads.py:61-64 | this file's `Conv1d.call` is rotation-invariant through the averaging, whatever the weights |
| TwoQuads.OneSidedProcessNotInvariant | models/two_quads.py:49-59 | its `process` alone is not: for some layers, rotating by one vertex changes the output whenever the first and last x differ |
| TwoQuads.ResultAveragingIsFlatAverage | models/two_quads.py:77-92 | `GroupOperationResultAveraging` is the group average of the flat 8-vector over rolls by 0 to 3 entries |
| TwoQuads.FirstValue | models/two_quads.py:77-92 | with a stack that reports its first input, the model outputs (x0 + y3 + x3 + y2) / 4 |
| TwoQuads.ResultAveragingNotInvariant | models/two_quads.py:79-82 | as written, rotating the quadrilateral by one vertex changes that output whenever x0 + y3 differs from x2 + y1 |
| TwoQuads.VertexResultAveragingIsSimpleNet | models/two_quads.py:77-92 | rolling the flat vector by two entries at a time computes `SimpleNet`'s group average with the same stack |
| TwoQuads.VertexResultAveragingRollInvariant | models/two_quads.py:77-92 | that corrected averaging is rotation-invariant, whatever the weights |
| TwoQuads.AllXProcessor | models/two_quads.py:150-169 | with features copying each vertex's x to every channel, the last_n = 88 processor's first output is 4·x0·x1·x2·x3 |
| TwoQuads.InsideNetRollInvariant | models/two_quads.py:186-195 | `InsideNet` is invariant under rotating either quadrilateral independently |
| TwoQuads.InsideNetNotSymmetric | models/two_quads.py:186-195 | `InsideNet` is not symmetric in its two arguments: for some weights, swapping quadrilaterals with different x-products changes the output |
| Ginv.PermMatrix | models/ginv.py:15-20 | the matrix of a permutation s has a 1 at (s[t], t) and 0 elsewhere |
| Ginv.PrepareOutcome | models/ginv.py:15-20 | preparation fails exactly when some step cannot be carried out, and it reports the first such step. A step fails when its position is m or more, its index list does not have n entries (unless n = 1, where the row broadcasts), or an index is outside -n .. n-1. Otherwise matrix i is the identity with row x[j] replaced by unit row j, and the matrices after the last given permutation stay identities |
| Ginv.AssignedRow | models/ginv.py:19 | a row hit by the fancy assignment is some unit row e_j with x[j] naming it; a row not hit stays the identity row |
| Ginv.PreparedPermutation | models/ginv.py:15-20 | when the (wrapped) index list is a permutation, the prepared matrix is its permutation matrix |
| Ginv.RowTimesPermMatrix | models/ginv.py:8-9 | multiplying by a permutation matrix and taking the diagonal selects entry s[j] of vertex j's row |
| Ginv.SigmaPiBroadcast | models/ginv.py:4-12 | `fin @ p` broadcasts exactly when the stack holds m matrices or one matrix, or m is 1, and otherwise fails; a computed result has one entry per channel |
| Ginv.SigmaPiBroadcastPermutations | models/ginv.py:4-12 | one permutation matrix broadcast over the m copies counts its term m times; otherwise every matrix in the stack counts once, even when the stack is longer than m = 1 |
| Ginv.SigmaPiOfPermMatrices | models/ginv.py:4-12 | `sigmaPi` over permutation matrices is, channel by channel, the sum over permutations s of the product over t of F[t][c][s[t]] |
| Ginv.PreparedSigmaPi | models/ginv.py:4-20 | `sigmaPi` of the prepared matrices is the sum over the given permutations plus the identity term once for each of the m matrices no permutation was given for |
| Ginv.PermSumReorder | models/ginv.py:11 | the sum does not depend on the order of the permutations |
| Ginv.PermSumRelabel | models/ginv.py:4-12 | relabelling the vertices by tau leaves the sum unchanged when tau maps the permutation list onto a rearrangement of itself |
| Ginv.CyclicPermsAreRotations | models/ginv.py:4-12 | the four cyclic index lists are the rotations t to (t - k) mod 4 |
| Ginv.CyclicSigmaPi | models/ginv.py:4-12 | `sigmaPi` with the four cyclic permutation matrices is the four-term invariant of models/area4.py:53-56 |
| Ginv.SigmaPiIsGroupInvariance | models/ginv.py:4-20 | `sigmaPi` of the prepared cyclic matrices on group-major features equals `GroupInvariance`'s invariant features |
| Ginv.CyclicPermSumRelabel | models/ginv.py:4-12 | the cyclic `sigmaPi` is unchanged by rotating the vertices |
| Strings.KeyLessTotal | experiments/invariance_area_nmid_test.py:67 | the key `(len(x), x)` is irreflexive and total, and holds in at most one direction |
| Strings.KeyLessTransitive | experiments/invariance_area_nmid_test.py:67 | the key order is transitive |
| Strings.ReplaceSuffix | experiments/invariance_area_nmid_test.py:67 | `.replace(pattern, repl)` on base + pattern changes only the suffix when base has no occurrence and the pattern has no border |
| Decimal.DecimalKeyOrder | experiments/invariance_area_nmid_test.py:66-67 | `str` numerals compare under the key exactly as the numbers do |
| Decimal.NatToStringInjective | experiments/invariance_area_nmid_test.py:60 | distinct widths give distinct numerals |
| Checkpoint.Last | experiments/invariance_area_nmid_test.py:67 | the chosen match is one of the matches, and every other match is below it under the key |
| Checkpoint.LastUnique | experiments/invariance_area_nmid_test.py:67 | that element is unique, so the order the sort leaves equal keys in does not matter |
| Checkpoint.SelectSpec | experiments/invariance_area_nmid_test.py:67 | no matches is the IndexError; otherwise the path is a longest match, the greatest string among the longest, with ".index" removed |
| Checkpoint.SelectStripsSuffix | experiments/invariance_area_nmid_test.py:67 | a match that is a prefix plus ".index", where the prefix has no ".index" of its own, loads exactly the prefix |
| Checkpoint.StepFileOrder | experiments/invariance_area_nmid_test.py:66-67 | step checkpoint files under one prefix compare under the key exactly as their step numbers |
| Checkpoint.LastStepChosen | experiments/invariance_area_nmid_test.py:66-67 | among step checkpoints, the one with the largest step is chosen |
| Checkpoint.StepNinetyNine | experiments/invariance_area_nmid_test.py:67 | best-228 is chosen over best-99, while plain string order would put best-99 last |
| NmidExperiment.GridIsLoopOrder | experiments/invariance_area_nmid_test.py:53-61 | the closed-form grid is the order the name, width and split loops visit the configurations |
| NmidExperiment.GridAt | experiments/invariance_area_nmid_test.py:53-61 | position (n·8 + w)·3 + s of the grid is (name n, width w, split s) |
| NmidExperiment.GridDistinct | experiments/invariance_area_nmid_test.py:53-61 | the 48 configurations are pairwise distinct |
| NmidExperiment.ModelsForNames | experiments/invariance_area_nmid_test.py:56-59 | "my_inv_conv" builds `GroupInvarianceConv(i)` and "my_inv_fc" builds `GroupInvariance(i)` |
| NmidExperiment.DatasetPathFor | experiments/invariance_area_nmid_test.py:52-62 | replacing "train" in the scenario path yields the split's dataset directory, for every split name |
| NmidExperiment.RunNameInjective | experiments/invariance_area_nmid_test.py:60 | distinct (name, width) pairs get distinct run names |
| NmidExperiment.Sequence | experiments/invariance_area_nmid_test.py:49-88 | steps run in order: the run finishes with every value exactly when no step fails, and otherwise it stops at the first failing step |
| NmidExperiment.ReplicaRunOutcome | experiments/invariance_area_nmid_test.py:66-68 | a replica is evaluated exactly when its glob matches something; otherwise the error names its pattern |
| NmidExperiment.CellDone | experiments/invariance_area_nmid_test.py:65-88 | a (model, width, split) cell completes exactly when all nine replica patterns match |
| NmidExperiment.CellRow | experiments/invariance_area_nmid_test.py:60-88 | a completed row carries the run name, the split, the nine replica errors in order, and all batch timings but the first |
| NmidExperiment.CellRaised | experiments/invariance_area_nmid_test.py:65-67 | a failed cell reports the pattern of its first replica without matches |
| NmidExperiment.TimingsDropOnlyFirst | experiments/invariance_area_nmid_test.py:88 | `times[1:]` drops only the first batch of the first replica, not one batch per replica |
| NmidExperiment.SecondaryCompletes | experiments/invariance_area_nmid_test.py:49-88 | `secondary` produces its rows exactly when every pattern of every configuration matches |
| NmidExperiment.CompletedRunsFound | experiments/invariance_area_nmid_test.py:49-88 | a completed run found checkpoints for every configuration |
| NmidExperiment.FailedRunMissing | experiments/invariance_area_nmid_test.py:49-88 | a failed run has a configuration whose checkpoints are missing |
| NmidExperiment.SecondaryStops | experiments/invariance_area_nmid_test.py:49-88 | a failed run reports the first pattern without matches, in loop order |
| NmidExperiment.SecondaryRows | experiments/invariance_area_nmid_test.py:49-88 | there are 48 rows, and row (n·8 + w)·3 + s holds run name n_w, split s and that configuration's nine replica errors |
| NmidExperiment.RowKey | experiments/invariance_area_nmid_test.py:88 | row j is labelled with the j-th configuration of the grid |
| NmidExperiment.RowsDistinct | experiments/invariance_area_nmid_test.py:88 | no two rows have the same run name and split |

## Left out

- Layer arithmetic: dense, convolution and activation layers are arbitrary functions of the model, with the output widths the reshapes need. Weights, `tanh`, and training are not modelled. The invariance results hold for every choice of weights.
- Floating point: tensors hold exact reals. Sums and products are associative and commutative here, as the invariance arguments assume. TensorFlow's float32 rounding can break exact equality.
- The batch dimension: every function takes one quadrilateral, and batched tensor ops act on each sample independently.
- `ConvImg` (models/area4.py:209-257), `MulNet` (273-287) and the two_quads `SimpleNet` (models/two_quads.py:198-213): `ConvImg` is an image model on rendered pixels, `MulNet` is a plain dense stack, and the two_quads `SimpleNet` is not an invariance construction.
- Area4.MaronCall: the loss inside `inv` compares `MulNet`'s output with a product of only five of the eight powers (models/area4.py:320). `inv` as a whole is a parameter, so this loss, the powers `a ** p[:, j]` and the `[:, :, 0]` slice are not modelled. Only its rows (one value per table row) and the summing in `term` are.
- Partition.PartitionsComplete: completeness is proved only for l >= 0 and k >= 1. For a negative minimum the loop misses tuples (`PartitionsMissNegative`). For k = 0 the generator yields nothing, although the empty tuple sums to 0. The repository calls it only with l = 0.
- `Partition.Partitions` takes the minimum `l` explicitly, and the source's default `l=1` (models/area4.py:260) is not modelled. No caller relies on the default: `Maron` passes `l=0`, and the recursion passes `i`.
- `raise StopIteration` inside `partitionfunc` is modelled as the generator ending, which is its behaviour before PEP 479. Under PEP 479 the same statement raises RuntimeError.
- Ginv.AssignedRow: when an index list names a row twice, numpy does not specify which assignment wins. The lemma states only that the row is one of the candidate unit rows, not which one.
- `prepare_permutation_matices` errors: an out-of-range row index, a permutation at position m or beyond, and an index list whose length does not broadcast against the n identity rows all become one error `Failed(at)` naming the step. numpy raises IndexError or ValueError; the error kind and message are not modelled.
- Ginv.SigmaPi: `p` must hold exactly m matrices. numpy's broadcasting at models/ginv.py:8 accepts more. A `p` of shape (1,n,n) is used for all m copies, giving m times its one term. With m == 1, a `p` of k matrices is met by the single copy, and the sum covers all k. Any other pair of lengths raises ValueError. `Ginv.SigmaPiBroadcast` models these cases and the error as `ShapeMismatch`. A bare (n,n) matrix is modelled as a one-matrix stack. Stacks with more than one leading dimension are not modelled.
- The experiment's I/O: the file system glob, `area4_dataset`, `load_weights`, shuffling, batching and prefetching, `tqdm`, `time()`, the prints and the CSV file (experiments/invariance_area_nmid_test.py:90-92) are parameters or left out. `Evaluate` returns a replica's mean error and batch timings. It is assumed deterministic and stateless: a function of architecture, checkpoint path and split only. The script reuses one model object for all 27 evaluations of a width, and `load_weights(...).expect_partial()` can leave earlier weights in place (experiments/invariance_area_nmid_test.py:57-68). It also reshuffles the split for every replica (line 69). No proved property depends on this.
- NmidExperiment.Secondary: the rows keep the nine replica errors and the timing samples instead of their mean and standard deviation. numpy's mean and std are floating point.
- The internals of models/area4_nmid.py, which the experiment imports: models/area4_nmid.py is not part of this model. The experiment's two architectures are recorded only by class and width.
- experiments/invariance_area_test.py: the other evaluation script is not part of this model.
- Plotting (`_plot` in both model files) and the dataset and geometry utilities imported by models/two_quads.py.

## Findings

| source | as written | input that shows it | evidently intended | confidence | as-written member | corrected member |
|---|---|---|---|---|---|---|
| models/two_quads.py:79-82 | `GroupOperationResultAveraging` flattens the quadrilateral to (-1, 8) before rolling. Each `tf.roll(..., 1, 1)` therefore moves one coordinate rather than one vertex, and the four inputs mix x and y values. | quadrilateral (1,0), (0,0), (0,0), (0,0) with a stack that reports its first input: the output is 1/4, but 0 after rotating by one vertex | average over the four vertex rotations (roll the flat vector by two entries at a time), which makes the model rotation-invariant as its name and `groupAvereaging` suggest | medium, not executed | TwoQuads.ResultAveragingNotInvariant | TwoQuads.VertexResultAveragingRollInvariant |
