/** The evaluation grid of experiments/invariance_area_nmid_test.py
    (`secondary`): for both model families, eight widths and three dataset
    splits, nine trained replicas are loaded from their best checkpoints and
    evaluated, and one result row is kept per (model, width, split).
    Globbing the checkpoint directory and evaluating a network (loading the
    weights, shuffling and batching the dataset, timing each batch) come in as
    function parameters; the mean and standard deviation the script prints
    and writes are left to the row's consumer, the row keeps the samples. */
module NmidExperiment {
  import opened Strings
  import opened Decimal
  import opened Checkpoint
  import opened RealSeqs

  const Names: seq<string> := ["my_inv_conv", "my_inv_fc"]
  const Widths: seq<nat> := [1, 2, 4, 8, 16, 32, 64, 128]
  const Splits: seq<string> := ["train", "val", "test"]
  /** `range(1, 10)`: the replica numbers of one configuration. */
  const Replicas: seq<nat> := [1, 2, 3, 4, 5, 6, 7, 8, 9]
  const DataDir := "../../data_inv/"
  const DataName := "/area4paper_shift"
  /** The training split's dataset; the other splits are found by replacing
      "train" in it. */
  const ScenarioPath := DataDir + "train" + DataName

  /** The two model classes of models/area4_nmid, by their width argument. */
  datatype Architecture = GroupInvarianceConv(width: nat) | GroupInvariance(width: nat)

  /** `"conv" in name`: the convolutional family, otherwise the dense one. */
  function ModelFor(name: string, width: nat): Architecture
  {
    if Contains(name, "conv") then GroupInvarianceConv(width) else GroupInvariance(width)
  }

  /** `name + "_" + str(i)`: the run name of a configuration. */
  function RunName(name: string, width: nat): string
  {
    name + "_" + NatToString(width)
  }

  /** The glob pattern of replica k's best checkpoints. */
  function CheckpointPattern(fname: string, k: nat): string
  {
    "./working_dir/area_nmid/" + fname + "_" + NatToString(k) + "/checkpoints/best*.index"
  }

  /** The dataset of a split: the split's directory in place of "train"
      (`DatasetPathFor` shows it is `scenario_path.replace("train", ds_type)`). */
  function DatasetPath(split: string): string
  {
    DataDir + split + DataName
  }

  /** One replica's evaluation: the mean absolute error over the split and
      the wall-clock time of every batch, in order. */
  datatype Replica = Replica(mae: real, timings: seq<real>)

  /** A result row: run name, split, the nine replica errors and the batch
      timings the timing statistics are taken over. */
  datatype Row = Row(fname: string, split: string, maes: seq<real>, times: seq<real>)

  /** A value, or the IndexError of `sorted(p)[-1]` for the glob pattern that
      matched nothing. */
  datatype Outcome<T> = Done(value: T) | Raised(unmatched: string)

  /** The checkpoint files a glob pattern matches. */
  type Glob = string -> seq<string>

  /** Loading a checkpoint into a model and evaluating it on a dataset. */
  type Evaluate = (Architecture, string, string) -> Replica

  /** One configuration of the grid. */
  datatype Key = Key(name: string, width: nat, split: string)

  /** The innermost loop: the three splits of one model and width. */
  function SplitRow(name: string, width: nat): seq<Key>
  {
    seq(|Splits|, s requires 0 <= s < |Splits| => Key(name, width, Splits[s]))
  }

  /** The middle loop: one block of splits per width. */
  function WidthRows(name: string): seq<seq<Key>>
  {
    seq(|Widths|, w requires 0 <= w < |Widths| => SplitRow(name, Widths[w]))
  }

  /** The outer loop: one block of widths and splits per name. */
  function NameBlocks(): seq<seq<Key>>
  {
    seq(|Names|, n requires 0 <= n < |Names| => Concat(WidthRows(Names[n])))
  }

  /** The configurations in the order the nested loops visit them. */
  function LoopOrder(): seq<Key>
  {
    Concat(NameBlocks())
  }

  /** The same order by position: the position's digits in the mixed radix
      (names, widths, splits) pick the configuration. */
  function Grid(): (g: seq<Key>)
    ensures |g| == 48
  {
    seq(48, j requires 0 <= j < 48 => Key(Names[j / 24], Widths[j % 24 / 3], Splits[j % 24 % 3]))
  }

  /** `times[1:]`, which is empty for an empty list. */
  function DropFirst<T>(xs: seq<T>): seq<T>
  {
    if |xs| == 0 then [] else xs[1..]
  }

  /** The pattern that matched nothing is the first failing one, everything
      before it succeeded. */
  predicate FirstRaised<T>(os: seq<Outcome<T>>, p: string)
  {
    exists j :: 0 <= j < |os| && os[j] == Raised(p) && forall i :: 0 <= i < j ==> os[i].Done?
  }

  /** Steps run in order; the first error ends the run. */
  function Sequence<T>(os: seq<Outcome<T>>): (r: Outcome<seq<T>>)
    ensures r.Done? <==> forall j :: 0 <= j < |os| ==> os[j].Done?
    ensures r.Done? ==> |r.value| == |os| && forall j :: 0 <= j < |os| ==> r.value[j] == os[j].value
    ensures r.Raised? ==> FirstRaised(os, r.unmatched)
  {
    if |os| == 0 then Done([])
    else match os[0]
      case Raised(p) => Raised(p)
      case Done(v) =>
        var rest := Sequence(os[1..]);
        if rest.Raised? then
          FirstRaisedShift(os, rest.unmatched);
          Raised(rest.unmatched)
        else Done([v] + rest.value)
  }

  lemma FirstRaisedShift<T>(os: seq<Outcome<T>>, p: string)
    requires |os| > 0 && os[0].Done? && FirstRaised(os[1..], p)
    ensures FirstRaised(os, p)
  {
    var j :| 0 <= j < |os| - 1 && os[1..][j] == Raised(p) && forall i :: 0 <= i < j ==> os[1..][i].Done?;
    assert os[j + 1] == Raised(p);
    forall i | 0 <= i < j + 1
      ensures os[i].Done?
    {
      if i > 0 {
        assert os[i] == os[1..][i - 1];
      }
    }
  }

  /** Lines 66-68 for replica k: glob, choose, load and evaluate. */
  function ReplicaRun(glob: Glob, evaluate: Evaluate, arch: Architecture, fname: string,
                      dataset: string, k: nat): Outcome<Replica>
  {
    var pattern := CheckpointPattern(fname, k);
    match Select(glob(pattern))
    case NoMatch => Raised(pattern)
    case Selected(path) => Done(evaluate(arch, path, dataset))
  }

  function Runs(glob: Glob, evaluate: Evaluate, arch: Architecture, fname: string,
                dataset: string): seq<Outcome<Replica>>
  {
    seq(|Replicas|, j requires 0 <= j < |Replicas| =>
      ReplicaRun(glob, evaluate, arch, fname, dataset, Replicas[j]))
  }

  function Maes(rs: seq<Replica>): seq<real>
  {
    seq(|rs|, j requires 0 <= j < |rs| => rs[j].mae)
  }

  function Timings(rs: seq<Replica>): seq<seq<real>>
  {
    seq(|rs|, j requires 0 <= j < |rs| => rs[j].timings)
  }

  /** The body of the split loop: nine replicas into one row. */
  function Cell(glob: Glob, evaluate: Evaluate, key: Key): Outcome<Row>
  {
    var fname := RunName(key.name, key.width);
    var runs := Sequence(Runs(glob, evaluate, ModelFor(key.name, key.width), fname, DatasetPath(key.split)));
    if runs.Raised? then Raised(runs.unmatched)
    else Done(Row(fname, key.split, Maes(runs.value), DropFirst(Concat(Timings(runs.value)))))
  }

  function Cells(glob: Glob, evaluate: Evaluate): seq<Outcome<Row>>
  {
    seq(|Grid()|, j requires 0 <= j < |Grid()| => Cell(glob, evaluate, Grid()[j]))
  }

  /** `secondary()` up to the file it writes: the result rows, or the error
      that stops it. */
  function Secondary(glob: Glob, evaluate: Evaluate): Outcome<seq<Row>>
  {
    Sequence(Cells(glob, evaluate))
  }

  // ---------------------------------------------------------------------
  // The grid

  /** The loops visit 2 * 8 * 3 configurations, name by name, each name's
      widths in order, each width's splits in order. */
  lemma LoopOrderAt(n: nat, w: nat, s: nat)
    requires n < |Names| && w < |Widths| && s < |Splits|
    ensures |LoopOrder()| == 48
    ensures LoopOrder()[(n * 8 + w) * 3 + s] == Key(Names[n], Widths[w], Splits[s])
  {
    forall m | 0 <= m < |Names|
      ensures |NameBlocks()[m]| == 24
    {
      ConcatLength(WidthRows(Names[m]), 3);
    }
    ConcatLength(NameBlocks(), 24);
    ConcatBlocks(WidthRows(Names[n]), 3, w, s);
    ConcatBlocks(NameBlocks(), 24, n, w * 3 + s);
    assert (n * 8 + w) * 3 + s == n * 24 + (w * 3 + s);
  }

  /** The positional grid is the loops' order. */
  lemma GridIsLoopOrder()
    ensures Grid() == LoopOrder()
  {
    LoopOrderAt(0, 0, 0);
    forall j | 0 <= j < 48
      ensures Grid()[j] == LoopOrder()[j]
    {
      var n, w, s := j / 24, j % 24 / 3, j % 24 % 3;
      assert j == (n * 8 + w) * 3 + s;
      LoopOrderAt(n, w, s);
    }
  }

  /** Row (n * 8 + w) * 3 + s of the grid is name n, width w, split s. */
  lemma GridAt(n: nat, w: nat, s: nat)
    requires n < |Names| && w < |Widths| && s < |Splits|
    ensures Grid()[(n * 8 + w) * 3 + s] == Key(Names[n], Widths[w], Splits[s])
  {
    var j := (n * 8 + w) * 3 + s;
    assert j == n * 24 + (w * 3 + s);
    assert j / 24 == n && j % 24 == w * 3 + s;
  }

  /** Both names choose the family their comment announces. */
  lemma ModelsForNames(width: nat)
    ensures ModelFor(Names[0], width) == GroupInvarianceConv(width)
    ensures ModelFor(Names[1], width) == GroupInvariance(width)
  {
    assert Names[0][7..11] == "conv";
    assert OccursAt(Names[0], "conv", 7);
    AbsentFirstCharacter(Names[1], "conv");
  }

  /** `scenario_path.replace("train", ds_type)` replaces the one "train" in
      the scenario path by the split: the directory part has no "train", and
      neither has the file name. */
  lemma DatasetPathFor(split: string)
    ensures Replace(ScenarioPath, "train", split) == DatasetPath(split)
  {
    NoTrainBefore(DataDir, "train" + DataName);
    AbsentFirstCharacter(DataName, "train");
    ReplaceOnce(ScenarioPath, DataDir, DataName, "train", split);
  }

  /** A string with exactly one occurrence of pattern, which no earlier
      partial occurrence overlaps, has just that occurrence replaced. */
  lemma ReplaceOnce(s: string, a: string, b: string, pattern: string, repl: string)
    requires |pattern| > 0 && s == a + (pattern + b)
    requires forall i :: 0 <= i < |a| ==> !OccursAt(a + (pattern + b), pattern, i)
    requires !Contains(b, pattern)
    ensures Replace(s, pattern, repl) == a + repl + b
  {
    ReplaceAfterPrefix(a, pattern + b, pattern, repl);
    ReplaceAtFront(pattern, b, repl);
    ReplaceAbsent(b, pattern, repl);
  }

  /** An occurrence of "train" needs an 'r' right after its start, and the
      directory part of the scenario path has none. */
  lemma NoTrainBefore(a: string, rest: string)
    requires a == DataDir && |rest| > 0 && rest[0] == 't'
    ensures forall i :: 0 <= i < |a| ==> !OccursAt(a + rest, "train", i)
  {
    var s := a + rest;
    assert forall k :: 0 <= k < |a| ==> a[k] != 'r';
    forall i | 0 <= i < |a|
      ensures !OccursAt(s, "train", i)
    {
      if i + 1 < |a| {
        assert s[i + 1] == a[i + 1];
      } else {
        assert s[i + 1] == rest[0];
      }
      if i + 5 <= |s| {
        assert s[i..i + 5][1] == s[i + 1];
      }
    }
  }

  /** Different (name, width) pairs give different run names: the names part
      at their eighth character, the widths at their decimal digits. */
  lemma RunNameInjective(n1: nat, w1: nat, n2: nat, w2: nat)
    requires n1 < |Names| && w1 < |Widths| && n2 < |Names| && w2 < |Widths|
    requires RunName(Names[n1], Widths[w1]) == RunName(Names[n2], Widths[w2])
    ensures n1 == n2 && w1 == w2
  {
    var r1, r2 := RunName(Names[n1], Widths[w1]), RunName(Names[n2], Widths[w2]);
    assert r1[7] == Names[n1][7] && r2[7] == Names[n2][7];
    assert n1 == n2;
    var x := Names[n1] + "_";
    assert r1 == x + NatToString(Widths[w1]) && r2 == x + NatToString(Widths[w2]);
    assert r1[|x|..] == NatToString(Widths[w1]) && r2[|x|..] == NatToString(Widths[w2]);
    if Widths[w1] != Widths[w2] {
      NatToStringInjective(Widths[w1], Widths[w2]);
    }
  }

  // ---------------------------------------------------------------------
  // One configuration

  /** Every replica's pattern matched at least one checkpoint. */
  predicate CheckpointsFound(glob: Glob, fname: string)
  {
    forall j :: 0 <= j < |Replicas| ==> |glob(CheckpointPattern(fname, Replicas[j]))| > 0
  }

  /** The checkpoint replica k loads: the selection among its matches. */
  function ChosenCheckpoint(glob: Glob, fname: string, k: nat): string
    requires |glob(CheckpointPattern(fname, k))| > 0
  {
    Select(glob(CheckpointPattern(fname, k))).path
  }

  /** What replica j + 1 of a configuration measures. */
  function Measured(glob: Glob, evaluate: Evaluate, key: Key, j: nat): Replica
    requires j < |Replicas| && CheckpointsFound(glob, RunName(key.name, key.width))
  {
    var fname := RunName(key.name, key.width);
    evaluate(ModelFor(key.name, key.width), ChosenCheckpoint(glob, fname, Replicas[j]), DatasetPath(key.split))
  }

  /** A configuration yields its row exactly when all nine replicas found a
      checkpoint. */
  lemma CellDone(glob: Glob, evaluate: Evaluate, key: Key)
    ensures Cell(glob, evaluate, key).Done? <==> CheckpointsFound(glob, RunName(key.name, key.width))
  {
    var fname := RunName(key.name, key.width);
    var os := Runs(glob, evaluate, ModelFor(key.name, key.width), fname, DatasetPath(key.split));
    forall j | 0 <= j < |Replicas|
      ensures os[j].Done? <==> |glob(CheckpointPattern(fname, Replicas[j]))| > 0
    {
      ReplicaRunOutcome(glob, evaluate, ModelFor(key.name, key.width), fname, DatasetPath(key.split), Replicas[j]);
    }
  }

  /** A replica runs exactly when its pattern matched something, and
      otherwise reports that pattern. */
  lemma ReplicaRunOutcome(glob: Glob, evaluate: Evaluate, arch: Architecture, fname: string,
                          dataset: string, k: nat)
    ensures ReplicaRun(glob, evaluate, arch, fname, dataset, k).Done? <==>
      |glob(CheckpointPattern(fname, k))| > 0
    ensures ReplicaRun(glob, evaluate, arch, fname, dataset, k).Raised? ==>
      ReplicaRun(glob, evaluate, arch, fname, dataset, k).unmatched == CheckpointPattern(fname, k)
  {
    SelectSpec(glob(CheckpointPattern(fname, k)));
  }

  /** The row holds the run name, the split, each replica's error in replica
      order and every batch timing but the very first. */
  lemma CellRow(glob: Glob, evaluate: Evaluate, key: Key)
    requires Cell(glob, evaluate, key).Done?
    ensures CheckpointsFound(glob, RunName(key.name, key.width))
    ensures var row := Cell(glob, evaluate, key).value;
      row.fname == RunName(key.name, key.width) && row.split == key.split &&
      |row.maes| == |Replicas| &&
      (forall j :: 0 <= j < |Replicas| ==> row.maes[j] == Measured(glob, evaluate, key, j).mae) &&
      row.times == DropFirst(Concat(seq(|Replicas|, j requires 0 <= j < |Replicas| =>
                                          Measured(glob, evaluate, key, j).timings)))
  {
    CellDone(glob, evaluate, key);
    var fname := RunName(key.name, key.width);
    var rs := Sequence(Runs(glob, evaluate, ModelFor(key.name, key.width), fname, DatasetPath(key.split))).value;
    assert Timings(rs) == seq(|Replicas|, j requires 0 <= j < |Replicas| =>
                                Measured(glob, evaluate, key, j).timings);
  }

  /** Replica j + 1 is the first, in order, whose pattern matched nothing. */
  predicate FirstMissing(glob: Glob, fname: string, j: int)
  {
    0 <= j < |Replicas| && |glob(CheckpointPattern(fname, Replicas[j]))| == 0 &&
    forall i :: 0 <= i < j ==> |glob(CheckpointPattern(fname, Replicas[i]))| > 0
  }

  /** A configuration that fails reports the first replica, in order, whose
      pattern matched nothing. */
  lemma CellRaised(glob: Glob, evaluate: Evaluate, key: Key)
    requires Cell(glob, evaluate, key).Raised?
    ensures exists j :: (FirstMissing(glob, RunName(key.name, key.width), j) &&
      Cell(glob, evaluate, key).unmatched == CheckpointPattern(RunName(key.name, key.width), Replicas[j]))
  {
    var fname := RunName(key.name, key.width);
    var arch, dataset := ModelFor(key.name, key.width), DatasetPath(key.split);
    var os := Runs(glob, evaluate, arch, fname, dataset);
    var runs := Sequence(os);
    var j :| 0 <= j < |os| && os[j] == Raised(runs.unmatched) && forall i :: 0 <= i < j ==> os[i].Done?;
    ReplicaRunOutcome(glob, evaluate, arch, fname, dataset, Replicas[j]);
    forall i | 0 <= i < j
      ensures |glob(CheckpointPattern(fname, Replicas[i]))| > 0
    {
      assert os[i].Done?;
      ReplicaRunOutcome(glob, evaluate, arch, fname, dataset, Replicas[i]);
    }
    assert FirstMissing(glob, fname, j);
  }

  /** Only the first timing of the first replica is dropped: the warm-up
      call of the whole configuration, not one per replica. */
  lemma TimingsDropOnlyFirst(ts: seq<seq<real>>)
    requires |ts| > 0 && |ts[0]| > 0
    ensures DropFirst(Concat(ts)) == ts[0][1..] + Concat(ts[1..])
    ensures |DropFirst(Concat(ts))| == |Concat(ts)| - 1
  {
    assert Concat(ts) == ts[0] + Concat(ts[1..]);
    assert (ts[0] + Concat(ts[1..]))[1..] == ts[0][1..] + Concat(ts[1..]);
  }

  // ---------------------------------------------------------------------
  // The whole run

  /** All checkpoints of the 2 * 8 runs were found, for all nine replicas. */
  predicate AllCheckpointsFound(glob: Glob)
  {
    forall n, w :: 0 <= n < |Names| && 0 <= w < |Widths| ==>
      CheckpointsFound(glob, RunName(Names[n], Widths[w]))
  }

  /** The run completes exactly when every run name has all nine
      checkpoints; the split does not matter, since the pattern does not
      mention it. */
  lemma SecondaryCompletes(glob: Glob, evaluate: Evaluate)
    ensures Secondary(glob, evaluate).Done? <==> AllCheckpointsFound(glob)
  {
    if Secondary(glob, evaluate).Done? {
      CompletedRunsFound(glob, evaluate);
    } else {
      FailedRunMissing(glob, evaluate);
    }
  }

  lemma CompletedRunsFound(glob: Glob, evaluate: Evaluate)
    requires Secondary(glob, evaluate).Done?
    ensures AllCheckpointsFound(glob)
  {
    var cs := Cells(glob, evaluate);
    forall n, w | 0 <= n < |Names| && 0 <= w < |Widths|
      ensures CheckpointsFound(glob, RunName(Names[n], Widths[w]))
    {
      GridAt(n, w, 0);
      var j := (n * 8 + w) * 3;
      assert cs[j].Done?;
      CellDone(glob, evaluate, Grid()[j]);
    }
  }

  lemma FailedRunMissing(glob: Glob, evaluate: Evaluate)
    requires Secondary(glob, evaluate).Raised?
    ensures !AllCheckpointsFound(glob)
  {
    var cs := Cells(glob, evaluate);
    var j :| 0 <= j < |cs| && !cs[j].Done?;
    var key := Grid()[j];
    CellDone(glob, evaluate, key);
    var n, w := j / 24, j % 24 / 3;
    assert key.name == Names[n] && key.width == Widths[w];
    assert !CheckpointsFound(glob, RunName(Names[n], Widths[w]));
  }

  /** The 48 rows in loop order: row (n * 8 + w) * 3 + s belongs to name n,
      width w and split s, and holds that configuration's measurements. */
  lemma SecondaryRows(glob: Glob, evaluate: Evaluate, n: nat, w: nat, s: nat)
    requires Secondary(glob, evaluate).Done?
    requires n < |Names| && w < |Widths| && s < |Splits|
    ensures |Secondary(glob, evaluate).value| == 48
    ensures var row := Secondary(glob, evaluate).value[(n * 8 + w) * 3 + s];
      var key := Key(Names[n], Widths[w], Splits[s]);
      row.fname == RunName(Names[n], Widths[w]) && row.split == Splits[s] &&
      |row.maes| == |Replicas| &&
      CheckpointsFound(glob, RunName(Names[n], Widths[w])) &&
      (forall j :: 0 <= j < |Replicas| ==> row.maes[j] == Measured(glob, evaluate, key, j).mae)
  {
    GridAt(n, w, s);
    var cs := Cells(glob, evaluate);
    var j := (n * 8 + w) * 3 + s;
    assert cs[j] == Cell(glob, evaluate, Key(Names[n], Widths[w], Splits[s]));
    CellRow(glob, evaluate, Key(Names[n], Widths[w], Splits[s]));
  }

  /** Row j of a completed run is configuration j of the grid. */
  lemma RowKey(glob: Glob, evaluate: Evaluate, j: nat)
    requires Secondary(glob, evaluate).Done? && j < 48
    ensures |Secondary(glob, evaluate).value| == 48
    ensures Secondary(glob, evaluate).value[j].fname == RunName(Grid()[j].name, Grid()[j].width)
    ensures Secondary(glob, evaluate).value[j].split == Grid()[j].split
  {
    var cs := Cells(glob, evaluate);
    assert cs[j] == Cell(glob, evaluate, Grid()[j]);
    CellRow(glob, evaluate, Grid()[j]);
  }

  /** Different positions of the grid are different configurations. */
  lemma GridDistinct(j1: nat, j2: nat)
    requires j1 < 48 && j2 < 48 && j1 != j2
    ensures Grid()[j1] != Grid()[j2]
  {
    var n1, w1, s1 := j1 / 24, j1 % 24 / 3, j1 % 24 % 3;
    var n2, w2, s2 := j2 / 24, j2 % 24 / 3, j2 % 24 % 3;
    assert j1 == (n1 * 8 + w1) * 3 + s1 && j2 == (n2 * 8 + w2) * 3 + s2;
    if Widths[w1] == Widths[w2] {
      WidthsDistinct(w1, w2);
    }
    if Splits[s1] == Splits[s2] {
      SplitsDistinct(s1, s2);
    }
    if Names[n1] == Names[n2] {
      assert Names[n1][7] == Names[n2][7];
    }
  }

  lemma WidthsDistinct(w1: nat, w2: nat)
    requires w1 < |Widths| && w2 < |Widths| && Widths[w1] == Widths[w2]
    ensures w1 == w2
  {
  }

  lemma SplitsDistinct(s1: nat, s2: nat)
    requires s1 < |Splits| && s2 < |Splits| && Splits[s1] == Splits[s2]
    ensures s1 == s2
  {
    assert Splits[0][1] == 'r' && Splits[1][1] == 'a' && Splits[2][1] == 'e';
    assert Splits[s1][1] == Splits[s2][1];
  }

  /** No two rows share a (run name, split) pair. */
  lemma RowsDistinct(glob: Glob, evaluate: Evaluate, j1: nat, j2: nat)
    requires Secondary(glob, evaluate).Done?
    requires j1 < 48 && j2 < 48 && j1 != j2
    ensures |Secondary(glob, evaluate).value| == 48
    ensures var rows := Secondary(glob, evaluate).value;
      rows[j1].fname != rows[j2].fname || rows[j1].split != rows[j2].split
  {
    RowKey(glob, evaluate, j1);
    RowKey(glob, evaluate, j2);
    GridDistinct(j1, j2);
    var k1, k2 := Grid()[j1], Grid()[j2];
    if RunName(k1.name, k1.width) == RunName(k2.name, k2.width) {
      RunNameInjective(j1 / 24, j1 % 24 / 3, j2 / 24, j2 % 24 / 3);
    }
  }

  /** Configuration j is the first, in loop order, that misses a
      checkpoint, and replica k + 1 is its first replica that does. */
  predicate FirstFailure(glob: Glob, j: int, k: int)
  {
    0 <= j < |Grid()| && FirstMissing(glob, RunName(Grid()[j].name, Grid()[j].width), k) &&
    forall i :: 0 <= i < j ==> CheckpointsFound(glob, RunName(Grid()[i].name, Grid()[i].width))
  }

  /** A run that stops reports the first pattern, in loop order, that matched
      nothing. */
  lemma SecondaryStops(glob: Glob, evaluate: Evaluate)
    requires Secondary(glob, evaluate).Raised?
    ensures exists j, k :: (FirstFailure(glob, j, k) &&
      Secondary(glob, evaluate).unmatched == CheckpointPattern(RunName(Grid()[j].name, Grid()[j].width), Replicas[k]))
  {
    var cs := Cells(glob, evaluate);
    var p := Secondary(glob, evaluate).unmatched;
    var j :| 0 <= j < |cs| && cs[j] == Raised(p) && forall i :: 0 <= i < j ==> cs[i].Done?;
    var key := Grid()[j];
    CellRaised(glob, evaluate, key);
    var k :| FirstMissing(glob, RunName(key.name, key.width), k) &&
      p == CheckpointPattern(RunName(key.name, key.width), Replicas[k]);
    forall i | 0 <= i < j
      ensures CheckpointsFound(glob, RunName(Grid()[i].name, Grid()[i].width))
    {
      assert cs[i].Done?;
      CellDone(glob, evaluate, Grid()[i]);
    }
    assert FirstFailure(glob, j, k);
  }
}
