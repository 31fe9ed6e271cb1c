/** `partitionfunc(n, k, l)` of models/area4.py: the generator of the
    non-decreasing k-tuples of integers, each at least l, that sum to n.  The
    generator is modelled as the finite sequence of tuples it yields, in
    order; `raise StopIteration` is modelled as the end of the generator. */
module Partition {

  function Total(t: seq<int>): int
  {
    if |t| == 0 then 0 else t[0] + Total(t[1..])
  }

  predicate NonDecreasing(t: seq<int>)
  {
    forall i, j :: 0 <= i < j < |t| ==> t[i] <= t[j]
  }

  predicate AtLeast(t: seq<int>, l: int)
  {
    forall i :: 0 <= i < |t| ==> t[i] >= l
  }

  /** What the docstring promises of every tuple: k entries, each at least l,
      in non-decreasing order, summing to n. */
  predicate IsPartition(t: seq<int>, n: int, k: int, l: int)
  {
    |t| == k && Total(t) == n && NonDecreasing(t) && AtLeast(t, l)
  }

  /** `partitionfunc(n, k, l)`. */
  function Partitions(n: int, k: int, l: int): seq<seq<int>>
    decreases k, 1, 0
  {
    if k < 1 then []
    else if k == 1 then (if n >= l then [[n]] else [])
    else PartsFrom(n, k, l)
  }

  /** The loop `for i in range(l, n + 1)`, from a given i on: every tuple of
      `partitionfunc(n - i, k - 1, i)` with i in front, then the rest of the
      loop. */
  function PartsFrom(n: int, k: int, i: int): seq<seq<int>>
    requires k >= 2
    decreases k, 0, n + 1 - i
  {
    if i > n then [] else Prepend(i, Partitions(n - i, k - 1, i)) + PartsFrom(n, k, i + 1)
  }

  /** `(i,) + result` for every result, in order. */
  function Prepend<T>(i: T, rs: seq<seq<T>>): (r: seq<seq<T>>)
    ensures |r| == |rs|
    ensures forall j :: 0 <= j < |rs| ==> r[j] == [i] + rs[j]
  {
    seq(|rs|, j requires 0 <= j < |rs| => [i] + rs[j])
  }

  // ---------------------------------------------------------------- soundness

  /** A tuple with i in front of a partition of n - i into k - 1 parts, each
      at least i, is a partition of n into k parts, each at least i. */
  lemma PrependPartition(i: int, r: seq<int>, n: int, k: int)
    requires IsPartition(r, n - i, k - 1, i)
    ensures IsPartition([i] + r, n, k, i)
  {
    var t := [i] + r;
    assert t[1..] == r;
    forall a, b | 0 <= a < b < |t|
      ensures t[a] <= t[b]
    {
      if a > 0 {
        assert t[a] == r[a - 1] && t[b] == r[b - 1];
      }
    }
  }

  /** Every tuple `partitionfunc` yields is what the docstring promises. */
  lemma {:induction false} PartitionsSound(n: int, k: int, l: int)
    ensures forall t :: t in Partitions(n, k, l) ==> IsPartition(t, n, k, l)
    decreases k, 1, 0
  {
    if k == 1 && n >= l {
      assert Total([n]) == n;
    } else if k >= 2 {
      PartsFromSound(n, k, l);
    }
  }

  /** Every tuple yielded from loop index i on is a partition with all parts at
      least i, and it starts with a loop index between i and n. */
  lemma {:induction false} PartsFromSound(n: int, k: int, i: int)
    requires k >= 2
    ensures forall t :: t in PartsFrom(n, k, i) ==> IsPartition(t, n, k, i) && i <= t[0] <= n
    decreases k, 0, n + 1 - i
  {
    if i <= n {
      var rs := Partitions(n - i, k - 1, i);
      PartitionsSound(n - i, k - 1, i);
      PartsFromSound(n, k, i + 1);
      forall t | t in PartsFrom(n, k, i)
        ensures IsPartition(t, n, k, i) && i <= t[0] <= n
      {
        if t in Prepend(i, rs) {
          var j :| 0 <= j < |rs| && Prepend(i, rs)[j] == t;
          PrependPartition(i, rs[j], n, k);
        } else {
          assert t in PartsFrom(n, k, i + 1);
          assert t[0] >= i + 1;
        }
      }
    }
  }

  /** `k < 1` yields nothing, and `k == 1` yields the single tuple (n,)
      exactly when n >= l. */
  lemma PartitionsShort(n: int, k: int, l: int)
    requires k <= 1
    ensures k < 1 ==> |Partitions(n, k, l)| == 0
    ensures k == 1 ==> (|Partitions(n, k, l)| == 1 <==> n >= l)
    ensures k == 1 ==> forall t :: t in Partitions(n, k, l) ==> t == [n]
  {
  }

  // ------------------------------------------------------------------- order

  /** Python's tuple `<` on tuples of the same length: the first differing
      entry decides. */
  predicate LexLess(a: seq<int>, b: seq<int>)
    decreases |a|
  {
    |a| > 0 && |b| > 0 && (a[0] < b[0] || (a[0] == b[0] && LexLess(a[1..], b[1..])))
  }

  /** No tuple is below itself. */
  lemma {:induction false} LexLessIrreflexive(a: seq<int>)
    ensures !LexLess(a, a)
    decreases |a|
  {
    if |a| > 0 {
      LexLessIrreflexive(a[1..]);
    }
  }

  predicate StrictlyAscending(rs: seq<seq<int>>)
  {
    forall i, j :: 0 <= i < j < |rs| ==> LexLess(rs[i], rs[j])
  }

  /** Putting the same entry in front keeps the order. */
  lemma PrependAscending(i: int, rs: seq<seq<int>>)
    requires StrictlyAscending(rs)
    ensures StrictlyAscending(Prepend(i, rs))
  {
    var ps := Prepend(i, rs);
    forall a, b | 0 <= a < b < |ps|
      ensures LexLess(ps[a], ps[b])
    {
      assert ps[a][1..] == rs[a] && ps[b][1..] == rs[b];
    }
  }

  /** Two ascending runs, every tuple of the first below every tuple of the
      second, make an ascending run. */
  lemma ConcatAscending(xs: seq<seq<int>>, ys: seq<seq<int>>)
    requires StrictlyAscending(xs) && StrictlyAscending(ys)
    requires forall x, y :: x in xs && y in ys ==> LexLess(x, y)
    ensures StrictlyAscending(xs + ys)
  {
    var zs := xs + ys;
    forall a, b | 0 <= a < b < |zs|
      ensures LexLess(zs[a], zs[b])
    {
      if b < |xs| {
        assert zs[a] == xs[a] && zs[b] == xs[b];
      } else if a >= |xs| {
        assert zs[a] == ys[a - |xs|] && zs[b] == ys[b - |xs|];
      } else {
        assert zs[a] in xs && zs[b] in ys;
      }
    }
  }

  /** `partitionfunc` yields its tuples in strictly ascending lexicographic
      order. */
  lemma {:induction false} PartitionsAscending(n: int, k: int, l: int)
    ensures StrictlyAscending(Partitions(n, k, l))
    decreases k, 1, 0
  {
    if k >= 2 {
      PartsFromAscending(n, k, l);
    }
  }

  lemma {:induction false} PartsFromAscending(n: int, k: int, i: int)
    requires k >= 2
    ensures StrictlyAscending(PartsFrom(n, k, i))
    decreases k, 0, n + 1 - i
  {
    if i <= n {
      var rs := Partitions(n - i, k - 1, i);
      var xs, ys := Prepend(i, rs), PartsFrom(n, k, i + 1);
      PartitionsAscending(n - i, k - 1, i);
      PrependAscending(i, rs);
      PartsFromAscending(n, k, i + 1);
      PartsFromSound(n, k, i + 1);
      forall x, y | x in xs && y in ys
        ensures LexLess(x, y)
      {
        var j :| 0 <= j < |xs| && xs[j] == x;
        assert x[0] == i && |y| == k;
      }
      ConcatAscending(xs, ys);
    }
  }

  /** Hence no tuple is yielded twice. */
  lemma PartitionsDistinct(n: int, k: int, l: int)
    ensures forall a, b :: 0 <= a < b < |Partitions(n, k, l)| ==> Partitions(n, k, l)[a] != Partitions(n, k, l)[b]
  {
    var ps := Partitions(n, k, l);
    PartitionsAscending(n, k, l);
    forall a, b | 0 <= a < b < |ps|
      ensures ps[a] != ps[b]
    {
      LexLessIrreflexive(ps[a]);
    }
  }

  // ------------------------------------------------------------ completeness

  lemma {:induction false} TotalAtLeast(t: seq<int>, l: int)
    requires AtLeast(t, l)
    ensures Total(t) >= |t| * l
  {
    if |t| > 0 {
      TotalAtLeast(t[1..], l);
    }
  }

  /** The loop from index j reaches every i with j <= i <= n. */
  lemma {:induction false} PartsFromReaches(n: int, k: int, j: int, i: int, t: seq<int>)
    requires k >= 2 && j <= i <= n
    requires t in Prepend(i, Partitions(n - i, k - 1, i))
    ensures t in PartsFrom(n, k, j)
    decreases i - j
  {
    if j < i {
      PartsFromReaches(n, k, j + 1, i, t);
    }
  }

  /** Splitting the first part off a partition leaves a partition of the
      rest with every part at least the first. */
  lemma TailPartition(t: seq<int>, n: int, k: int, l: int)
    requires k >= 2 && IsPartition(t, n, k, l)
    ensures t == [t[0]] + t[1..] && t[0] >= l
    ensures IsPartition(t[1..], n - t[0], k - 1, t[0])
  {
    var rest := t[1..];
    forall a | 0 <= a < |rest|
      ensures rest[a] >= t[0]
    {
      assert rest[a] == t[a + 1];
    }
    forall a, b | 0 <= a < b < |rest|
      ensures rest[a] <= rest[b]
    {
      assert rest[a] == t[a + 1] && rest[b] == t[b + 1];
    }
  }

  /** For a non-negative minimum and at least one part, every tuple the
      docstring describes is yielded.  (For k = 0 the empty tuple is a
      partition of 0, but the generator yields nothing.) */
  lemma {:induction false} PartitionsComplete(n: int, k: int, l: int, t: seq<int>)
    requires l >= 0 && k >= 1 && IsPartition(t, n, k, l)
    ensures t in Partitions(n, k, l)
    decreases k
  {
    if k == 1 {
      assert t == [t[0]] && Total(t) == t[0];
    } else {
      var i, rest := t[0], t[1..];
      TailPartition(t, n, k, l);
      TotalAtLeast(rest, i);
      NonNegativeProduct(k - 1, i);
      PartitionsComplete(n - i, k - 1, i, rest);
      var rs := Partitions(n - i, k - 1, i);
      var j :| 0 <= j < |rs| && rs[j] == rest;
      assert Prepend(i, rs)[j] == t;
      PartsFromReaches(n, k, l, i, t);
      assert Partitions(n, k, l) == PartsFrom(n, k, l);
    }
  }

  lemma NonNegativeProduct(a: int, b: int)
    requires a >= 0 && b >= 0
    ensures a * b >= 0
  {
  }

  /** The completeness claim fails for a negative minimum: (-1, -1) is a
      non-decreasing pair of integers at least -5 summing to -2, but the loop
      stops at i = n = -2 before reaching -1. */
  lemma PartitionsMissNegative()
    ensures IsPartition([-1, -1], -2, 2, -5)
    ensures [-1, -1] !in Partitions(-2, 2, -5)
  {
    assert Total([-1, -1]) == -2 by {
      assert Total([-1]) == -1;
    }
    PartsFromSound(-2, 2, -5);
  }
}
