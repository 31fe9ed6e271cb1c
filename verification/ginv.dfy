/** The general sigma-pi invariant of models/ginv.py: `sigmaPi` sums, over a
    list of permutations, the product of the entries each permutation picks,
    and `prepare_permutation_matices` turns the permutation list into the
    matrices `sigmaPi` multiplies by.  The batch axis is dropped: a tensor
    `fin[b]` is `F[t][c][f]` below, with t the axis multiplied over (the
    vertex), c the output channel and f the feature picked. */
module Ginv {
  import opened Cyclic
  import opened RealSeqs
  import opened FourTerm

  type Matrix = seq<seq<real>>

  predicate IsSquare(P: Matrix, n: nat)
  {
    |P| == n && forall r :: 0 <= r < n ==> |P[r]| == n
  }

  /** Row j of the n x n identity. */
  function UnitRow(n: nat, j: int): (e: seq<real>)
    ensures |e| == n
    ensures forall c :: 0 <= c < n ==> e[c] == (if c == j then 1.0 else 0.0)
  {
    seq(n, c => if c == j then 1.0 else 0.0)
  }

  /** `np.eye(n)`. */
  function Identity(n: nat): (P: Matrix)
    ensures IsSquare(P, n)
    ensures forall r :: 0 <= r < n ==> P[r] == UnitRow(n, r)
  {
    seq(n, r => UnitRow(n, r))
  }

  /** `np.arange(n)`. */
  function Range(n: nat): (r: seq<int>)
    ensures |r| == n
    ensures forall i :: 0 <= i < n ==> r[i] == i
  {
    seq(n, i => i)
  }

  /** s picks, for every position, an index in 0 .. n-1 (repeats allowed). */
  predicate Indexes(s: seq<int>, n: nat)
  {
    |s| == n && forall t :: 0 <= t < n ==> 0 <= s[t] < n
  }

  predicate AllIndexes(ss: seq<seq<int>>, n: nat)
  {
    forall k :: 0 <= k < |ss| ==> Indexes(ss[k], n)
  }

  /** s rearranges 0 .. n-1. */
  predicate IsPermutation(s: seq<int>, n: nat)
  {
    Indexes(s, n) && multiset(s) == multiset(Range(n))
  }

  /** The matrix with a 1 in row s[t] of every column t. */
  function PermMatrix(s: seq<int>, n: nat): (P: Matrix)
    requires |s| == n
    ensures IsSquare(P, n)
    ensures forall f, t :: 0 <= f < n && 0 <= t < n ==> P[f][t] == (if s[t] == f then 1.0 else 0.0)
  {
    seq(n, f => seq(n, t requires 0 <= t < n => if s[t] == f then 1.0 else 0.0))
  }

  // --------------------------------------------------------------- permutations

  lemma {:induction false} RangeCount(n: nat, v: int)
    ensures multiset(Range(n))[v] == (if 0 <= v < n then 1 else 0)
  {
    if n > 0 {
      RangeCount(n - 1, v);
      assert Range(n) == Range(n - 1) + [n - 1];
    }
  }

  /** Two positions holding the same value count it twice. */
  lemma TwiceCounted(s: seq<int>, t: int, u: int)
    requires 0 <= t < u < |s| && s[t] == s[u]
    ensures multiset(s)[s[t]] >= 2
  {
    assert s == s[..t] + [s[t]] + s[t + 1..u] + [s[u]] + s[u + 1..];
  }

  /** A permutation of 0 .. n-1 is a bijection of 0 .. n-1: its entries are
      distinct and cover every index. */
  lemma PermutationFacts(s: seq<int>, n: nat)
    requires IsPermutation(s, n)
    ensures forall t, u :: 0 <= t < u < n ==> s[t] != s[u]
    ensures forall f :: 0 <= f < n ==> f in s
  {
    forall t, u | 0 <= t < u < n
      ensures s[t] != s[u]
    {
      if s[t] == s[u] {
        TwiceCounted(s, t, u);
        RangeCount(n, s[t]);
      }
    }
    forall f | 0 <= f < n
      ensures f in s
    {
      RangeCount(n, f);
      assert f in multiset(s);
    }
  }

  // ---------------------------------------------- prepare_permutation_matices

  /** numpy's reading of an index v into an axis of length n: a negative
      index counts from the end. */
  function Wrap(v: int, n: nat): int
  {
    if v < 0 then v + n else v
  }

  function Wrapped(x: seq<int>, n: nat): (w: seq<int>)
    ensures |w| == |x|
    ensures forall j :: 0 <= j < |x| ==> w[j] == Wrap(x[j], n)
  {
    seq(|x|, j requires 0 <= j < |x| => Wrap(x[j], n))
  }

  /** `p[i, x, :] = p1[np.arange(n)]` can be carried out: i is one of the m
      matrices, the n rows of the identity broadcast onto |x| target rows
      (|x| == n, or n == 1), and every entry of x indexes a row. */
  predicate StepOk(x: seq<int>, i: int, n: nat, m: nat)
  {
    0 <= i < m && (|x| == n || n == 1) && forall j :: 0 <= j < |x| ==> -(n as int) <= x[j] < n
  }

  /** The last position of x aiming at row r, or -1 when none does. */
  function LastHit(x: seq<int>, n: nat, r: int): (j: int)
    ensures -1 <= j < |x|
    ensures j >= 0 ==> Wrap(x[j], n) == r
    ensures forall j' :: j < j' < |x| ==> Wrap(x[j'], n) != r
    decreases |x|
  {
    if |x| == 0 then -1
    else if Wrap(x[|x| - 1], n) == r then |x| - 1
    else LastHit(x[..|x| - 1], n, r)
  }

  /** `p[i, x, :] = p1[np.arange(n)]` on one matrix: row x[j] becomes row j of
      the identity (row 0 when n == 1, by broadcasting), and rows no entry
      of x aims at are kept.  When several entries aim at one row, the model
      keeps the last assignment. */
  function AssignRows(P: Matrix, x: seq<int>, n: nat): (Q: Matrix)
    requires IsSquare(P, n)
    ensures IsSquare(Q, n)
  {
    seq(n, r requires 0 <= r < n =>
      var j := LastHit(x, n, r);
      if j < 0 then P[r] else UnitRow(n, if n == 1 then 0 else j))
  }

  /** What `prepare_permutation_matices` returns, or the position in perm at
      which numpy raises. */
  datatype Prepared = Prepared(mats: seq<Matrix>) | Failed(at: nat)

  /** `prepare_permutation_matices(perm, n, m)`. */
  function Prepare(perm: seq<seq<int>>, n: nat, m: nat): Prepared
  {
    PrepareFrom(perm, n, m, 0, seq(m, k => Identity(n)))
  }

  /** The loop over `enumerate(perm)` from position i on. */
  function PrepareFrom(perm: seq<seq<int>>, n: nat, m: nat, i: nat, ps: seq<Matrix>): Prepared
    requires i <= |perm| && |ps| == m
    requires forall k :: 0 <= k < m ==> IsSquare(ps[k], n)
    decreases |perm| - i
  {
    if i == |perm| then Prepared(ps)
    else if !StepOk(perm[i], i, n, m) then Failed(i)
    else PrepareFrom(perm, n, m, i + 1, ps[i := AssignRows(ps[i], perm[i], n)])
  }

  lemma {:induction false} PrepareFromOutcome(perm: seq<seq<int>>, n: nat, m: nat, i: nat, ps: seq<Matrix>)
    requires i <= |perm| && |ps| == m
    requires forall k :: 0 <= k < m ==> IsSquare(ps[k], n)
    requires forall j :: 0 <= j < i ==> StepOk(perm[j], j, n, m)
    requires forall k :: 0 <= k < m ==> ps[k] == (if k < i then AssignRows(Identity(n), perm[k], n) else Identity(n))
    ensures var r := PrepareFrom(perm, n, m, i, ps);
      (r.Prepared? <==> forall j :: 0 <= j < |perm| ==> StepOk(perm[j], j, n, m)) &&
      (r.Failed? ==> r.at < |perm| && !StepOk(perm[r.at], r.at, n, m) && forall j :: 0 <= j < r.at ==> StepOk(perm[j], j, n, m)) &&
      (r.Prepared? ==> |r.mats| == m && forall k :: 0 <= k < m ==>
         r.mats[k] == (if k < |perm| then AssignRows(Identity(n), perm[k], n) else Identity(n)))
    decreases |perm| - i
  {
    if i < |perm| && StepOk(perm[i], i, n, m) {
      var ps' := ps[i := AssignRows(ps[i], perm[i], n)];
      PrepareFromOutcome(perm, n, m, i + 1, ps');
    }
  }

  /** The function returns exactly when every assignment can be carried out;
      otherwise it raises at the first one that cannot.  On success there are
      m matrices: matrix i for i < |perm| is the identity with the rows perm[i]
      aims at overwritten, and the rest are the identity. */
  lemma PrepareOutcome(perm: seq<seq<int>>, n: nat, m: nat)
    ensures Prepare(perm, n, m).Prepared? <==> forall i :: 0 <= i < |perm| ==> StepOk(perm[i], i, n, m)
    ensures Prepare(perm, n, m).Failed? ==>
      var at := Prepare(perm, n, m).at;
      at < |perm| && !StepOk(perm[at], at, n, m) && forall i :: 0 <= i < at ==> StepOk(perm[i], i, n, m)
    ensures Prepare(perm, n, m).Prepared? ==>
      var ps := Prepare(perm, n, m).mats;
      |ps| == m && forall k :: 0 <= k < m ==>
        ps[k] == (if k < |perm| then AssignRows(Identity(n), perm[k], n) else Identity(n))
  {
    PrepareFromOutcome(perm, n, m, 0, seq(m, k => Identity(n)));
  }

  /** Row r of a prepared matrix: if some entry of x aims at r, it is row j of
      the identity for such an entry j (row 0 when n == 1); otherwise it stays
      row r of the identity. */
  lemma AssignedRow(x: seq<int>, n: nat, r: nat)
    requires r < n
    ensures (exists j :: 0 <= j < |x| && Wrap(x[j], n) == r) ==>
      exists j :: 0 <= j < |x| && Wrap(x[j], n) == r &&
        AssignRows(Identity(n), x, n)[r] == UnitRow(n, if n == 1 then 0 else j)
    ensures (forall j :: 0 <= j < |x| ==> Wrap(x[j], n) != r) ==>
      AssignRows(Identity(n), x, n)[r] == UnitRow(n, r)
  {
    var j := LastHit(x, n, r);
    if exists j' :: 0 <= j' < |x| && Wrap(x[j'], n) == r {
      assert j >= 0;
    }
  }

  /** When x (read with wrap-around) is a permutation of 0 .. n-1, the
      prepared matrix is its permutation matrix: exactly one 1 in every row
      and column, in row x[t] of column t. */
  lemma PreparedPermutation(x: seq<int>, n: nat)
    requires IsPermutation(Wrapped(x, n), n)
    ensures AssignRows(Identity(n), x, n) == PermMatrix(Wrapped(x, n), n)
  {
    var w := Wrapped(x, n);
    PermutationFacts(w, n);
    var Q, P := AssignRows(Identity(n), x, n), PermMatrix(w, n);
    forall r | 0 <= r < n
      ensures Q[r] == P[r]
    {
      assert r in w;
      var t :| 0 <= t < n && w[t] == r;
      var j := LastHit(x, n, r);
      assert j == t;
      assert n == 1 ==> j == 0;
      forall c | 0 <= c < n
        ensures Q[r][c] == P[r][c]
      {
        assert w[c] == r <==> c == t;
      }
    }
  }

  /** `v @ P` for a row vector v. */
  function RowTimes(v: seq<real>, P: Matrix, n: nat): (y: seq<real>)
    requires |v| == n && IsSquare(P, n)
    ensures |y| == n
  {
    seq(n, j requires 0 <= j < n => Sum(seq(n, f requires 0 <= f < n => v[f] * P[f][j])))
  }

  /** Multiplying by the matrix of s picks entries: (v P)[j] == v[s[j]]. */
  lemma RowTimesPermMatrix(v: seq<real>, s: seq<int>, n: nat, j: nat)
    requires |v| == n && Indexes(s, n) && j < n
    ensures RowTimes(v, PermMatrix(s, n), n)[j] == v[s[j]]
  {
    var P := PermMatrix(s, n);
    var terms := seq(n, f requires 0 <= f < n => v[f] * P[f][j]);
    SumOneNonZero(terms, s[j]);
  }

  // ------------------------------------------------------------------ sigmaPi

  /** `fin[b]` has at least n entries along the axis multiplied over, each of
      them `channels` rows of n features. */
  predicate WellShaped(F: seq<seq<seq<real>>>, n: nat, channels: nat)
  {
    n <= |F| && forall t :: 0 <= t < n ==> |F[t]| == channels && forall c :: 0 <= c < channels ==> |F[t][c]| == n
  }

  predicate AllSquare(ps: seq<Matrix>, n: nat)
  {
    forall k :: 0 <= k < |ps| ==> IsSquare(ps[k], n)
  }

  /** `sigmaPi(fin, m, n, p)`: after the transpose, tile and matrix product,
      entry (t, t) of `fin[t][c] @ p[k]` is kept for t < n, multiplied over t
      and summed over the m matrices. */
  function SigmaPi(F: seq<seq<seq<real>>>, m: nat, n: nat, channels: nat, ps: seq<Matrix>): (y: seq<real>)
    requires WellShaped(F, n, channels) && |ps| == m && AllSquare(ps, n)
    ensures |y| == channels
  {
    seq(channels, c requires 0 <= c < channels =>
      Sum(seq(m, k requires 0 <= k < m =>
        Prod(seq(n, t requires 0 <= t < n => RowTimes(F[t][c], ps[k], n)[t])))))
  }

  /** The product of the entries one index choice s picks: feature s[t] of
      position t, for every t < n. */
  function Term(F: seq<seq<seq<real>>>, n: nat, channels: nat, c: nat, s: seq<int>): real
    requires WellShaped(F, n, channels) && c < channels && Indexes(s, n)
  {
    Prod(seq(n, t requires 0 <= t < n => F[t][c][s[t]]))
  }

  /** The reference reading of the sigma-pi sum over a list of index
      choices. */
  function PermSum(F: seq<seq<seq<real>>>, n: nat, channels: nat, c: nat, ss: seq<seq<int>>): real
    requires WellShaped(F, n, channels) && c < channels
    requires AllIndexes(ss, n)
  {
    if |ss| == 0 then 0.0 else Term(F, n, channels, c, ss[0]) + PermSum(F, n, channels, c, ss[1..])
  }

  lemma {:induction false} PermSumIsSum(F: seq<seq<seq<real>>>, n: nat, channels: nat, c: nat, ss: seq<seq<int>>)
    requires WellShaped(F, n, channels) && c < channels
    requires AllIndexes(ss, n)
    ensures Sum(seq(|ss|, k requires 0 <= k < |ss| => Term(F, n, channels, c, ss[k]))) == PermSum(F, n, channels, c, ss)
  {
    if |ss| > 0 {
      var terms := seq(|ss|, k requires 0 <= k < |ss| => Term(F, n, channels, c, ss[k]));
      PermSumIsSum(F, n, channels, c, ss[1..]);
      assert terms[1..] == seq(|ss| - 1, k requires 0 <= k < |ss| - 1 => Term(F, n, channels, c, ss[1..][k]));
    }
  }

  /** One permutation matrix per index choice. */
  function PermMatrices(ss: seq<seq<int>>, n: nat): (ps: seq<Matrix>)
    requires AllIndexes(ss, n)
    ensures |ps| == |ss| && AllSquare(ps, n)
    ensures forall k :: 0 <= k < |ss| ==> ps[k] == PermMatrix(ss[k], n)
  {
    seq(|ss|, k requires 0 <= k < |ss| && Indexes(ss[k], n) => PermMatrix(ss[k], n))
  }

  /** With permutation matrices, `sigmaPi` is the sigma-pi sum over the index
      choices the matrices encode. */
  lemma SigmaPiOfPermMatrices(F: seq<seq<seq<real>>>, n: nat, channels: nat, ss: seq<seq<int>>)
    requires WellShaped(F, n, channels) && AllIndexes(ss, n)
    ensures forall c :: 0 <= c < channels ==>
      SigmaPi(F, |ss|, n, channels, PermMatrices(ss, n))[c] == PermSum(F, n, channels, c, ss)
  {
    forall c | 0 <= c < channels
      ensures SigmaPi(F, |ss|, n, channels, PermMatrices(ss, n))[c] == PermSum(F, n, channels, c, ss)
    {
      SigmaPiOfPermMatricesAt(F, n, channels, ss, |ss|, c);
    }
  }

  lemma SigmaPiOfPermMatricesAt(F: seq<seq<seq<real>>>, n: nat, channels: nat, ss: seq<seq<int>>, m: nat, c: nat)
    requires WellShaped(F, n, channels) && AllIndexes(ss, n) && c < channels && m == |ss|
    ensures SigmaPi(F, m, n, channels, PermMatrices(ss, n))[c] == PermSum(F, n, channels, c, ss)
  {
    var ps := PermMatrices(ss, n);
    forall k | 0 <= k < m
      ensures Prod(seq(n, t requires 0 <= t < n => RowTimes(F[t][c], ps[k], n)[t])) == Term(F, n, channels, c, ss[k])
    {
      forall t | 0 <= t < n
        ensures RowTimes(F[t][c], ps[k], n)[t] == F[t][c][ss[k][t]]
      {
        RowTimesPermMatrix(F[t][c], ss[k], n, t);
      }
      assert seq(n, t requires 0 <= t < n => RowTimes(F[t][c], ps[k], n)[t])
          == seq(n, t requires 0 <= t < n => F[t][c][ss[k][t]]);
    }
    assert seq(m, k requires 0 <= k < m => Prod(seq(n, t requires 0 <= t < n => RowTimes(F[t][c], ps[k], n)[t])))
        == seq(m, k requires 0 <= k < m => Term(F, n, channels, c, ss[k]));
    PermSumIsSum(F, n, channels, c, ss);
  }

  /** What `fin @ p` makes of a stack of matrices whose length differs from m. */
  datatype SigmaPiResult = Computed(y: seq<real>) | ShapeMismatch

  /** `sigmaPi(fin, m, n, p)` with numpy's broadcasting of the matrix stack
      against the m tiled copies of `fin`: m matrices pair up one to one, a
      single matrix is used for every copy, and for m == 1 the one copy meets
      every matrix of the stack.  Any other pair of lengths cannot be
      broadcast. */
  function SigmaPiBroadcast(F: seq<seq<seq<real>>>, m: nat, n: nat, channels: nat, ps: seq<Matrix>): (r: SigmaPiResult)
    requires WellShaped(F, n, channels) && AllSquare(ps, n)
    ensures r.Computed? <==> (|ps| == m || |ps| == 1 || m == 1)
    ensures r.Computed? ==> |r.y| == channels
  {
    if |ps| == m then Computed(SigmaPi(F, m, n, channels, ps))
    else if |ps| == 1 then Computed(SigmaPi(F, m, n, channels, Repeat(ps[0], m)))
    else if m == 1 then Computed(SigmaPi(F, |ps|, n, channels, ps))
    else ShapeMismatch
  }

  /** With permutation matrices, a single broadcast matrix counts its term m
      times, and otherwise every given matrix counts once, whatever m is. */
  lemma SigmaPiBroadcastPermutations(F: seq<seq<seq<real>>>, m: nat, n: nat, channels: nat, ss: seq<seq<int>>, c: nat)
    requires WellShaped(F, n, channels) && AllIndexes(ss, n) && c < channels
    requires |ss| == m || |ss| == 1 || m == 1
    ensures SigmaPiBroadcast(F, m, n, channels, PermMatrices(ss, n)).Computed?
    ensures |ss| == 1 ==>
      SigmaPiBroadcast(F, m, n, channels, PermMatrices(ss, n)).y[c] == m as real * Term(F, n, channels, c, ss[0])
    ensures |ss| != 1 ==>
      SigmaPiBroadcast(F, m, n, channels, PermMatrices(ss, n)).y[c] == PermSum(F, n, channels, c, ss)
  {
    var ps := PermMatrices(ss, n);
    if |ss| == 1 && m == 1 {
      SigmaPiOfPermMatricesAt(F, n, channels, ss, 1, c);
      assert PermSum(F, n, channels, c, ss[1..]) == 0.0;
    } else if |ss| == 1 {
      var rs := Repeat(ss[0], m);
      assert AllIndexes(rs, n);
      assert Repeat(ps[0], m) == PermMatrices(rs, n);
      SigmaPiOfPermMatricesAt(F, n, channels, rs, m, c);
      PermSumRepeat(F, n, channels, c, ss[0], m);
    } else {
      SigmaPiOfPermMatricesAt(F, n, channels, ss, |ss|, c);
    }
  }

  /** The permutation list read with wrap-around. */
  function WrappedAll(perm: seq<seq<int>>, n: nat): (ws: seq<seq<int>>)
    ensures |ws| == |perm|
    ensures forall i :: 0 <= i < |perm| ==> ws[i] == Wrapped(perm[i], n)
  {
    seq(|perm|, i requires 0 <= i < |perm| => Wrapped(perm[i], n))
  }

  function Repeat<T>(x: T, k: nat): (r: seq<T>)
    ensures |r| == k && forall i :: 0 <= i < k ==> r[i] == x
  {
    seq(k, i => x)
  }

  lemma {:induction false} PermSumConcat(F: seq<seq<seq<real>>>, n: nat, channels: nat, c: nat, a: seq<seq<int>>, b: seq<seq<int>>)
    requires WellShaped(F, n, channels) && c < channels
    requires AllIndexes(a, n)
    requires AllIndexes(b, n)
    ensures PermSum(F, n, channels, c, a + b) == PermSum(F, n, channels, c, a) + PermSum(F, n, channels, c, b)
  {
    if |a| > 0 {
      assert (a + b)[1..] == a[1..] + b;
      PermSumConcat(F, n, channels, c, a[1..], b);
    } else {
      assert a + b == b;
    }
  }

  lemma {:induction false} PermSumRepeat(F: seq<seq<seq<real>>>, n: nat, channels: nat, c: nat, s: seq<int>, k: nat)
    requires WellShaped(F, n, channels) && c < channels && Indexes(s, n)
    ensures PermSum(F, n, channels, c, Repeat(s, k)) == k as real * Term(F, n, channels, c, s)
  {
    if k > 0 {
      assert Repeat(s, k)[1..] == Repeat(s, k - 1);
      PermSumRepeat(F, n, channels, c, s, k - 1);
    }
  }

  /** The identity matrix is the matrix of the identity permutation. */
  lemma IdentityIsPermMatrix(n: nat)
    ensures Identity(n) == PermMatrix(Range(n), n)
  {
    forall r | 0 <= r < n
      ensures Identity(n)[r] == PermMatrix(Range(n), n)[r]
    {
    }
  }

  /** A list of at most m permutations (read with wrap-around) is prepared
      without error into their permutation matrices, followed by identities. */
  lemma PreparedPermutations(perm: seq<seq<int>>, n: nat, m: nat)
    requires |perm| <= m
    requires forall i :: 0 <= i < |perm| ==> IsPermutation(Wrapped(perm[i], n), n)
    ensures AllIndexes(WrappedAll(perm, n) + Repeat(Range(n), m - |perm|), n)
    ensures Prepare(perm, n, m).Prepared?
    ensures Prepare(perm, n, m).mats == PermMatrices(WrappedAll(perm, n) + Repeat(Range(n), m - |perm|), n)
  {
    var ws := WrappedAll(perm, n);
    forall i | 0 <= i < |perm|
      ensures StepOk(perm[i], i, n, m)
    {
      forall j | 0 <= j < |perm[i]|
        ensures -(n as int) <= perm[i][j] < n
      {
        assert 0 <= Wrapped(perm[i], n)[j] < n;
      }
    }
    PrepareOutcome(perm, n, m);
    var ps := Prepare(perm, n, m).mats;
    var ss := ws + Repeat(Range(n), m - |perm|);
    assert AllIndexes(ss, n);
    IdentityIsPermMatrix(n);
    forall k | 0 <= k < m
      ensures ps[k] == PermMatrices(ss, n)[k]
    {
      if k < |perm| {
        PreparedPermutation(perm[k], n);
      }
    }
  }

  /** Preparing a list of at most m permutations and applying `sigmaPi` gives
      the sigma-pi sum over the list, plus one identity term for every one of
      the m - |perm| matrices left as the identity. */
  lemma PreparedSigmaPi(F: seq<seq<seq<real>>>, perm: seq<seq<int>>, n: nat, m: nat, channels: nat)
    requires WellShaped(F, n, channels) && |perm| <= m
    requires forall i :: 0 <= i < |perm| ==> IsPermutation(Wrapped(perm[i], n), n)
    ensures AllIndexes(WrappedAll(perm, n), n)
    ensures Prepare(perm, n, m).Prepared?
    ensures var ps := Prepare(perm, n, m).mats;
      |ps| == m && AllSquare(ps, n) &&
      forall c :: 0 <= c < channels ==>
        SigmaPi(F, m, n, channels, ps)[c] ==
          PermSum(F, n, channels, c, WrappedAll(perm, n)) + (m - |perm|) as real * Term(F, n, channels, c, Range(n))
  {
    var ws := WrappedAll(perm, n);
    var k := m - |perm|;
    var ss := ws + Repeat(Range(n), k);
    PreparedPermutations(perm, n, m);
    WrappedAllIndexes(perm, n);
    forall c | 0 <= c < channels
      ensures SigmaPi(F, m, n, channels, PermMatrices(ss, n))[c] ==
        PermSum(F, n, channels, c, ws) + k as real * Term(F, n, channels, c, Range(n))
    {
      SigmaPiOfPermMatricesAt(F, n, channels, ss, m, c);
      PermSumWithIdentities(F, n, channels, ws, k, c);
    }
  }

  /** Wrapped permutations pick valid indexes. */
  lemma WrappedAllIndexes(perm: seq<seq<int>>, n: nat)
    requires forall i :: 0 <= i < |perm| ==> IsPermutation(Wrapped(perm[i], n), n)
    ensures AllIndexes(WrappedAll(perm, n), n)
  {
  }

  /** The identity choice, repeated, picks valid indexes. */
  lemma IdentityIndexes(n: nat, k: nat)
    ensures Indexes(Range(n), n)
    ensures AllIndexes(Repeat(Range(n), k), n)
  {
  }

  lemma PermSumWithIdentities(F: seq<seq<seq<real>>>, n: nat, channels: nat, ws: seq<seq<int>>, k: nat, c: nat)
    requires WellShaped(F, n, channels) && c < channels
    requires AllIndexes(ws, n)
    ensures PermSum(F, n, channels, c, ws + Repeat(Range(n), k)) ==
      PermSum(F, n, channels, c, ws) + k as real * Term(F, n, channels, c, Range(n))
  {
    var ids := Repeat(Range(n), k);
    IdentityIndexes(n, k);
    PermSumConcat(F, n, channels, c, ws, ids);
    PermSumRepeat(F, n, channels, c, Range(n), k);
  }

  // ------------------------------------------------- reordering and relabelling

  lemma {:induction false} PermSumRemoveAt(F: seq<seq<seq<real>>>, n: nat, channels: nat, c: nat, ss: seq<seq<int>>, i: nat)
    requires WellShaped(F, n, channels) && c < channels && i < |ss|
    requires AllIndexes(ss, n)
    ensures PermSum(F, n, channels, c, ss) ==
      Term(F, n, channels, c, ss[i]) + PermSum(F, n, channels, c, ss[..i] + ss[i + 1..])
  {
    if i > 0 {
      PermSumRemoveAt(F, n, channels, c, ss[1..], i - 1);
      assert ss[1..][..i - 1] + ss[1..][i..] == (ss[..i] + ss[i + 1..])[1..];
    } else {
      assert ss[..0] + ss[1..] == ss[1..];
    }
  }

  /** The order of the permutation list does not matter. */
  lemma {:induction false} PermSumReorder(F: seq<seq<seq<real>>>, n: nat, channels: nat, c: nat, ss: seq<seq<int>>, rs: seq<seq<int>>)
    requires WellShaped(F, n, channels) && c < channels
    requires AllIndexes(ss, n)
    requires multiset(ss) == multiset(rs)
    ensures AllIndexes(rs, n)
    ensures PermSum(F, n, channels, c, ss) == PermSum(F, n, channels, c, rs)
    decreases |ss|
  {
    forall k | 0 <= k < |rs|
      ensures Indexes(rs[k], n)
    {
      assert rs[k] in multiset(ss);
    }
    if |ss| == 0 {
      assert |rs| == |multiset(rs)| == 0;
    } else {
      var i := RemoveMatching(ss, rs);
      PermSumReorder(F, n, channels, c, ss[1..], RemoveAt(rs, i));
      PermSumRemoveAt(F, n, channels, c, rs, i);
    }
  }

  /** `fin` with its first n positions relabelled: position t now holds what
      position tau[t] held. */
  function Relabel(F: seq<seq<seq<real>>>, tau: seq<int>, n: nat): (G: seq<seq<seq<real>>>)
    requires Indexes(tau, n) && n <= |F|
    ensures |G| == n && forall t :: 0 <= t < n ==> G[t] == F[tau[t]]
  {
    seq(n, t requires 0 <= t < n => F[tau[t]])
  }

  /** Relabelling the positions by a permutation tau turns the term of s into
      the term of r, for r with r[tau[t]] == s[t]. */
  lemma RelabelTerm(F: seq<seq<seq<real>>>, n: nat, channels: nat, c: nat, tau: seq<int>, s: seq<int>, r: seq<int>)
    requires WellShaped(F, n, channels) && c < channels && IsPermutation(tau, n)
    requires Indexes(s, n) && Indexes(r, n)
    requires forall t :: 0 <= t < n ==> r[tau[t]] == s[t]
    ensures Indexes(tau, n) && WellShaped(Relabel(F, tau, n), n, channels)
    ensures Term(Relabel(F, tau, n), n, channels, c, s) == Term(F, n, channels, c, r)
  {
    PermutationFacts(tau, n);
    var G := Relabel(F, tau, n);
    var h := (u: int) => if 0 <= u < n && u < |F| && c < |F[u]| && 0 <= r[u] < |F[u][c]| then F[u][c][r[u]] else 0.0;
    MapRearranged(h, tau, Range(n));
    assert seq(n, t requires 0 <= t < n => G[t][c][s[t]]) == MapSeq(h, tau);
    assert seq(n, t requires 0 <= t < n => F[t][c][r[t]]) == MapSeq(h, Range(n));
    ProdPermutation(MapSeq(h, tau), MapSeq(h, Range(n)));
  }

  /** Choice r_k composed with tau is choice s_k, for every k: r_k is s_k
      composed with the inverse of tau. */
  predicate Relabels(tau: seq<int>, ss: seq<seq<int>>, rs: seq<seq<int>>, n: nat)
    requires Indexes(tau, n) && |rs| == |ss| && AllIndexes(rs, n) && AllIndexes(ss, n)
  {
    forall k, t :: 0 <= k < |ss| && 0 <= t < n ==> rs[k][tau[t]] == ss[k][t]
  }

  /** Relabelling the positions by tau leaves the sigma-pi sum unchanged when
      the choices s_k composed with the inverse of tau are a rearrangement of
      the s_k themselves, as they are for a group containing tau. */
  lemma PermSumRelabel(F: seq<seq<seq<real>>>, n: nat, channels: nat, c: nat, tau: seq<int>, ss: seq<seq<int>>, rs: seq<seq<int>>)
    requires WellShaped(F, n, channels) && c < channels && IsPermutation(tau, n)
    requires AllIndexes(ss, n)
    requires |rs| == |ss| && AllIndexes(rs, n)
    requires Relabels(tau, ss, rs, n)
    requires multiset(rs) == multiset(ss)
    ensures Indexes(tau, n) && WellShaped(Relabel(F, tau, n), n, channels)
    ensures PermSum(Relabel(F, tau, n), n, channels, c, ss) == PermSum(F, n, channels, c, ss)
  {
    PermutationFacts(tau, n);
    RelabelTerms(F, n, channels, c, tau, ss, rs);
    PermSumReorder(F, n, channels, c, rs, ss);
  }

  lemma {:induction false} RelabelTerms(F: seq<seq<seq<real>>>, n: nat, channels: nat, c: nat, tau: seq<int>, ss: seq<seq<int>>, rs: seq<seq<int>>)
    requires WellShaped(F, n, channels) && c < channels && IsPermutation(tau, n) && Indexes(tau, n)
    requires AllIndexes(ss, n)
    requires |rs| == |ss| && AllIndexes(rs, n)
    requires Relabels(tau, ss, rs, n)
    ensures WellShaped(Relabel(F, tau, n), n, channels)
    ensures PermSum(Relabel(F, tau, n), n, channels, c, ss) == PermSum(F, n, channels, c, rs)
  {
    if |ss| > 0 {
      RelabelTerm(F, n, channels, c, tau, ss[0], rs[0]);
      RelabelTerms(F, n, channels, c, tau, ss[1..], rs[1..]);
    } else {
      assert WellShaped(Relabel(F, tau, n), n, channels);
    }
  }

  // ------------------------------------------------ the four-term special case

  /** sigma_k(t) = (t - k) mod 4 for k = 0 .. 3. */
  const CyclicPerms: seq<seq<int>> := [[0, 1, 2, 3], [3, 0, 1, 2], [2, 3, 0, 1], [1, 2, 3, 0]]

  /** The list holds the four rotations sigma_k(t) = (t - k) mod 4. */
  lemma CyclicPermsAreRotations()
    ensures |CyclicPerms| == 4
    ensures forall k, t :: 0 <= k < 4 && 0 <= t < 4 ==> CyclicPerms[k][t] == (t - k) % 4
  {
    forall k, t | 0 <= k < 4 && 0 <= t < 4
      ensures CyclicPerms[k][t] == (t - k) % 4
    {
      ModUnique(t - k, 4, if t < k then -1 else 0, CyclicPerms[k][t]);
    }
  }

  /** Rotation k is `np.arange(4)` rolled by k. */
  lemma CyclicPermIsRoll(k: nat)
    requires k < 4
    ensures CyclicPerms[k] == Roll(Range(4), k)
  {
    assert Range(4) == [0, 1, 2, 3];
    RollFour(Range(4), k);
  }

  /** Each rotation is a permutation of 0 .. 3, already free of negative
      indices. */
  lemma CyclicPermIsPermutation(k: nat)
    requires k < 4
    ensures IsPermutation(CyclicPerms[k], 4) && Wrapped(CyclicPerms[k], 4) == CyclicPerms[k]
  {
    var s := CyclicPerms[k];
    CyclicPermIsRoll(k);
    RollPermutes(Range(4), k);
    CyclicPermIndexes(k);
    forall t | 0 <= t < 4
      ensures Wrapped(s, 4)[t] == s[t]
    {
    }
  }

  lemma CyclicPermIndexes(k: nat)
    requires k < 4
    ensures Indexes(CyclicPerms[k], 4)
  {
    CyclicPermsAreRotations();
  }

  lemma CyclicPermsArePermutations()
    ensures forall k :: 0 <= k < 4 ==> IsPermutation(CyclicPerms[k], 4)
    ensures AllIndexes(CyclicPerms, 4) && WrappedAll(CyclicPerms, 4) == CyclicPerms
  {
    forall k | 0 <= k < 4
      ensures IsPermutation(CyclicPerms[k], 4) && Wrapped(CyclicPerms[k], 4) == CyclicPerms[k]
    {
      CyclicPermIsPermutation(k);
    }
    var ws := WrappedAll(CyclicPerms, 4);
    assert forall k :: 0 <= k < 4 ==> ws[k] == CyclicPerms[k];
  }

  /** The product of the four entries an index choice picks. */
  lemma TermFour(F: seq<seq<seq<real>>>, channels: nat, c: nat, s: seq<int>)
    requires WellShaped(F, 4, channels) && c < channels && Indexes(s, 4)
    ensures Term(F, 4, channels, c, s) == F[0][c][s[0]] * F[1][c][s[1]] * F[2][c][s[2]] * F[3][c][s[3]]
  {
    ProdFour(seq(4, t requires 0 <= t < 4 => F[t][c][s[t]]));
  }

  lemma PermSumFour(F: seq<seq<seq<real>>>, channels: nat, c: nat, ss: seq<seq<int>>)
    requires WellShaped(F, 4, channels) && c < channels && |ss| == 4 && AllIndexes(ss, 4)
    ensures PermSum(F, 4, channels, c, ss) ==
      Term(F, 4, channels, c, ss[0]) + Term(F, 4, channels, c, ss[1]) + Term(F, 4, channels, c, ss[2]) + Term(F, 4, channels, c, ss[3])
  {
    var t := seq(4, k requires 0 <= k < 4 => Term(F, 4, channels, c, ss[k]));
    assert ss[1..][1..][1..][1..] == [];
    assert PermSum(F, 4, channels, c, ss[1..][1..][1..]) == t[3];
    assert PermSum(F, 4, channels, c, ss[1..][1..]) == t[2] + t[3];
    assert PermSum(F, 4, channels, c, ss[1..]) == t[1] + (t[2] + t[3]);
  }

  /** With the four rotations, the sigma-pi sum of position t's channel
      vectors is the four-term cyclic sum of `GroupInvariance`. */
  lemma CyclicPermSumIsFourTerm(F: seq<seq<seq<real>>>, channels: nat, c: nat)
    requires WellShaped(F, 4, channels) && c < channels
    ensures AllIndexes(CyclicPerms, 4)
    ensures PermSum(F, 4, channels, c, CyclicPerms) == FourTermSum(F[0][c], F[1][c], F[2][c], F[3][c])
  {
    CyclicPermsArePermutations();
    PermSumFour(F, channels, c, CyclicPerms);
    CyclicPermTerms(F, channels, c);
  }

  /** The product each rotation picks out. */
  lemma CyclicPermTerms(F: seq<seq<seq<real>>>, channels: nat, c: nat)
    requires WellShaped(F, 4, channels) && c < channels
    requires AllIndexes(CyclicPerms, 4)
    ensures var a, b, d, e := F[0][c], F[1][c], F[2][c], F[3][c];
      Term(F, 4, channels, c, CyclicPerms[0]) == a[0] * b[1] * d[2] * e[3] &&
      Term(F, 4, channels, c, CyclicPerms[1]) == b[0] * d[1] * e[2] * a[3] &&
      Term(F, 4, channels, c, CyclicPerms[2]) == d[0] * e[1] * a[2] * b[3] &&
      Term(F, 4, channels, c, CyclicPerms[3]) == e[0] * a[1] * b[2] * d[3]
  {
    TermFour(F, channels, c, CyclicPerms[0]);
    TermFour(F, channels, c, CyclicPerms[1]);
    TermFour(F, channels, c, CyclicPerms[2]);
    TermFour(F, channels, c, CyclicPerms[3]);
  }

  /** `x` reshaped to (4 vertices, groups, 4 channels), channel j of group i
      being feature 4i + j, as `GroupInvariance` does before `sigmaPi`. */
  function GroupTensor(feats: seq<seq<real>>, g: nat): (F: seq<seq<seq<real>>>)
    requires |feats| == 4 && forall v :: 0 <= v < 4 ==> |feats[v]| == 4 * g
    ensures WellShaped(F, 4, g)
    ensures forall v, i :: 0 <= v < 4 && 0 <= i < g ==> F[v][i] == Channels(feats[v], GroupMajor, g, i)
  {
    seq(4, v requires 0 <= v < 4 => seq(g, i requires 0 <= i < g => Channels(feats[v], GroupMajor, g, i)))
  }

  /** The four rotations are prepared without error into their permutation
      matrices. */
  lemma PreparedCyclic()
    ensures AllIndexes(CyclicPerms, 4)
    ensures Prepare(CyclicPerms, 4, 4) == Prepared(PermMatrices(CyclicPerms, 4))
  {
    CyclicPermsArePermutations();
    PreparedPermutations(CyclicPerms, 4, 4);
    assert WrappedAll(CyclicPerms, 4) + Repeat(Range(4), 0) == CyclicPerms;
  }

  /** Preparing the four rotations and applying `sigmaPi` gives the
      four-term cyclic sum in every output channel. */
  lemma CyclicSigmaPi(F: seq<seq<seq<real>>>, channels: nat, c: nat)
    requires WellShaped(F, 4, channels) && c < channels
    ensures AllIndexes(CyclicPerms, 4)
    ensures SigmaPi(F, 4, 4, channels, PermMatrices(CyclicPerms, 4))[c] == FourTermSum(F[0][c], F[1][c], F[2][c], F[3][c])
  {
    CyclicPermsArePermutations();
    SigmaPiOfPermMatricesAt(F, 4, channels, CyclicPerms, 4, c);
    CyclicPermSumIsFourTerm(F, channels, c);
  }

  /** Preparing the four rotations and applying `sigmaPi` computes exactly
      the invariant features of `GroupInvariance`. */
  lemma SigmaPiIsGroupInvariance(feats: seq<seq<real>>, g: nat)
    requires |feats| == 4 && forall v :: 0 <= v < 4 ==> |feats[v]| == 4 * g
    ensures Prepare(CyclicPerms, 4, 4).Prepared?
    ensures var ps := Prepare(CyclicPerms, 4, 4).mats;
      |ps| == 4 && AllSquare(ps, 4) &&
      SigmaPi(GroupTensor(feats, g), 4, 4, g, ps) == InvariantFeatures(feats, g, GroupMajor)
  {
    var F := GroupTensor(feats, g);
    PreparedCyclic();
    var ps := PermMatrices(CyclicPerms, 4);
    var y, z := SigmaPi(F, 4, 4, g, ps), InvariantFeatures(feats, g, GroupMajor);
    forall i | 0 <= i < g
      ensures y[i] == z[i]
    {
      CyclicSigmaPi(F, g, i);
    }
  }

  /** Relabelling the positions by the rotation (3, 0, 1, 2), which is
      `tf.roll` by one, leaves the cyclic sigma-pi sum unchanged: the
      rotations form a group. */
  lemma CyclicPermSumRelabel(F: seq<seq<seq<real>>>, channels: nat, c: nat)
    requires WellShaped(F, 4, channels) && c < channels
    ensures AllIndexes(CyclicPerms, 4) && Indexes([3, 0, 1, 2], 4)
    ensures WellShaped(Relabel(F, [3, 0, 1, 2], 4), 4, channels)
    ensures PermSum(Relabel(F, [3, 0, 1, 2], 4), 4, channels, c, CyclicPerms) == PermSum(F, 4, channels, c, CyclicPerms)
  {
    CyclicPermsArePermutations();
    var tau := CyclicPerms[1];
    var rs := Roll(CyclicPerms, 1);
    RollFour(CyclicPerms, 1);
    RollPermutes(CyclicPerms, 1);
    RotationsCompose();
    PermSumRelabel(F, 4, channels, c, tau, CyclicPerms, rs);
  }

  /** Composing rotation k - 1 with rotation 1 gives rotation k. */
  lemma RotationsCompose()
    ensures AllIndexes(CyclicPerms, 4) && |Roll(CyclicPerms, 1)| == 4 && AllIndexes(Roll(CyclicPerms, 1), 4)
    ensures Relabels(CyclicPerms[1], CyclicPerms, Roll(CyclicPerms, 1), 4)
  {
    CyclicPermsArePermutations();
    var rs := Roll(CyclicPerms, 1);
    forall k | 0 <= k < 4
      ensures rs[k] == CyclicPerms[(k + 3) % 4]
    {
      RollCyclicPermsAt(k);
    }
    forall k, t | 0 <= k < 4 && 0 <= t < 4
      ensures rs[k][CyclicPerms[1][t]] == CyclicPerms[k][t]
    {
      RotationComposeAt(k, t);
    }
  }

  lemma RollCyclicPermsAt(k: nat)
    requires k < 4
    ensures Roll(CyclicPerms, 1)[k] == CyclicPerms[(k + 3) % 4]
  {
    RollAtLength(CyclicPerms, 4, 1, k);
    ModUnique(k - 1, 4, if k == 0 then -1 else 0, (k + 3) % 4);
  }

  lemma RotationComposeAt(k: nat, t: nat)
    requires k < 4 && t < 4
    ensures CyclicPerms[(k + 3) % 4][CyclicPerms[1][t]] == CyclicPerms[k][t]
  {
    CyclicPermsAreRotations();
    var r := CyclicPerms[1][t];
    assert r == (t + 3) % 4;
    assert CyclicPerms[(k + 3) % 4][r] == (r - (k + 3) % 4) % 4;
  }
}
