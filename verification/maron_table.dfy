/** The exponent table of `Maron`:
    `set(p for x in partitionfunc(4, 8, l=0) for p in permutations(x))`,
    every ordering of every non-decreasing 8-tuple of naturals summing to 4.
    It is shown to be exactly the set of all 8-tuples of naturals summing to
    4, of which there are 330. */
module MaronTable {
  import opened Partition
  import opened Cyclic

  // ------------------------------------------------------------ permutations

  /** `itertools.permutations(x)`: every ordering of the positions of x, in
      the library's order (first element chosen left to right, then the
      orderings of the remaining elements), duplicates included. */
  function Perms<T>(x: seq<T>): seq<seq<T>>
    decreases |x|, 1, 0
  {
    if |x| == 0 then [[]] else PermsFrom(x, 0)
  }

  /** The orderings that start with x[i], x[i+1], ... in turn. */
  function PermsFrom<T>(x: seq<T>, i: nat): seq<seq<T>>
    requires i <= |x|
    decreases |x|, 0, |x| - i
  {
    if i == |x| then [] else Prepend(x[i], Perms(RemoveAt(x, i))) + PermsFrom(x, i + 1)
  }

  /** Every yielded tuple is a rearrangement of x ... */
  lemma {:induction false} PermsSound<T>(x: seq<T>)
    ensures forall p :: p in Perms(x) ==> multiset(p) == multiset(x)
    decreases |x|, 1, 0
  {
    if |x| > 0 {
      PermsFromSound(x, 0);
    }
  }

  lemma {:induction false} PermsFromSound<T>(x: seq<T>, i: nat)
    requires i <= |x|
    ensures forall p :: p in PermsFrom(x, i) ==> multiset(p) == multiset(x)
    decreases |x|, 0, |x| - i
  {
    if i < |x| {
      var rs := Perms(RemoveAt(x, i));
      PermsSound(RemoveAt(x, i));
      PermsFromSound(x, i + 1);
      forall p | p in Prepend(x[i], rs)
        ensures multiset(p) == multiset(x)
      {
        PrependSound(x, i, rs, p);
      }
    }
  }

  /** Putting x[i] in front of a rearrangement of the rest rearranges x. */
  lemma PrependSound<T>(x: seq<T>, i: nat, rs: seq<seq<T>>, p: seq<T>)
    requires i < |x| && p in Prepend(x[i], rs)
    requires forall r :: r in rs ==> multiset(r) == multiset(RemoveAt(x, i))
    ensures multiset(p) == multiset(x)
  {
    var j :| 0 <= j < |rs| && Prepend(x[i], rs)[j] == p;
    RemoveAtMultiset(x, i);
    assert p == [x[i]] + rs[j] && rs[j] in rs;
    assert x[i] in multiset(x);
  }

  /** ... and every rearrangement of x is yielded. */
  lemma {:induction false} PermsComplete<T>(x: seq<T>, p: seq<T>)
    requires multiset(p) == multiset(x)
    ensures p in Perms(x)
    decreases |x|
  {
    if |x| == 0 {
      assert |p| == |multiset(p)| == 0;
    } else {
      assert |p| == |multiset(p)| == |x|;
      assert p[0] in multiset(x);
      var i :| 0 <= i < |x| && x[i] == p[0];
      assert p == [p[0]] + p[1..];
      RemoveAtMultiset(x, i);
      assert multiset(p[1..]) == multiset(RemoveAt(x, i));
      PermsComplete(RemoveAt(x, i), p[1..]);
      var rs := Perms(RemoveAt(x, i));
      var j :| 0 <= j < |rs| && rs[j] == p[1..];
      assert Prepend(x[i], rs)[j] == p;
      PermsFromReaches(x, 0, i, p);
    }
  }

  lemma {:induction false} PermsFromReaches<T>(x: seq<T>, j: nat, i: nat, p: seq<T>)
    requires j <= i < |x|
    requires p in Prepend(x[i], Perms(RemoveAt(x, i)))
    ensures p in PermsFrom(x, j)
    decreases i - j
  {
    if j < i {
      PermsFromReaches(x, j + 1, i, p);
    }
  }

  /** Hence p is among `permutations(x)` exactly when it is a rearrangement
      of x. */
  lemma PermsCharacterised<T>(x: seq<T>, p: seq<T>)
    ensures p in Perms(x) <==> multiset(p) == multiset(x)
  {
    PermsSound(x);
    if multiset(p) == multiset(x) {
      PermsComplete(x, p);
    }
  }

  // ------------------------------------------------------------------ sorting

  /** A non-decreasing rearrangement (insertion sort). */
  function Sort(t: seq<int>): (r: seq<int>)
    ensures multiset(r) == multiset(t)
    ensures NonDecreasing(r)
  {
    if |t| == 0 then [] else
      assert t == [t[0]] + t[1..];
      Insert(t[0], Sort(t[1..]))
  }

  function Insert(v: int, r: seq<int>): (s: seq<int>)
    requires NonDecreasing(r)
    ensures multiset(s) == multiset(r) + multiset{v}
    ensures NonDecreasing(s)
  {
    if |r| == 0 || v <= r[0] then [v] + r
    else
      var s := Insert(v, r[1..]);
      InsertAfterFirst(v, r, s);
      [r[0]] + s
  }

  /** Every entry of the tail with v inserted is at least the head, so the
      head can stay in front. */
  lemma InsertAfterFirst(v: int, r: seq<int>, s: seq<int>)
    requires NonDecreasing(r) && |r| > 0 && r[0] < v
    requires NonDecreasing(s) && multiset(s) == multiset(r[1..]) + multiset{v}
    ensures NonDecreasing([r[0]] + s)
    ensures multiset([r[0]] + s) == multiset(r) + multiset{v}
  {
    assert r == [r[0]] + r[1..];
    forall i | 0 <= i < |s|
      ensures r[0] <= s[i]
    {
      assert s[i] in multiset(s);
      if s[i] != v {
        assert s[i] in multiset(r[1..]);
        var j :| 0 <= j < |r[1..]| && r[1..][j] == s[i];
        assert r[j + 1] == s[i];
      }
    }
    var t := [r[0]] + s;
    forall i, j | 0 <= i < j < |t|
      ensures t[i] <= t[j]
    {
      if i > 0 {
        assert t[i] == s[i - 1] && t[j] == s[j - 1];
      } else {
        assert t[j] == s[j - 1];
      }
    }
  }

  // --------------------------------------------------------------- the sums

  lemma {:induction false} TotalRemoveAt(t: seq<int>, i: nat)
    requires i < |t|
    ensures Total(t) == t[i] + Total(RemoveAt(t, i))
  {
    if i > 0 {
      TotalRemoveAt(t[1..], i - 1);
      assert RemoveAt(t, i) == [t[0]] + RemoveAt(t[1..], i - 1);
    } else {
      assert RemoveAt(t, 0) == t[1..];
    }
  }

  /** Rearranging a tuple does not change its sum. */
  lemma {:induction false} TotalRearranged(a: seq<int>, b: seq<int>)
    requires multiset(a) == multiset(b)
    ensures Total(a) == Total(b)
    decreases |a|
  {
    if |a| > 0 {
      var i := RemoveMatching(a, b);
      TotalRemoveAt(b, i);
      assert a == [a[0]] + a[1..];
      TotalRearranged(a[1..], RemoveAt(b, i));
    } else {
      assert |b| == |multiset(b)| == 0;
    }
  }

  /** Rearranging a tuple keeps a lower bound on its entries. */
  lemma AtLeastRearranged(a: seq<int>, b: seq<int>, l: int)
    requires multiset(a) == multiset(b) && AtLeast(b, l)
    ensures AtLeast(a, l)
  {
    forall i | 0 <= i < |a|
      ensures a[i] >= l
    {
      assert a[i] in multiset(b);
    }
  }

  // -------------------------------------------------------- the table itself

  /** A k-tuple of naturals summing to n. */
  predicate IsComposition(t: seq<int>, n: int, k: int)
  {
    |t| == k && AtLeast(t, 0) && Total(t) == n
  }

  /** The set of rows built from `partitionfunc(n, k, 0)` and
      `permutations`. */
  function Table(n: int, k: int): set<seq<int>>
  {
    set x, p | x in Partitions(n, k, 0) && p in Perms(x) :: p
  }

  /** `Maron`'s table: n = 4, k = 8. */
  function ExponentTable(): set<seq<int>>
  {
    Table(4, 8)
  }

  /** The table holds exactly the k-tuples of naturals summing to n. */
  lemma TableCharacterised(n: int, k: int, t: seq<int>)
    requires k >= 1
    ensures t in Table(n, k) <==> IsComposition(t, n, k)
  {
    if t in Table(n, k) {
      var x :| x in Partitions(n, k, 0) && t in Perms(x);
      PartitionsSound(n, k, 0);
      PermsCharacterised(x, t);
      assert |t| == |multiset(t)| == |multiset(x)| == |x|;
      TotalRearranged(t, x);
      AtLeastRearranged(t, x, 0);
    }
    if IsComposition(t, n, k) {
      var x := Sort(t);
      assert |x| == |multiset(x)| == |multiset(t)| == |t|;
      TotalRearranged(x, t);
      AtLeastRearranged(x, t, 0);
      PartitionsComplete(n, k, 0, x);
      PermsCharacterised(x, t);
    }
  }

  // ------------------------------------------------------ counting the rows

  /** All k-tuples of naturals summing to n, in ascending order: first entry
      0, 1, ..., n, then the tuples for the rest. */
  function Compositions(n: int, k: nat): seq<seq<int>>
    decreases k, 1, 0
  {
    if k == 0 then (if n == 0 then [[]] else []) else CompositionsFrom(n, k, 0)
  }

  function CompositionsFrom(n: int, k: nat, j: int): seq<seq<int>>
    requires k >= 1
    decreases k, 0, n + 1 - j
  {
    if j > n then [] else Prepend(j, Compositions(n - j, k - 1)) + CompositionsFrom(n, k, j + 1)
  }

  /** The enumeration holds exactly the compositions. */
  lemma {:induction false} CompositionsSound(n: int, k: nat)
    ensures forall t :: t in Compositions(n, k) ==> IsComposition(t, n, k)
    decreases k, 1, 0
  {
    if k > 0 {
      CompositionsFromSound(n, k, 0);
    }
  }

  lemma {:induction false} CompositionsFromSound(n: int, k: nat, j: int)
    requires k >= 1 && j >= 0
    ensures forall t :: t in CompositionsFrom(n, k, j) ==> IsComposition(t, n, k) && j <= t[0]
    decreases k, 0, n + 1 - j
  {
    if j <= n {
      var rs := Compositions(n - j, k - 1);
      var xs, ys := Prepend(j, rs), CompositionsFrom(n, k, j + 1);
      assert CompositionsFrom(n, k, j) == xs + ys;
      CompositionsSound(n - j, k - 1);
      CompositionsFromSound(n, k, j + 1);
      forall t | t in xs + ys
        ensures IsComposition(t, n, k) && j <= t[0]
      {
        if t in xs {
          PrependComposition(n, k, j, rs, t);
        } else {
          assert t in ys;
        }
      }
    }
  }

  /** j in front of a composition of n - j into k - 1 parts is a composition
      of n into k parts. */
  lemma PrependComposition(n: int, k: nat, j: int, rs: seq<seq<int>>, t: seq<int>)
    requires k >= 1 && 0 <= j && t in Prepend(j, rs)
    requires forall r :: r in rs ==> IsComposition(r, n - j, k - 1)
    ensures IsComposition(t, n, k) && j <= t[0]
  {
    var i :| 0 <= i < |rs| && Prepend(j, rs)[i] == t;
    assert t == [j] + rs[i] && t[1..] == rs[i] && rs[i] in rs;
    assert Total(t) == j + Total(rs[i]);
    forall a | 0 <= a < |t|
      ensures t[a] >= 0
    {
      if a > 0 {
        assert t[a] == rs[i][a - 1];
      }
    }
  }

  lemma {:induction false} CompositionsComplete(n: int, k: nat, t: seq<int>)
    requires IsComposition(t, n, k)
    ensures t in Compositions(n, k)
    decreases k
  {
    if k == 0 {
      assert t == [];
    } else {
      var j, rest := t[0], t[1..];
      assert t == [j] + rest;
      assert AtLeast(rest, 0) by {
        forall a | 0 <= a < |rest|
          ensures rest[a] >= 0
        {
          assert rest[a] == t[a + 1];
        }
      }
      TotalAtLeast(rest, 0);
      CompositionsComplete(n - j, k - 1, rest);
      var rs := Compositions(n - j, k - 1);
      var i :| 0 <= i < |rs| && rs[i] == rest;
      assert Prepend(j, rs)[i] == t;
      CompositionsFromReaches(n, k, 0, j, t);
    }
  }

  lemma {:induction false} CompositionsFromReaches(n: int, k: nat, i: int, j: int, t: seq<int>)
    requires k >= 1 && i <= j <= n
    requires t in Prepend(j, Compositions(n - j, k - 1))
    ensures t in CompositionsFrom(n, k, i)
    decreases j - i
  {
    if i < j {
      CompositionsFromReaches(n, k, i + 1, j, t);
    }
  }

  /** The enumeration is strictly ascending, so it has no repeats. */
  lemma {:induction false} CompositionsAscending(n: int, k: nat)
    ensures StrictlyAscending(Compositions(n, k))
    decreases k, 1, 0
  {
    if k > 0 {
      CompositionsFromAscending(n, k, 0);
    }
  }

  lemma {:induction false} CompositionsFromAscending(n: int, k: nat, j: int)
    requires k >= 1 && j >= 0
    ensures StrictlyAscending(CompositionsFrom(n, k, j))
    decreases k, 0, n + 1 - j
  {
    if j <= n {
      var rs := Compositions(n - j, k - 1);
      var xs, ys := Prepend(j, rs), CompositionsFrom(n, k, j + 1);
      CompositionsAscending(n - j, k - 1);
      PrependAscending(j, rs);
      CompositionsFromAscending(n, k, j + 1);
      CompositionsFromSound(n, k, j + 1);
      forall x, y | x in xs && y in ys
        ensures LexLess(x, y)
      {
        var i :| 0 <= i < |xs| && xs[i] == x;
        assert x[0] == j && |y| == k;
      }
      ConcatAscending(xs, ys);
    }
  }

  /** The number of k-tuples of naturals summing to n, by the same recursion
      on the first entry. */
  function Count(n: int, k: nat): nat
    decreases k, 1, 0
  {
    if k == 0 then (if n == 0 then 1 else 0) else CountFrom(n, k, 0)
  }

  function CountFrom(n: int, k: nat, j: int): nat
    requires k >= 1
    decreases k, 0, n + 1 - j
  {
    if j > n then 0 else Count(n - j, k - 1) + CountFrom(n, k, j + 1)
  }

  lemma {:induction false} CompositionsCount(n: int, k: nat)
    ensures |Compositions(n, k)| == Count(n, k)
    decreases k, 1, 0
  {
    if k > 0 {
      CompositionsFromCount(n, k, 0);
    }
  }

  lemma {:induction false} CompositionsFromCount(n: int, k: nat, j: int)
    requires k >= 1
    ensures |CompositionsFrom(n, k, j)| == CountFrom(n, k, j)
    decreases k, 0, n + 1 - j
  {
    if j <= n {
      CompositionsCount(n - j, k - 1);
      CompositionsFromCount(n, k, j + 1);
    }
  }

  /** A sequence without repeats has as many distinct elements as entries. */
  lemma {:induction false} DistinctCardinality<T>(s: seq<T>)
    requires forall a, b :: 0 <= a < b < |s| ==> s[a] != s[b]
    ensures |set x | x in s| == |s|
  {
    if |s| > 0 {
      var rest := s[1..];
      DistinctCardinality(rest);
      assert (set x | x in s) == {s[0]} + (set x | x in rest) by {
        assert s == [s[0]] + rest;
      }
      assert s[0] !in (set x | x in rest);
    } else {
      assert (set x | x in s) == {};
    }
  }

  /** The table equals the set of the enumerated compositions. */
  lemma TableIsCompositions(n: int, k: nat)
    requires k >= 1
    ensures Table(n, k) == set t | t in Compositions(n, k)
  {
    forall t | t in Table(n, k)
      ensures t in Compositions(n, k)
    {
      TableCharacterised(n, k, t);
      CompositionsComplete(n, k, t);
    }
    forall t | t in Compositions(n, k)
      ensures t in Table(n, k)
    {
      CompositionsSound(n, k);
      TableCharacterised(n, k, t);
    }
  }

  /** So the table has Count(n, k) rows. */
  lemma TableSize(n: int, k: nat)
    requires k >= 1
    ensures |Table(n, k)| == Count(n, k)
  {
    var cs := Compositions(n, k);
    TableIsCompositions(n, k);
    CompositionsAscending(n, k);
    forall a, b | 0 <= a < b < |cs|
      ensures cs[a] != cs[b]
    {
      LexLessIrreflexive(cs[a]);
    }
    DistinctCardinality(cs);
    CompositionsCount(n, k);
  }

  /** `Maron`'s table has 330 rows: every 8-tuple of naturals summing to 4. */
  lemma ExponentTableSize()
    ensures forall t :: t in ExponentTable() <==> IsComposition(t, 4, 8)
    ensures |ExponentTable()| == 330
  {
    ExponentTableMembers();
    ExponentTableRows();
  }

  lemma ExponentTableMembers()
    ensures forall t :: t in ExponentTable() <==> IsComposition(t, 4, 8)
  {
    forall t
      ensures t in ExponentTable() <==> IsComposition(t, 4, 8)
    {
      TableCharacterised(4, 8, t);
    }
  }

  lemma ExponentTableRows()
    ensures |ExponentTable()| == 330
  {
    TableFourSize(8);
    assert 24 * |Table(4, 8)| == 8 * (8 + 1) * (8 + 2) * (8 + 3);
    assert 24 * |Table(4, 8)| == 7920;
    assert |Table(4, 8)| == 330;
    assert ExponentTable() == Table(4, 8);
  }

  /** The table of k-tuples summing to 4 has C(k + 3, 4) rows. */
  lemma TableFourSize(k: nat)
    requires k >= 1
    ensures 24 * |Table(4, k)| == k * (k + 1) * (k + 2) * (k + 3)
  {
    TableSize(4, k);
    CountSmallSums(k);
  }

  /** For sums n = 0 .. 4, Count(n, k) is the binomial coefficient
      C(n + k - 1, n): k (k + 1) ... (k + n - 1) / n!. */
  lemma {:induction false} CountSmallSums(k: nat)
    requires k >= 1
    ensures Count(0, k) == 1
    ensures Count(1, k) == k
    ensures 2 * Count(2, k) == k * (k + 1)
    ensures 6 * Count(3, k) == k * (k + 1) * (k + 2)
    ensures 24 * Count(4, k) == k * (k + 1) * (k + 2) * (k + 3)
    decreases k
  {
    CountZero(k);
    CountRowStep(k - 1);
    if k == 1 {
      assert Count(1, 0) == 0 && Count(2, 0) == 0 && Count(3, 0) == 0 && Count(4, 0) == 0;
    } else {
      CountSmallSums(k - 1);
      RisingStep(k);
    }
  }

  /** The arithmetic of Pascal's rule on the closed forms. */
  lemma RisingStep(k: int)
    ensures (k - 1) * k + 2 * k == k * (k + 1)
    ensures (k - 1) * k * (k + 1) + 3 * (k * (k + 1)) == k * (k + 1) * (k + 2)
    ensures (k - 1) * k * (k + 1) * (k + 2) + 4 * (k * (k + 1) * (k + 2)) == k * (k + 1) * (k + 2) * (k + 3)
  {
  }

  /** Dropping the smallest first entry: the tuples whose first entry is at
      least j + 1 correspond to those of a sum one less starting from j. */
  lemma {:induction false} CountFromShift(n: int, k: nat, j: int)
    requires k >= 1
    ensures CountFrom(n, k, j + 1) == CountFrom(n - 1, k, j)
    decreases n + 1 - j
  {
    if j + 1 <= n {
      CountFromShift(n, k, j + 1);
    }
  }

  /** Pascal's rule: a (k+1)-tuple summing to n starts with 0 (then k entries
      sum to n) or with at least 1 (then take 1 off it). */
  lemma CountPascal(n: int, k: nat)
    requires n >= 0
    ensures Count(n, k + 1) == Count(n, k) + Count(n - 1, k + 1)
  {
    CountFromShift(n, k + 1, 0);
  }

  /** One row from the previous: Count(n, k + 1) for n = 1 .. 4. */
  lemma CountRowStep(k: nat)
    ensures Count(1, k + 1) == Count(1, k) + Count(0, k + 1)
    ensures Count(2, k + 1) == Count(2, k) + Count(1, k + 1)
    ensures Count(3, k + 1) == Count(3, k) + Count(2, k + 1)
    ensures Count(4, k + 1) == Count(4, k) + Count(3, k + 1)
  {
    CountPascal(1, k);
    CountPascal(2, k);
    CountPascal(3, k);
    CountPascal(4, k);
  }

  lemma CountZero(k: nat)
    ensures Count(0, k) == 1
  {
    if k > 0 {
      CountPascal(0, k - 1);
      CountZero(k - 1);
    }
  }
}
