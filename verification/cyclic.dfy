/** Cyclic shifts of a sequence along one axis, as `tf.roll(x, s, axis)` does
    them, and the modular-arithmetic facts the invariance proofs rest on. */
module Cyclic {

  /** Euclidean remainders are unique: if a == q*n + r with 0 <= r < n, then
      r is a % n and q is a / n. */
  lemma ModUnique(a: int, n: int, q: int, r: int)
    requires n > 0 && 0 <= r < n && a == q * n + r
    ensures a % n == r && a / n == q
  {
    var q0, r0 := a / n, a % n;
    assert (q - q0) * n == r0 - r;
    if q > q0 {
      MulAtLeast(q - q0, n);
    } else if q < q0 {
      MulAtLeast(q0 - q, n);
    }
  }

  lemma MulAtLeast(k: int, n: int)
    requires k >= 1 && n > 0
    ensures k * n >= n
  {
    assert k * n == (k - 1) * n + n;
    assert (k - 1) * n >= 0;
  }

  /** Adding a multiple of n does not change the remainder modulo n. */
  lemma ModAddMultiple(a: int, k: int, n: int)
    requires n > 0
    ensures (a + k * n) % n == a % n
  {
    assert a == (a / n) * n + a % n;
    assert a + k * n == (a / n + k) * n + a % n;
    ModUnique(a + k * n, n, a / n + k, a % n);
  }

  /** Reducing before subtracting gives the same remainder. */
  lemma ModSubReduced(x: int, a: int, n: int)
    requires n > 0
    ensures (x % n - a) % n == (x - a) % n
  {
    assert x == (x / n) * n + x % n;
    assert x - a == (x % n - a) + (x / n) * n;
    ModAddMultiple(x % n - a, x / n, n);
  }

  /** `tf.roll(xs, s)`: the element at position i moves to position (i + s)
      mod n, so position i receives the element from (i - s) mod n (see
      `RollAt`). */
  function Roll<T>(xs: seq<T>, s: int): (r: seq<T>)
    ensures |r| == |xs|
  {
    seq(|xs|, i requires 0 <= i < |xs| => xs[ReduceShift(i - s, |xs|)])
  }

  /** The shift brought into 0 .. n-1 by adding or subtracting n. */
  function ReduceShift(s: int, n: int): (r: int)
    requires n > 0
    ensures 0 <= r < n
    decreases if s < 0 then 1 else 0, if s < 0 then -s else s
  {
    if s < 0 then ReduceShift(s + n, n)
    else if s >= n then ReduceShift(s - n, n)
    else s
  }

  /** Reducing the shift is taking the Euclidean remainder. */
  lemma {:induction false} ReduceShiftIsMod(s: int, n: int)
    requires n > 0
    ensures ReduceShift(s, n) == s % n
    decreases if s < 0 then 1 else 0, if s < 0 then -s else s
  {
    if s < 0 {
      ReduceShiftIsMod(s + n, n);
      ModAddMultiple(s, 1, n);
    } else if s >= n {
      ReduceShiftIsMod(s - n, n);
      ModAddMultiple(s - n, 1, n);
    } else {
      ModUnique(s, n, 0, s);
    }
  }

  /** Position i of a roll by s holds the input's element (i - s) mod n. */
  lemma RollAt<T>(xs: seq<T>, s: int, i: int)
    requires 0 <= i < |xs|
    ensures Roll(xs, s)[i] == xs[(i - s) % |xs|]
  {
    ReduceShiftIsMod(i - s, |xs|);
  }

  /** `RollAt` with the length given explicitly, so that a caller with a
      literal length gets a literal modulus. */
  lemma RollAtLength<T>(xs: seq<T>, n: nat, s: int, i: int)
    requires n == |xs| && 0 <= i < n
    ensures Roll(xs, s)[i] == xs[(i - s) % n]
  {
    RollAt(xs, s, i);
  }

  /** Where the library cuts: a roll by s swaps the last s mod n elements to
      the front. */
  lemma RollSplit<T>(xs: seq<T>, s: int)
    requires |xs| > 0
    ensures Roll(xs, s) == xs[|xs| - s % |xs|..] + xs[..|xs| - s % |xs|]
  {
    var n := |xs|;
    var cut := n - s % n;
    var rhs := xs[cut..] + xs[..cut];
    forall i | 0 <= i < n
      ensures Roll(xs, s)[i] == rhs[i]
    {
      RollAt(xs, s, i);
      RollIndexAt(n, s, i);
    }
  }

  /** A roll only rearranges the elements. */
  lemma RollPermutes<T>(xs: seq<T>, s: int)
    ensures multiset(Roll(xs, s)) == multiset(xs)
  {
    if |xs| > 0 {
      var cut := |xs| - s % |xs|;
      RollSplit(xs, s);
      assert xs == xs[..cut] + xs[cut..];
    }
  }

  lemma RollIndexAt(n: int, s: int, i: int)
    requires n > 0 && 0 <= i < n
    ensures i < s % n ==> (i - s) % n == n - s % n + i
    ensures s % n <= i ==> (i - s) % n == i - s % n
  {
    assert s == (s / n) * n + s % n;
    if i < s % n {
      assert i - s == (-(s / n) - 1) * n + (n - s % n + i);
      ModUnique(i - s, n, -(s / n) - 1, n - s % n + i);
    } else {
      assert i - s == (-(s / n)) * n + (i - s % n);
      ModUnique(i - s, n, -(s / n), i - s % n);
    }
  }

  /** Rolling by zero is the identity. */
  lemma RollZero<T>(xs: seq<T>)
    ensures Roll(xs, 0) == xs
  {
    forall i | 0 <= i < |xs|
      ensures Roll(xs, 0)[i] == xs[i]
    {
      RollAt(xs, 0, i);
      ModUnique(i, |xs|, 0, i);
    }
  }

  /** Two rolls compose into one roll by the sum of the shifts. */
  lemma RollRoll<T>(xs: seq<T>, a: int, b: int)
    ensures Roll(Roll(xs, a), b) == Roll(xs, a + b)
  {
    var n := |xs|;
    forall i | 0 <= i < n
      ensures Roll(Roll(xs, a), b)[i] == Roll(xs, a + b)[i]
    {
      RollRollAt(xs, a, b, i);
    }
  }

  lemma RollRollAt<T>(xs: seq<T>, a: int, b: int, i: int)
    requires 0 <= i < |xs|
    ensures Roll(Roll(xs, a), b)[i] == Roll(xs, a + b)[i]
  {
    var n := |xs|;
    var j := (i - b) % n;
    RollAt(Roll(xs, a), b, i);
    RollAt(xs, a, j);
    RollAt(xs, a + b, i);
    ModShiftCombine(i, a, b, n);
  }

  /** Two shifts reduced one after the other are the combined shift reduced. */
  lemma ModShiftCombine(i: int, a: int, b: int, n: int)
    requires n > 0
    ensures ((i - b) % n - a) % n == (i - (a + b)) % n
  {
    ModSubReduced(i - b, a, n);
    assert i - b - a == i - (a + b);
  }

  /** A roll depends only on its shift modulo the length. */
  lemma RollMod<T>(xs: seq<T>, s: int)
    requires |xs| > 0
    ensures Roll(xs, s) == Roll(xs, s % |xs|)
  {
    var n := |xs|;
    forall i | 0 <= i < n
      ensures Roll(xs, s)[i] == Roll(xs, s % n)[i]
    {
      RollAt(xs, s, i);
      RollAt(xs, s % n, i);
      assert s == (s / n) * n + s % n;
      assert i - s % n == (i - s) + (s / n) * n;
      ModAddMultiple(i - s, s / n, n);
    }
  }

  /** Rolling back by the same shift restores the input. */
  lemma RollInverse<T>(xs: seq<T>, s: int)
    ensures Roll(Roll(xs, s), -s) == xs
  {
    calc {
      Roll(Roll(xs, s), -s);
      { RollRoll(xs, s, -s); }
      Roll(xs, s + -s);
      Roll(xs, 0);
      { RollZero(xs); }
      xs;
    }
  }

  /** A function applied position by position (a shared layer applied to every
      vertex). */
  function MapSeq<A, B>(f: A -> B, xs: seq<A>): (r: seq<B>)
    ensures |r| == |xs|
    ensures forall i :: 0 <= i < |xs| ==> r[i] == f(xs[i])
  {
    if |xs| == 0 then [] else [f(xs[0])] + MapSeq(f, xs[1..])
  }

  /** Mapping two rearrangements of the same elements gives two rearrangements
      of the same images. */
  lemma {:induction false} MapRearranged<A, B>(f: A -> B, a: seq<A>, b: seq<A>)
    requires multiset(a) == multiset(b)
    ensures multiset(MapSeq(f, a)) == multiset(MapSeq(f, b))
    decreases |a|
  {
    if |a| == 0 {
      assert |b| == |multiset(b)| == 0;
      assert MapSeq(f, b) == [];
    } else {
      var i := RemoveMatching(a, b);
      var b' := RemoveAt(b, i);
      assert b == b[..i] + [b[i]] + b[i + 1..];
      MapRearranged(f, a[1..], b');
      MapConcat(f, b[..i] + [b[i]], b[i + 1..]);
      MapConcat(f, b[..i], [b[i]]);
      MapConcat(f, b[..i], b[i + 1..]);
      assert MapSeq(f, a) == [f(a[0])] + MapSeq(f, a[1..]);
    }
  }

  /** The sequence with position i removed. */
  function RemoveAt<T>(xs: seq<T>, i: nat): (r: seq<T>)
    requires i < |xs|
    ensures |r| == |xs| - 1
  {
    xs[..i] + xs[i + 1..]
  }

  /** Removing a position takes exactly that element out of the multiset. */
  lemma RemoveAtMultiset<T>(xs: seq<T>, i: nat)
    requires i < |xs|
    ensures multiset(RemoveAt(xs, i)) == multiset(xs) - multiset{xs[i]}
  {
    assert xs == xs[..i] + [xs[i]] + xs[i + 1..];
  }

  /** Taking the first element off one of two rearrangements of each other
      and a matching element off the other leaves rearrangements again. */
  lemma RemoveMatching<T>(a: seq<T>, b: seq<T>) returns (i: nat)
    requires |a| > 0 && multiset(a) == multiset(b)
    ensures i < |b| && b[i] == a[0]
    ensures multiset(a[1..]) == multiset(RemoveAt(b, i))
  {
    assert a[0] in multiset(b);
    i :| 0 <= i < |b| && b[i] == a[0];
    RemoveAtMultiset(b, i);
    assert a == [a[0]] + a[1..];
  }

  lemma MapConcat<A, B>(f: A -> B, a: seq<A>, b: seq<A>)
    ensures MapSeq(f, a + b) == MapSeq(f, a) + MapSeq(f, b)
  {
    var l, r := MapSeq(f, a + b), MapSeq(f, a) + MapSeq(f, b);
    assert |l| == |r|;
    forall i | 0 <= i < |l|
      ensures l[i] == r[i]
    {
      if i < |a| {
        assert (a + b)[i] == a[i];
      } else {
        assert (a + b)[i] == b[i - |a|];
      }
    }
  }

  /** A position-wise map commutes with every roll. */
  lemma MapRoll<A, B>(f: A -> B, xs: seq<A>, s: int)
    ensures MapSeq(f, Roll(xs, s)) == Roll(MapSeq(f, xs), s)
  {
    forall i | 0 <= i < |xs|
      ensures MapSeq(f, Roll(xs, s))[i] == Roll(MapSeq(f, xs), s)[i]
    {
      RollAt(xs, s, i);
      RollAt(MapSeq(f, xs), s, i);
    }
  }

  /** Every roll of a four-vertex sequence is one of four explicit rotations. */
  lemma RollFour<T>(q: seq<T>, s: int)
    requires |q| == 4
    ensures s % 4 == 0 ==> Roll(q, s) == q
    ensures s % 4 == 1 ==> Roll(q, s) == [q[3], q[0], q[1], q[2]]
    ensures s % 4 == 2 ==> Roll(q, s) == [q[2], q[3], q[0], q[1]]
    ensures s % 4 == 3 ==> Roll(q, s) == [q[1], q[2], q[3], q[0]]
  {
    RollMod(q, s);
    var t := s % 4;
    if t == 0 {
      RollFourBy(q, 0, [q[0], q[1], q[2], q[3]]);
      assert q == [q[0], q[1], q[2], q[3]];
    } else if t == 1 {
      RollFourBy(q, 1, [q[3], q[0], q[1], q[2]]);
    } else if t == 2 {
      RollFourBy(q, 2, [q[2], q[3], q[0], q[1]]);
    } else {
      RollFourBy(q, 3, [q[1], q[2], q[3], q[0]]);
    }
  }

  /** A roll of a four-vertex sequence by t in 0 .. 3 is the rotation that
      starts with the element t places before the end. */
  lemma RollFourBy<T>(q: seq<T>, t: int, r: seq<T>)
    requires |q| == 4 && 0 <= t < 4 && |r| == 4
    requires forall i :: 0 <= i < 4 ==> r[i] == q[(i - t) % 4]
    ensures Roll(q, t) == r
  {
    forall i | 0 <= i < 4
      ensures Roll(q, t)[i] == r[i]
    {
      RollAtLength(q, 4, t, i);
    }
  }
}
