/** Python's string comparison and `str.replace(pattern, "")`, on strings as
    sequences of characters. */
module Strings {

  /** Python's `a < b` on strings: the first differing character decides by
      code point, and a proper prefix is smaller. */
  predicate StrLess(a: string, b: string)
    decreases |a|
  {
    if |a| == 0 then |b| > 0
    else if |b| == 0 then false
    else a[0] < b[0] || (a[0] == b[0] && StrLess(a[1..], b[1..]))
  }

  lemma {:induction false} StrLessIrreflexive(a: string)
    ensures !StrLess(a, a)
    decreases |a|
  {
    if |a| > 0 {
      StrLessIrreflexive(a[1..]);
    }
  }

  /** Of two different strings, exactly one is the smaller. */
  lemma {:induction false} StrLessTotal(a: string, b: string)
    ensures a == b || StrLess(a, b) || StrLess(b, a)
    ensures !(StrLess(a, b) && StrLess(b, a))
    decreases |a|
  {
    if |a| > 0 && |b| > 0 {
      StrLessTotal(a[1..], b[1..]);
      if a[0] == b[0] && a[1..] == b[1..] {
        assert a == [a[0]] + a[1..] && b == [b[0]] + b[1..];
      }
    }
  }

  /** A common prefix does not decide the comparison. */
  lemma {:induction false} StrLessCommonPrefix(p: string, a: string, b: string)
    ensures StrLess(p + a, p + b) <==> StrLess(a, b)
    decreases |p|
  {
    if |p| > 0 {
      assert (p + a)[1..] == p[1..] + a && (p + b)[1..] == p[1..] + b;
      StrLessCommonPrefix(p[1..], a, b);
    } else {
      assert p + a == a && p + b == b;
    }
  }

  /** Between strings of the same length the comparison is decided inside
      them, whatever follows. */
  lemma {:induction false} StrLessExtend(a: string, b: string, x: string, y: string)
    requires |a| == |b| && StrLess(a, b)
    ensures StrLess(a + x, b + y)
    decreases |a|
  {
    assert (a + x)[0] == a[0] && (b + y)[0] == b[0];
    if a[0] == b[0] && StrLess(a[1..], b[1..]) {
      StrLessExtend(a[1..], b[1..], x, y);
      assert (a + x)[1..] == a[1..] + x && (b + y)[1..] == b[1..] + y;
    }
  }

  /** The sort key `(len(x), x)`: shorter first, then by string order. */
  predicate KeyLess(a: string, b: string)
  {
    |a| < |b| || (|a| == |b| && StrLess(a, b))
  }

  /** The key orders strings totally: of two different strings exactly one
      has the smaller key. */
  lemma KeyLessTotal(a: string, b: string)
    ensures !KeyLess(a, a)
    ensures a == b || KeyLess(a, b) || KeyLess(b, a)
    ensures !(KeyLess(a, b) && KeyLess(b, a))
  {
    StrLessIrreflexive(a);
    StrLessTotal(a, b);
  }

  lemma KeyLessTransitive(a: string, b: string, c: string)
    requires KeyLess(a, b) && KeyLess(b, c)
    ensures KeyLess(a, c)
  {
    if |a| == |b| == |c| {
      StrLessTransitive(a, b, c);
    }
  }

  lemma {:induction false} StrLessTransitive(a: string, b: string, c: string)
    requires |a| == |b| == |c| && StrLess(a, b) && StrLess(b, c)
    ensures StrLess(a, c)
    decreases |a|
  {
    if a[0] == b[0] == c[0] {
      StrLessTransitive(a[1..], b[1..], c[1..]);
    }
  }

  /** pattern occurs in s starting at position i. */
  predicate OccursAt(s: string, pattern: string, i: int)
  {
    0 <= i && i + |pattern| <= |s| && s[i..i + |pattern|] == pattern
  }

  predicate Contains(s: string, pattern: string)
  {
    exists i :: 0 <= i <= |s| && OccursAt(s, pattern, i)
  }

  /** No occurrence of pattern can start at a position holding a character
      other than its first: so none exists when that character is missing
      from every position an occurrence could start at. */
  lemma AbsentFirstCharacter(s: string, pattern: string)
    requires |pattern| > 0
    requires forall i :: 0 <= i && i + |pattern| <= |s| ==> s[i] != pattern[0]
    ensures !Contains(s, pattern)
  {
    forall i | 0 <= i <= |s|
      ensures !OccursAt(s, pattern, i)
    {
      if i + |pattern| <= |s| {
        assert s[i..i + |pattern|][0] == s[i];
      }
    }
  }

  /** An occurrence in the tail of s is an occurrence in s, one place on. */
  lemma TailOccurs(s: string, pattern: string, i: int)
    requires |s| > 0 && OccursAt(s[1..], pattern, i)
    ensures OccursAt(s, pattern, i + 1)
  {
    assert s[1..][i..i + |pattern|] == s[i + 1..i + 1 + |pattern|];
  }

  lemma TailContains(s: string, pattern: string)
    requires |s| > 0 && Contains(s[1..], pattern)
    ensures Contains(s, pattern)
  {
    var i :| 0 <= i <= |s| - 1 && OccursAt(s[1..], pattern, i);
    TailOccurs(s, pattern, i);
  }

  /** `s.replace(pattern, repl)`: occurrences are found left to right, and each
      one found is replaced whole before the search resumes after it, so
      occurrences never overlap and a replacement is never searched again. */
  function Replace(s: string, pattern: string, repl: string): string
    requires |pattern| > 0
    decreases |s|
  {
    if |s| < |pattern| then s
    else if s[..|pattern|] == pattern then repl + Replace(s[|pattern|..], pattern, repl)
    else [s[0]] + Replace(s[1..], pattern, repl)
  }

  /** An occurrence at the front is replaced, and the search resumes after it. */
  lemma ReplaceAtFront(pattern: string, rest: string, repl: string)
    requires |pattern| > 0
    ensures Replace(pattern + rest, pattern, repl) == repl + Replace(rest, pattern, repl)
  {
    var s := pattern + rest;
    assert s[..|pattern|] == pattern && s[|pattern|..] == rest;
  }

  /** With no occurrence there is nothing to replace. */
  lemma {:induction false} ReplaceAbsent(s: string, pattern: string, repl: string)
    requires |pattern| > 0 && !Contains(s, pattern)
    ensures Replace(s, pattern, repl) == s
    decreases |s|
  {
    if |s| >= |pattern| {
      assert s[0..|pattern|] == s[..|pattern|];
      assert !OccursAt(s, pattern, 0);
      if Contains(s[1..], pattern) {
        TailContains(s, pattern);
      }
      ReplaceAbsent(s[1..], pattern, repl);
      assert s == [s[0]] + s[1..];
    }
  }

  /** Where no occurrence starts, the first character is kept. */
  lemma ReplaceKeepsFirst(s: string, pattern: string, repl: string)
    requires |pattern| > 0 && |s| > 0 && !OccursAt(s, pattern, 0)
    ensures Replace(s, pattern, repl) == [s[0]] + Replace(s[1..], pattern, repl)
  {
    if |s| >= |pattern| {
      assert s[0..|pattern|] == s[..|pattern|];
    } else {
      ReplaceShort(s[1..], pattern, repl);
      assert s == [s[0]] + s[1..];
    }
  }

  lemma ReplaceShort(s: string, pattern: string, repl: string)
    requires |pattern| > 0 && |s| < |pattern|
    ensures Replace(s, pattern, repl) == s
  {
  }

  /** A prefix in which no occurrence starts is kept as it is. */
  lemma {:induction false} ReplaceAfterPrefix(a: string, rest: string, pattern: string, repl: string)
    requires |pattern| > 0
    requires forall i :: 0 <= i < |a| ==> !OccursAt(a + rest, pattern, i)
    ensures Replace(a + rest, pattern, repl) == a + Replace(rest, pattern, repl)
    decreases |a|
  {
    var s := a + rest;
    if |a| > 0 {
      assert !OccursAt(s, pattern, 0);
      ReplaceKeepsFirst(s, pattern, repl);
      assert s[1..] == a[1..] + rest;
      forall i | 0 <= i < |a| - 1
        ensures !OccursAt(a[1..] + rest, pattern, i)
      {
        if OccursAt(s[1..], pattern, i) {
          TailOccurs(s, pattern, i);
        }
      }
      ReplaceAfterPrefix(a[1..], rest, pattern, repl);
      assert a == [a[0]] + a[1..];
    } else {
      assert s == rest;
    }
  }

  /** Replacing pattern in base + pattern replaces just the appended copy,
      when base does not contain pattern and no occurrence can start inside
      base and run into the appended copy (its first character does not
      recur). */
  lemma ReplaceSuffix(base: string, pattern: string, repl: string)
    requires |pattern| > 0 && !Contains(base, pattern)
    requires forall k :: 0 < k < |pattern| ==> pattern[k] != pattern[0]
    ensures Replace(base + pattern, pattern, repl) == base + repl
  {
    forall i | 0 <= i < |base|
      ensures !OccursAt(base + pattern, pattern, i)
    {
      NoOccurrenceInBase(base, pattern, i);
    }
    ReplaceAfterPrefix(base, pattern, pattern, repl);
    ReplaceAtFront(pattern, [], repl);
    assert pattern + [] == pattern;
    ReplaceShort([], pattern, repl);
  }

  /** An occurrence starting inside base would lie in base or would put the
      first character of pattern at a later position of pattern. */
  lemma NoOccurrenceInBase(base: string, pattern: string, i: int)
    requires |pattern| > 0 && !Contains(base, pattern) && 0 <= i < |base|
    requires forall k :: 0 < k < |pattern| ==> pattern[k] != pattern[0]
    ensures !OccursAt(base + pattern, pattern, i)
  {
    var s := base + pattern;
    if i + |pattern| <= |base| {
      assert s[i..i + |pattern|] == base[i..i + |pattern|];
      assert !OccursAt(base, pattern, i);
    } else if i + |pattern| <= |s| {
      var k := |base| - i;
      assert s[i..i + |pattern|][k] == s[|base|] == pattern[0];
      assert 0 < k < |pattern| && pattern[k] != pattern[0];
    }
  }
}
