/** Choosing the checkpoint to load, as experiments/invariance_area_nmid_test.py
    does for every replica: of the paths the glob `best*.index` matched, the
    last under the sort key `(len(x), x)`, with ".index" removed.  The glob
    itself is file-system access and comes in as the list of matches. */
module Checkpoint {
  import opened Strings
  import opened Decimal

  const IndexSuffix := ".index"

  /** `sorted(p, key=lambda x: (len(x), x))[-1]`: the match with the
      greatest key. */
  function Last(p: seq<string>): (best: string)
    requires |p| > 0
    ensures best in p
    ensures forall x :: x in p ==> x == best || KeyLess(x, best)
  {
    if |p| == 1 then p[0]
    else
      var rest := Last(p[1..]);
      KeyLessTotal(rest, p[0]);
      if KeyLess(rest, p[0]) then
        (forall x | x in p[1..] ensures x == p[0] || KeyLess(x, p[0]) {
           if x != rest { KeyLessTransitive(x, rest, p[0]); }
         }
         p[0])
      else rest
  }

  /** The key is a total order, so the greatest element is the only one
      above all others: whatever order the sort leaves equal keys in (they
      are equal strings), the last element is this one. */
  lemma LastUnique(p: seq<string>, y: string)
    requires y in p && forall x :: x in p ==> x == y || KeyLess(x, y)
    ensures Last(p) == y
  {
    var b := Last(p);
    KeyLessTotal(b, y);
  }

  /** What the selection yields: a path, or the IndexError of `[-1]` on an
      empty match list. */
  datatype Selection = Selected(path: string) | NoMatch

  /** `sorted(p, key=...)[-1].replace(".index", "")`. */
  function Select(p: seq<string>): Selection
  {
    if |p| == 0 then NoMatch else Selected(Replace(Last(p), IndexSuffix, ""))
  }

  /** An empty match list is an error; otherwise the path is a match with
      every ".index" removed, no match is longer, and among the longest
      matches it is the greatest string. */
  lemma SelectSpec(p: seq<string>)
    ensures Select(p).NoMatch? <==> |p| == 0
    ensures Select(p).Selected? ==>
      exists x :: x in p && Select(p).path == Replace(x, IndexSuffix, "") &&
        (forall y :: y in p ==> |y| <= |x|) &&
        (forall y :: y in p && |y| == |x| ==> y == x || StrLess(y, x))
  {
    if |p| > 0 {
      var x := Last(p);
      assert x in p && Select(p).path == Replace(x, IndexSuffix, "");
    }
  }

  /** The first character of ".index" does not recur in it, so the suffix
      cannot overlap a preceding occurrence. */
  lemma IndexSuffixUnbordered()
    ensures |IndexSuffix| == 6
    ensures forall k :: 0 < k < |IndexSuffix| ==> IndexSuffix[k] != IndexSuffix[0]
  {
  }

  /** A match is a checkpoint prefix followed by ".index"; when the prefix has
      no ".index" of its own, removing them gives exactly the prefix. */
  lemma SelectStripsSuffix(p: seq<string>, base: string)
    requires |p| > 0 && Last(p) == base + IndexSuffix && !Contains(base, IndexSuffix)
    ensures Select(p) == Selected(base)
  {
    IndexSuffixUnbordered();
    ReplaceSuffix(base, IndexSuffix, "");
  }

  /** The checkpoint of training step k under a common prefix, e.g.
      ".../checkpoints/best-228.index". */
  function StepFile(prefix: string, k: nat): string
  {
    prefix + NatToString(k) + IndexSuffix
  }

  /** Under the sort key, step files compare as their step numbers. */
  lemma StepFileOrder(prefix: string, a: nat, b: nat)
    ensures KeyLess(StepFile(prefix, a), StepFile(prefix, b)) <==> a < b
  {
    var da, db := NatToString(a), NatToString(b);
    DecimalKeyOrder(a, b);
    assert StepFile(prefix, a) == prefix + (da + IndexSuffix);
    assert StepFile(prefix, b) == prefix + (db + IndexSuffix);
    StrLessCommonPrefix(prefix, da + IndexSuffix, db + IndexSuffix);
    if |da| == |db| {
      if StrLess(da, db) {
        StrLessExtend(da, db, IndexSuffix, IndexSuffix);
      } else if StrLess(db, da) {
        StrLessExtend(db, da, IndexSuffix, IndexSuffix);
        StrLessTotal(da + IndexSuffix, db + IndexSuffix);
      } else {
        StrLessTotal(da, db);
        StrLessIrreflexive(da + IndexSuffix);
      }
    }
  }

  /** For step files under one prefix the rule picks the largest step,
      although plain string order would not (see `StepNinetyNine`). */
  lemma LastStepChosen(prefix: string, steps: seq<nat>, top: nat)
    requires top in steps && forall k :: k in steps ==> k <= top
    ensures |seq(|steps|, i requires 0 <= i < |steps| => StepFile(prefix, steps[i]))| > 0
    ensures Last(seq(|steps|, i requires 0 <= i < |steps| => StepFile(prefix, steps[i]))) == StepFile(prefix, top)
  {
    var p := seq(|steps|, i requires 0 <= i < |steps| => StepFile(prefix, steps[i]));
    var t :| 0 <= t < |steps| && steps[t] == top;
    assert p[t] == StepFile(prefix, top);
    forall x | x in p
      ensures x == StepFile(prefix, top) || KeyLess(x, StepFile(prefix, top))
    {
      var i :| 0 <= i < |p| && p[i] == x;
      assert steps[i] in steps;
      StepFileOrder(prefix, steps[i], top);
    }
    LastUnique(p, StepFile(prefix, top));
  }

  /** best-228 is chosen over best-99 under the key, while plain string order
      would put best-99 last. */
  lemma StepNinetyNine()
    ensures KeyLess("best-99.index", "best-228.index")
    ensures StrLess("best-228.index", "best-99.index")
    ensures Select(["best-99.index", "best-228.index"]) == Selected("best-228")
  {
    var p := ["best-99.index", "best-228.index"];
    assert Last(p) == "best-228.index" by {
      assert KeyLess(p[0], p[1]);
      KeyLessTotal(p[0], p[1]);
    }
    assert "best-228" + IndexSuffix == "best-228.index";
    AbsentFirstCharacter("best-228", IndexSuffix);
    SelectStripsSuffix(p, "best-228");
  }
}
