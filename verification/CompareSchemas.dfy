/** Comparing the columns of a table, source to target only. */
module CompareSchemas {
  import opened Sequences

  /** How many of the first n source columns are missing from the target. */
  function Missing(source: seq<string>, target: seq<string>, n: nat): nat
    requires n <= |source|
  {
    if n == 0 then 0 else Missing(source, target, n - 1) + (if source[n - 1] in target then 0 else 1)
  }

  /** The source columns that the target does not have. */
  function Lost(source: seq<string>, target: seq<string>): set<nat> {
    set i: nat | i < |source| && source[i] !in target
  }

  lemma {:induction false} MissingCount(source: seq<string>, target: seq<string>, n: nat)
    requires n <= |source|
    ensures Missing(source, target, n) == |set i: nat | i < n && source[i] !in target|
  {
    var all := set i: nat | i < n && source[i] !in target;
    if n > 0 {
      MissingCount(source, target, n - 1);
      var before := set i: nat | i < n - 1 && source[i] !in target;
      assert all == if source[n - 1] in target then before else before + {n - 1};
    }
  }

  /** The differences found in one table: one for the number of columns, and one
      for each source column looked for in vain. */
  method CompareTable(source: seq<string>, target: seq<string>) returns (diffs: nat)
    ensures diffs == |Lost(source, target)| + (if |source| != |target| then 1 else 0)
    ensures diffs == 0 <==> |source| == |target| && forall i | 0 <= i < |source| :: source[i] in target
    ensures Distinct(source) && Distinct(target) ==>
              (diffs == 0 <==> forall name :: name in source <==> name in target)
  {
    diffs := 0;
    if |source| != |target| {
      diffs := diffs + 1;
    }
    for s := 0 to |source|
      invariant diffs == Missing(source, target, s) + (if |source| != |target| then 1 else 0)
    {
      var found := false;
      var t := 0;
      while t < |target| && !found
        invariant 0 <= t <= |target|
        invariant found <==> source[s] in target[..t]
        decreases |target| - t, !found
      {
        found := source[s] == target[t];
        t := t + 1;
      }
      assert t == |target| ==> target[..t] == target;
      if !found {
        diffs := diffs + 1;
      }
    }
    MissingNone(source, target, |source|);
    MissingCount(source, target, |source|);
    if Distinct(source) && Distinct(target) {
      SameColumns(source, target);
    }
  }

  lemma {:induction false} MissingNone(source: seq<string>, target: seq<string>, n: nat)
    requires n <= |source|
    ensures Missing(source, target, n) == 0 <==> forall i | 0 <= i < n :: source[i] in target
  {
    if n > 0 {
      MissingNone(source, target, n - 1);
    }
  }

  function Names(names: seq<string>): set<string> {
    set name | name in names
  }

  lemma {:induction false} NamesCount(names: seq<string>)
    requires Distinct(names)
    ensures |Names(names)| == |names|
  {
    if names != [] {
      var front, last := names[..|names| - 1], names[|names| - 1];
      NamesCount(front);
      assert names == front + [last];
      assert Names(names) == Names(front) + {last};
    }
  }

  lemma SubsetOfSameSize(a: set<string>, b: set<string>)
    requires a <= b && |a| == |b|
    ensures a == b
  {
    if a != b {
      var x :| x in b && x !in a;
      assert a <= b - {x};
      SubsetSize(a, b - {x});
    }
  }

  lemma {:induction false} SubsetSize(a: set<string>, b: set<string>)
    requires a <= b
    ensures |a| <= |b|
    decreases |a|
  {
    if a != {} {
      var x :| x in a;
      SubsetSize(a - {x}, b - {x});
    }
  }

  /** The pigeonhole: with distinct names on each side, as many columns on both
      and every source column found, the target has no other. */
  lemma SameColumns(source: seq<string>, target: seq<string>)
    requires Distinct(source) && Distinct(target)
    ensures |source| == |target| && (forall i | 0 <= i < |source| :: source[i] in target) <==>
            forall name :: name in source <==> name in target
  {
    NamesCount(source);
    NamesCount(target);
    if |source| == |target| && (forall i | 0 <= i < |source| :: source[i] in target) {
      assert Names(source) <= Names(target);
      SubsetOfSameSize(Names(source), Names(target));
      forall name
        ensures name in source <==> name in target
      {
        assert name in source <==> name in Names(source);
        assert name in target <==> name in Names(target);
      }
    }
    assert (forall name :: name in source <==> name in target) ==> Names(source) == Names(target);
  }
}
