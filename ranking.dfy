/**
 * The feature-importance report: feature names zipped with the regressor's importances and
 * ordered by importance, largest first, ties in feature order (Python's `sorted` is stable,
 * also with `reverse=True`).
 */
module Ranking {
  import opened Encoding

  datatype Ranked = Ranked(feature: FeatureName, importance: real)

  /** `zip(names, importances)`: pairs up to the shorter of the two. */
  function Zip(names: seq<FeatureName>, importances: seq<real>): (r: seq<Ranked>)
    ensures |r| == if |names| <= |importances| then |names| else |importances|
    ensures forall i :: 0 <= i < |r| ==> r[i] == Ranked(names[i], importances[i])
  {
    if names == [] || importances == [] then []
    else [Ranked(names[0], importances[0])] + Zip(names[1..], importances[1..])
  }

  function Features(s: seq<Ranked>): (r: seq<FeatureName>)
    ensures |r| == |s| && forall i :: 0 <= i < |s| ==> r[i] == s[i].feature
  {
    if s == [] then [] else [s[0].feature] + Features(s[1..])
  }

  lemma {:induction false} FeaturesAppend(a: seq<Ranked>, b: seq<Ranked>)
    ensures Features(a + b) == Features(a) + Features(b)
  {
    if a == [] {
      assert a + b == b;
    } else {
      assert (a + b)[0] == a[0] && (a + b)[1..] == a[1..] + b;
      FeaturesAppend(a[1..], b);
    }
  }

  ghost predicate NonIncreasing(s: seq<Ranked>) {
    forall i, j :: 0 <= i < j < |s| ==> s[i].importance >= s[j].importance
  }

  /** The entries of `s` whose importance is `v`, in order. */
  function WithImportance(s: seq<Ranked>, v: real): (r: seq<Ranked>)
  {
    if s == [] then []
    else (if s[0].importance == v then [s[0]] else []) + WithImportance(s[1..], v)
  }

  /** Places `x` after every entry at least as important: the entries before it keep their place. */
  function InsertDescending(s: seq<Ranked>, x: Ranked): (r: seq<Ranked>)
    ensures |r| == |s| + 1
  {
    if s == [] then [x]
    else if s[0].importance >= x.importance then [s[0]] + InsertDescending(s[1..], x)
    else [x] + s
  }

  /** Stable sort by descending importance. */
  function SortDescending(s: seq<Ranked>): (r: seq<Ranked>)
    ensures |r| == |s|
  {
    if s == [] then []
    else InsertDescending(SortDescending(s[..|s| - 1]), s[|s| - 1])
  }

  lemma {:induction false} InsertDescendingPermutes(s: seq<Ranked>, x: Ranked)
    ensures multiset(InsertDescending(s, x)) == multiset(s) + multiset{x}
  {
    if s != [] {
      assert s == [s[0]] + s[1..];
      if s[0].importance >= x.importance {
        InsertDescendingPermutes(s[1..], x);
      }
    }
  }

  lemma {:induction false} SortDescendingPermutes(s: seq<Ranked>)
    ensures multiset(SortDescending(s)) == multiset(s)
  {
    if s != [] {
      var init := s[..|s| - 1];
      SortDescendingPermutes(init);
      InsertDescendingPermutes(SortDescending(init), s[|s| - 1]);
      assert s == init + [s[|s| - 1]];
    }
  }

  lemma {:induction false} InsertDescendingSorted(s: seq<Ranked>, x: Ranked)
    requires NonIncreasing(s)
    ensures NonIncreasing(InsertDescending(s, x))
  {
    if s != [] && s[0].importance >= x.importance {
      InsertDescendingSorted(s[1..], x);
      var r := InsertDescending(s[1..], x);
      InsertDescendingPermutes(s[1..], x);
      forall y | y in r ensures s[0].importance >= y.importance {
        assert y in multiset(r);
        if y != x {
          assert y in multiset(s[1..]);
        }
      }
    }
  }

  lemma NonIncreasingTail(s: seq<Ranked>)
    requires NonIncreasing(s) && s != []
    ensures NonIncreasing(s[1..])
    ensures forall y :: y in s[1..] ==> s[0].importance >= y.importance
  {
    forall y | y in s[1..] ensures s[0].importance >= y.importance {
      var k :| 0 <= k < |s[1..]| && s[1..][k] == y;
      assert s[k + 1] == y;
    }
  }

  lemma {:induction false} WithImportanceNone(s: seq<Ranked>, v: real)
    requires forall y :: y in s ==> y.importance < v
    ensures WithImportance(s, v) == []
  {
    if s != [] {
      assert s[0] in s;
      assert forall y :: y in s[1..] ==> y in s;
      WithImportanceNone(s[1..], v);
    }
  }

  /** Inserting keeps, for each importance, the earlier entries ahead of the new one. */
  lemma {:induction false} InsertDescendingStable(s: seq<Ranked>, x: Ranked, v: real)
    requires NonIncreasing(s)
    ensures WithImportance(InsertDescending(s, x), v)
      == WithImportance(s, v) + (if x.importance == v then [x] else [])
  {
    if s != [] {
      if s[0].importance >= x.importance {
        NonIncreasingTail(s);
        InsertDescendingStable(s[1..], x, v);
        StableBehind(s, x, v);
      } else {
        StableAhead(s, x, v);
      }
    }
  }

  /** The inductive step when `x` goes behind the first entry. */
  lemma StableBehind(s: seq<Ranked>, x: Ranked, v: real)
    requires s != [] && s[0].importance >= x.importance
    requires WithImportance(InsertDescending(s[1..], x), v)
      == WithImportance(s[1..], v) + (if x.importance == v then [x] else [])
    ensures WithImportance(InsertDescending(s, x), v)
      == WithImportance(s, v) + (if x.importance == v then [x] else [])
  {
    var head := WithImportance([s[0]], v);
    var own: seq<Ranked> := if x.importance == v then [x] else [];
    assert InsertDescending(s, x) == [s[0]] + InsertDescending(s[1..], x);
    WithImportanceAppend([s[0]], InsertDescending(s[1..], x), v);
    WithImportanceAppend([s[0]], s[1..], v);
    assert s == [s[0]] + s[1..];
    assert head + (WithImportance(s[1..], v) + own) == (head + WithImportance(s[1..], v)) + own;
  }

  /** The case where `x` goes in front: no entry of `s` has importance `x.importance`. */
  lemma StableAhead(s: seq<Ranked>, x: Ranked, v: real)
    requires NonIncreasing(s) && s != [] && s[0].importance < x.importance
    ensures WithImportance(InsertDescending(s, x), v)
      == WithImportance(s, v) + (if x.importance == v then [x] else [])
  {
    assert InsertDescending(s, x) == [x] + s;
    WithImportanceAppend([x], s, v);
    assert WithImportance([x], v) == if x.importance == v then [x] else [];
    if x.importance == v {
      NonIncreasingTail(s);
      forall y | y in s ensures y.importance < v {
        if y != s[0] {
          assert y in s[1..];
        }
      }
      WithImportanceNone(s, v);
      assert [x] + [] == [] + [x];
    } else {
      assert [] + WithImportance(s, v) == WithImportance(s, v) + [];
    }
  }

  lemma {:induction false} WithImportanceAppend(a: seq<Ranked>, b: seq<Ranked>, v: real)
    ensures WithImportance(a + b, v) == WithImportance(a, v) + WithImportance(b, v)
  {
    if a == [] {
      assert a + b == b;
    } else {
      var h: seq<Ranked> := if a[0].importance == v then [a[0]] else [];
      assert (a + b)[0] == a[0] && (a + b)[1..] == a[1..] + b;
      assert WithImportance(a + b, v) == h + WithImportance(a[1..] + b, v);
      WithImportanceAppend(a[1..], b, v);
      assert WithImportance(a, v) == h + WithImportance(a[1..], v);
      assert h + (WithImportance(a[1..], v) + WithImportance(b, v))
          == (h + WithImportance(a[1..], v)) + WithImportance(b, v);
    }
  }

  lemma FeaturesLast(s: seq<Ranked>)
    requires s != []
    ensures Features(s) == Features(s[..|s| - 1]) + [s[|s| - 1].feature]
  {
    var init := Features(s[..|s| - 1]);
    var l := init + [s[|s| - 1].feature];
    forall i | 0 <= i < |s| ensures l[i] == Features(s)[i] {
      if i < |s| - 1 {
        assert l[i] == init[i] == s[..|s| - 1][i].feature;
      }
    }
  }

  lemma {:induction false} InsertDescendingFeatures(s: seq<Ranked>, x: Ranked)
    ensures multiset(Features(InsertDescending(s, x))) == multiset(Features(s)) + multiset{x.feature}
  {
    if s != [] {
      if s[0].importance >= x.importance {
        InsertDescendingFeatures(s[1..], x);
        FeaturesAppend([s[0]], InsertDescending(s[1..], x));
      } else {
        FeaturesAppend([x], s);
      }
      FeaturesAppend([s[0]], s[1..]);
      assert s == [s[0]] + s[1..];
    }
  }

  lemma {:induction false} SortDescendingFeatures(s: seq<Ranked>)
    ensures multiset(Features(SortDescending(s))) == multiset(Features(s))
  {
    if s != [] {
      var init := s[..|s| - 1];
      SortDescendingFeatures(init);
      InsertDescendingFeatures(SortDescending(init), s[|s| - 1]);
      FeaturesLast(s);
    }
  }

  lemma {:induction false} SortDescendingSorted(s: seq<Ranked>)
    ensures NonIncreasing(SortDescending(s))
  {
    if s != [] {
      SortDescendingSorted(s[..|s| - 1]);
      InsertDescendingSorted(SortDescending(s[..|s| - 1]), s[|s| - 1]);
    }
  }

  lemma {:induction false} SortDescendingStable(s: seq<Ranked>, v: real)
    ensures WithImportance(SortDescending(s), v) == WithImportance(s, v)
  {
    if s != [] {
      var init := s[..|s| - 1];
      var last := s[|s| - 1];
      SortDescendingStable(init, v);
      SortDescendingSorted(init);
      InsertDescendingStable(SortDescending(init), last, v);
      assert s == init + [last];
      WithImportanceAppend(init, [last], v);
      assert WithImportance([last], v) == if last.importance == v then [last] else [];
    }
  }

  /**
   * The report's order: a permutation of the input, by non-increasing importance, and
   * stable, so entries of equal importance stay in feature order.
   */
  lemma SortDescendingCorrect(s: seq<Ranked>)
    ensures multiset(SortDescending(s)) == multiset(s)
    ensures NonIncreasing(SortDescending(s))
    ensures forall v :: WithImportance(SortDescending(s), v) == WithImportance(s, v)
  {
    SortDescendingPermutes(s);
    SortDescendingSorted(s);
    forall v ensures WithImportance(SortDescending(s), v) == WithImportance(s, v) {
      SortDescendingStable(s, v);
    }
  }

  /** `_format_feature_importance`: the zipped pairs, most important first. */
  function FormatImportance(names: seq<FeatureName>, importances: seq<real>): (r: seq<Ranked>)
    ensures |r| == |Zip(names, importances)|
  {
    SortDescending(Zip(names, importances))
  }

  /**
   * With one importance per feature, the report names every feature column exactly as often
   * as it occurs, most important first.
   */
  lemma FormatImportanceKeys(names: seq<FeatureName>, importances: seq<real>)
    requires |importances| == |names|
    ensures multiset(Features(FormatImportance(names, importances))) == multiset(names)
    ensures NonIncreasing(FormatImportance(names, importances))
  {
    var z := Zip(names, importances);
    SortDescendingCorrect(z);
    SortDescendingFeatures(z);
    assert Features(z) == names;
  }
}
