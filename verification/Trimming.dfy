/** Choosing files when the diff is over budget (apps/worker/tasks.py, `_trim_to_budget`). */
module Trimming {
  import opened StableSort
  import opened ChangedFiles

  predicate CheaperOrEqual(a: FileDiff, b: FileDiff) {
    a.Cost() <= b.Cost()
  }

  function Total(diffs: seq<FileDiff>): int {
    if diffs == [] then 0 else diffs[0].Cost() + Total(diffs[1..])
  }

  /** The loop over an already sorted list: take what still fits, skip what does not. */
  function Greedy(sorted: seq<FileDiff>, budget: int, spent: int): seq<FileDiff> {
    if sorted == [] then []
    else
      var cost := sorted[0].Cost();
      if spent + cost > budget then Greedy(sorted[1..], budget, spent)
      else [sorted[0]] + Greedy(sorted[1..], budget, spent + cost)
  }

  function Trimmed(diffs: seq<FileDiff>, budget: int): seq<FileDiff> {
    Greedy(Sort(diffs, CheaperOrEqual), budget, 0)
  }

  method TrimToBudget(diffs: seq<FileDiff>, budget: int) returns (kept: seq<FileDiff>)
    ensures kept == Trimmed(diffs, budget)
  {
    kept := [];
    var spent := 0;
    var sorted := Sort(diffs, CheaperOrEqual);
    for i := 0 to |sorted|
      invariant kept + Greedy(sorted[i..], budget, spent) == Trimmed(diffs, budget)
    {
      var diff := sorted[i];
      assert sorted[i..][1..] == sorted[i + 1..];
      var cost := diff.additions + diff.deletions;
      if spent + cost > budget {
        continue;
      }
      kept := kept + [diff];
      spent := spent + cost;
    }
  }

  /** Changed lines, added and deleted, of all the files. */
  lemma TotalMeaning(d: FileDiff, rest: seq<FileDiff>)
    ensures Total([]) == 0 && Total([d] + rest) == d.additions + d.deletions + Total(rest)
  {
    assert ([d] + rest)[1..] == rest;
  }

  predicate NonNegative(diffs: seq<FileDiff>) {
    forall d :: d in diffs ==> 0 <= d.Cost()
  }

  lemma CostIsAPreorder(dom: set<FileDiff>)
    ensures PreorderOn(dom, CheaperOrEqual)
  {
  }

  lemma {:induction false} TotalConcat(a: seq<FileDiff>, b: seq<FileDiff>)
    ensures Total(a + b) == Total(a) + Total(b)
  {
    if a == [] {
      assert a + b == b;
    } else {
      assert (a + b)[1..] == a[1..] + b;
      TotalConcat(a[1..], b);
    }
  }

  /** Whatever the costs, what is kept fits. */
  lemma {:induction false} GreedyFits(sorted: seq<FileDiff>, budget: int, spent: int)
    ensures var kept := Greedy(sorted, budget, spent); kept == [] || spent + Total(kept) <= budget
  {
    if sorted != [] {
      var cost := sorted[0].Cost();
      if spent + cost > budget {
        GreedyFits(sorted[1..], budget, spent);
      } else {
        GreedyFits(sorted[1..], budget, spent + cost);
      }
    }
  }

  lemma {:induction false} NothingFits(sorted: seq<FileDiff>, budget: int, spent: int)
    requires forall d :: d in sorted ==> spent + d.Cost() > budget
    ensures Greedy(sorted, budget, spent) == []
  {
    if sorted != [] {
      assert sorted[0] in sorted;
      NothingFits(sorted[1..], budget, spent);
    }
  }

  /** On sorted, non-negative costs the greedy choice stops once and for all: it keeps a prefix. */
  lemma {:induction false} GreedyIsPrefix(sorted: seq<FileDiff>, budget: int, spent: int) returns (m: nat)
    requires NonNegative(sorted) && Ordered(sorted, CheaperOrEqual)
    ensures m <= |sorted| && Greedy(sorted, budget, spent) == sorted[..m]
    ensures m > 0 ==> spent + Total(sorted[..m]) <= budget
    ensures m < |sorted| ==> spent + Total(sorted[..m]) + sorted[m].Cost() > budget
  {
    if sorted == [] {
      m := 0;
    } else {
      HeadBelow(sorted, CheaperOrEqual);
      var first, rest := sorted[0], sorted[1..];
      assert sorted == [first] + rest;
      if spent + first.Cost() > budget {
        NothingFits(sorted, budget, spent);
        m := 0;
      } else {
        var k := GreedyIsPrefix(rest, budget, spent + first.Cost());
        m := k + 1;
        assert sorted[..m] == [first] + rest[..k] && sorted[..m][1..] == rest[..k];
        assert k == 0 ==> rest[..k] == [];
      }
    }
  }

  lemma RemoveOne(t: seq<FileDiff>, x: FileDiff) returns (rest: seq<FileDiff>)
    requires x in t
    ensures multiset(rest) == multiset(t) - multiset{x} && |rest| == |t| - 1 && Total(t) == x.Cost() + Total(rest)
  {
    var k :| 0 <= k < |t| && t[k] == x;
    rest := t[..k] + t[k + 1..];
    assert t == t[..k] + ([x] + t[k + 1..]);
    TotalConcat(t[..k], [x] + t[k + 1..]);
    TotalConcat([x], t[k + 1..]);
    TotalConcat(t[..k], t[k + 1..]);
  }

  lemma PrefixNext(s: seq<FileDiff>, m: nat)
    requires m < |s|
    ensures Total(s[..m + 1]) == Total(s[..m]) + s[m].Cost()
  {
    assert s[..m + 1] == s[..m] + [s[m]];
    TotalConcat(s[..m], [s[m]]);
  }

  lemma {:induction false} PrefixesGrow(s: seq<FileDiff>, m: nat, n: nat)
    requires NonNegative(s) && m <= n <= |s|
    ensures Total(s[..m]) <= Total(s[..n])
    decreases n
  {
    if m < n {
      PrefixesGrow(s, m, n - 1);
      PrefixNext(s, n - 1);
      assert s[n - 1] in s;
    }
  }

  lemma {:induction false} ShiftedPrefixCostsMore(s: seq<FileDiff>, n: nat)
    requires Ordered(s, CheaperOrEqual) && n < |s|
    ensures Total(s[..n]) <= Total(s[1..][..n])
  {
    if n > 0 {
      ShiftedPrefixCostsMore(s, n - 1);
      assert s[..n] == s[..n - 1] + [s[n - 1]];
      assert s[1..][..n] == s[1..][..n - 1] + [s[n]];
      TotalConcat(s[..n - 1], [s[n - 1]]);
      TotalConcat(s[1..][..n - 1], [s[n]]);
      assert CheaperOrEqual(s[n - 1], s[n]);
    }
  }

  lemma WithoutHead(s: seq<FileDiff>, t: seq<FileDiff>)
    requires s != [] && multiset(t) <= multiset(s) && s[0] !in t
    ensures multiset(t) <= multiset(s[1..])
  {
    assert s == [s[0]] + s[1..];
    assert s[0] !in multiset(t);
    assert multiset(s) == multiset{s[0]} + multiset(s[1..]);
  }

  lemma TotalCons(s: seq<FileDiff>, n: nat)
    requires 0 < n <= |s|
    ensures Total(s[..n]) == s[0].Cost() + Total(s[1..][..n - 1])
  {
    assert s[..n][1..] == s[1..][..n - 1];
  }

  /** Exchange: among any `n` of the files, the `n` cheapest cost the least. */
  lemma {:induction false} CheapestAreCheapest(s: seq<FileDiff>, t: seq<FileDiff>)
    requires Ordered(s, CheaperOrEqual) && multiset(t) <= multiset(s)
    ensures |t| <= |s| && Total(s[..|t|]) <= Total(t)
    decreases |s|
  {
    hide Total, Ordered;
    if t == [] {
      assert s[..0] == t;
    } else {
      assert t[0] in multiset(t) && t[0] in multiset(s) && s != [];
      HeadBelow(s, CheaperOrEqual);
      if s[0] in t {
        var rest := RemoveOne(t, s[0]);
        assert s == [s[0]] + s[1..];
        assert multiset(s[1..]) == multiset(s) - multiset{s[0]};
        CheapestAreCheapest(s[1..], rest);
        TotalCons(s, |t|);
      } else {
        WithoutHead(s, t);
        CheapestAreCheapest(s[1..], t);
        ShiftedPrefixCostsMore(s, |t|);
      }
    }
  }

  lemma SortedView(diffs: seq<FileDiff>) returns (s: seq<FileDiff>)
    ensures s == Sort(diffs, CheaperOrEqual) && Ordered(s, CheaperOrEqual) && multiset(s) == multiset(diffs)
    ensures NonNegative(diffs) ==> NonNegative(s)
  {
    s := Sort(diffs, CheaperOrEqual);
    CostIsAPreorder(Elements(diffs));
    SortOrdered(diffs, CheaperOrEqual, Elements(diffs));
    SameElements(s, diffs);
  }

  /**
   * Trimming is optimal: with non-negative costs no choice of files within the budget
   * has more files than the one kept.
   */
  lemma TrimIsOptimal(diffs: seq<FileDiff>, budget: int, choice: seq<FileDiff>)
    requires NonNegative(diffs) && multiset(choice) <= multiset(diffs) && Total(choice) <= budget
    ensures |choice| <= |Trimmed(diffs, budget)|
  {
    hide Total, Ordered, Greedy;
    var s := SortedView(diffs);
    var m := GreedyIsPrefix(s, budget, 0);
    CheapestAreCheapest(s, choice);
    if m < |choice| {
      PrefixNext(s, m);
      PrefixesGrow(s, m + 1, |choice|);
    }
  }

  /**
   * What is kept is a prefix of the stable cost-sorted list, within budget, and nothing
   * left out would still fit.
   */
  lemma TrimKeepsAPrefix(diffs: seq<FileDiff>, budget: int)
    requires NonNegative(diffs)
    ensures var kept := Trimmed(diffs, budget);
      && kept <= Sort(diffs, CheaperOrEqual)
      && (kept == [] || Total(kept) <= budget)
      && (forall i, j :: 0 <= i < j < |kept| ==>
            kept[i].additions + kept[i].deletions <= kept[j].additions + kept[j].deletions)
      && forall d :: d in multiset(diffs) - multiset(kept) ==> Total(kept) + d.Cost() > budget
  {
    hide Total, Ordered, Greedy, Sort, NonNegative;
    var s := SortedView(diffs);
    var m := GreedyIsPrefix(s, budget, 0);
    assert s == s[..m] + s[m..];
    CheapestFirst(s);
    forall d | d in multiset(diffs) - multiset(s[..m]) ensures Total(s[..m]) + d.Cost() > budget {
      RestCostsMore(s, m, d);
    }
  }

  lemma CheapestFirst(s: seq<FileDiff>)
    requires Ordered(s, CheaperOrEqual)
    ensures forall i, j :: 0 <= i < j < |s| ==> s[i].additions + s[i].deletions <= s[j].additions + s[j].deletions
  {
    forall i, j | 0 <= i < j < |s| ensures s[i].additions + s[i].deletions <= s[j].additions + s[j].deletions {
      assert CheaperOrEqual(s[i], s[j]);
    }
  }

  lemma RestCostsMore(s: seq<FileDiff>, m: nat, d: FileDiff)
    requires Ordered(s, CheaperOrEqual) && m <= |s| && d in multiset(s[m..])
    ensures m < |s| && s[m].Cost() <= d.Cost()
  {
    assert d in s[m..];
    var j :| 0 <= j < |s[m..]| && s[m..][j] == d;
    assert j == 0 || CheaperOrEqual(s[m], s[m + j]);
  }

  /** A larger budget keeps the same files, and perhaps more after them. */
  lemma LargerBudgetKeepsMore(diffs: seq<FileDiff>, small: int, large: int)
    requires NonNegative(diffs) && small <= large
    ensures Trimmed(diffs, small) <= Trimmed(diffs, large)
  {
    hide Total, Ordered, Greedy;
    var s := SortedView(diffs);
    var m := GreedyIsPrefix(s, small, 0);
    var n := GreedyIsPrefix(s, large, 0);
    if n < m {
      PrefixNext(s, n);
      PrefixesGrow(s, n + 1, m);
    }
  }
}
