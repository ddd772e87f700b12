/**
 * The model-facing part of a prediction, shared by the prediction API and
 * the interactive predictor: the 0/1 symptom indicator vector fed to the
 * classifier, and the choice of the highest-scoring classes from the order
 * `np.argsort` returns. Scores are abstract ordered values (`real`); the
 * sort itself is a foreign routine, described only by its contract
 * `IsArgsort`, so the order among equal scores is left open.
 */
module Prediction {

  /** `[1 if s in selected else 0 for s in symptomList]` */
  function InputVector(symptomList: seq<string>, selected: seq<string>): (v: seq<int>)
    ensures |v| == |symptomList|
    ensures forall i :: 0 <= i < |v| ==> (v[i] == 0 || v[i] == 1)
    ensures forall i :: 0 <= i < |v| ==> (v[i] == 1 <==> symptomList[i] in selected)
  {
    seq(|symptomList|, i requires 0 <= i < |symptomList| => if symptomList[i] in selected then 1 else 0)
  }

  /** The vector depends on the selection only through which names it holds. */
  lemma SameMembersSameVector(symptomList: seq<string>, a: seq<string>, b: seq<string>)
    requires forall s :: s in a <==> s in b
    ensures InputVector(symptomList, a) == InputVector(symptomList, b)
  {
    var va, vb := InputVector(symptomList, a), InputVector(symptomList, b);
    forall i | 0 <= i < |va|
      ensures va[i] == vb[i]
    {
      assert va[i] == 1 <==> vb[i] == 1;
    }
  }

  /** A repeated symptom, or one the model does not know, leaves the vector as it was. */
  lemma ExtraSymptomIgnored(symptomList: seq<string>, selected: seq<string>, extra: string)
    requires extra in selected || extra !in symptomList
    ensures InputVector(symptomList, selected + [extra]) == InputVector(symptomList, selected)
  {
    forall s
      ensures s in selected + [extra] <==> s in selected || s == extra
    {
    }
    var va, vb := InputVector(symptomList, selected + [extra]), InputVector(symptomList, selected);
    forall i | 0 <= i < |va|
      ensures va[i] == vb[i]
    {
      assert symptomList[i] in symptomList;
    }
  }

  function Min(a: int, b: int): int {
    if a <= b then a else b
  }

  /**
   * What `np.argsort(scores)` returns: every index exactly once, in an order
   * that never puts a higher score before a lower one. Equal scores may come
   * in any order.
   */
  ghost predicate IsArgsort(scores: seq<real>, order: seq<nat>) {
    && |order| == |scores|
    && (forall i :: 0 <= i < |order| ==> order[i] < |scores|)
    && (forall i, j :: 0 <= i < j < |order| ==> order[i] != order[j])
    && (forall j :: 0 <= j < |scores| ==> j in order)
    && (forall i, j :: 0 <= i < j < |order| ==> scores[order[i]] <= scores[order[j]])
  }

  /**
   * `top` is a choice of the `k` best classes: as many as there are, up to
   * `k`, at distinct valid indices, best first, and no class left out
   * scores above a chosen one.
   */
  ghost predicate IsTopK(scores: seq<real>, k: nat, top: seq<nat>) {
    && |top| == Min(k, |scores|)
    && (forall i :: 0 <= i < |top| ==> top[i] < |scores|)
    && (forall i, j :: 0 <= i < j < |top| ==> top[i] != top[j])
    && (forall i, j :: 0 <= i < j < |top| ==> scores[top[i]] >= scores[top[j]])
    && (forall j, i :: 0 <= j < |scores| && j !in top && 0 <= i < |top| ==> scores[j] <= scores[top[i]])
  }

  /** `order[::-1]` */
  function Reversed(order: seq<nat>): (r: seq<nat>)
    ensures |r| == |order|
    ensures forall i :: 0 <= i < |r| ==> r[i] == order[|order| - 1 - i]
  {
    if order == [] then [] else Reversed(order[1..]) + [order[0]]
  }

  /** `order[::-1][:k]`: the last `k` entries of the sort, last first. */
  function TopOf(order: seq<nat>, k: nat): (top: seq<nat>)
    ensures |top| == Min(k, |order|)
    ensures forall i :: 0 <= i < |top| ==> top[i] == order[|order| - 1 - i]
  {
    Reversed(order)[..Min(k, |order|)]
  }

  /** Whatever tie order the sort uses, the reversed prefix is a top-`k` choice. */
  lemma {:induction false} TopOfArgsort(scores: seq<real>, order: seq<nat>, k: nat)
    requires IsArgsort(scores, order)
    ensures IsTopK(scores, k, TopOf(order, k))
  {
    var top, n := TopOf(order, k), |order|;
    forall i, j | 0 <= i < j < |top|
      ensures top[i] != top[j] && scores[top[i]] >= scores[top[j]]
    {
      assert top[i] == order[n - 1 - i] && top[j] == order[n - 1 - j];
    }
    forall j, i | 0 <= j < |scores| && j !in top && 0 <= i < |top|
      ensures scores[j] <= scores[top[i]]
    {
      assert j in order;
      var m :| 0 <= m < n && order[m] == j;
      if m >= n - |top| {
        InTop(order, k, m);
      }
      assert top[i] == order[n - 1 - i];
    }
  }

  /** The last `k` positions of the sort are the ones chosen. */
  lemma InTop(order: seq<nat>, k: nat, m: nat)
    requires |order| - Min(k, |order|) <= m < |order|
    ensures order[m] in TopOf(order, k)
  {
    var top := TopOf(order, k);
    assert top[|order| - 1 - m] == order[m];
  }

  /** With at least `k` classes, exactly `k` are returned; with fewer, all of them. */
  lemma TopCount(scores: seq<real>, top: seq<nat>)
    requires IsTopK(scores, 3, top)
    ensures |scores| >= 3 ==> |top| == 3
    ensures |scores| < 3 ==> forall j :: 0 <= j < |scores| ==> j in top
  {
    if |scores| < 3 {
      AllIndicesChosen(top, |scores|);
    }
  }

  /** The indices `0 .. n-1`. */
  function Range(n: nat): (r: set<nat>)
    ensures forall x: nat :: x in r <==> x < n
    ensures |r| == n
  {
    if n == 0 then {} else Range(n - 1) + {n - 1}
  }

  /** The set of entries of a sequence of indices. */
  function Elements(s: seq<nat>): (r: set<nat>)
    ensures forall x :: x in r <==> x in s
    ensures (forall i, j :: 0 <= i < j < |s| ==> s[i] != s[j]) ==> |r| == |s|
  {
    if s == [] then {}
    else
      var rest := Elements(s[1..]);
      assert forall x :: x in s <==> x == s[0] || x in s[1..];
      if forall i, j :: 0 <= i < j < |s| ==> s[i] != s[j] then
        assert s[0] !in s[1..] by {
          forall i | 0 <= i < |s[1..]|
            ensures s[1..][i] != s[0]
          {
            assert s[1..][i] == s[i + 1];
          }
        }
        assert forall i, j :: 0 <= i < j < |s[1..]| ==> s[1..][i] != s[1..][j] by {
          forall i, j | 0 <= i < j < |s[1..]|
            ensures s[1..][i] != s[1..][j]
          {
            assert s[1..][i] == s[i + 1] && s[1..][j] == s[j + 1];
          }
        }
        {s[0]} + rest
      else
        {s[0]} + rest
  }

  /** `n` distinct indices below `n` are all of them (the pigeonhole principle). */
  lemma {:induction false} AllIndicesChosen(top: seq<nat>, n: nat)
    requires |top| == n
    requires forall i :: 0 <= i < |top| ==> top[i] < n
    requires forall i, j :: 0 <= i < j < |top| ==> top[i] != top[j]
    ensures forall j :: 0 <= j < n ==> j in top
  {
    var s := Elements(top);
    forall j | 0 <= j < n
      ensures j in top
    {
      if j !in top {
        assert s <= Range(n) - {j};
        SubsetSize(s, Range(n) - {j});
        assert false;
      }
    }
  }

  lemma {:induction false} SubsetSize(a: set<nat>, b: set<nat>)
    requires a <= b
    ensures |a| <= |b|
  {
    if a != {} {
      var x :| x in a;
      SubsetSize(a - {x}, b - {x});
    }
  }
}
