/** The dominant expression of one face: `Object.keys(e).reduce((a, b) =>
    e[a] > e[b] ? a : b)`. The reduce has no initial value, so it starts
    from the first key and, because the comparison is strict, a later key
    with an equal confidence replaces the one held. */
module Dominant {
  import opened Expressions

  /** `k` holds a maximal confidence and every later entry is strictly
      below it: `k` is the last position of the maximum. */
  ghost predicate IsLastMaximum(s: Scores, k: int) {
    && 0 <= k < |s|
    && (forall j :: 0 <= j < |s| ==> s[j].1 <= s[k].1)
    && (forall j :: k < j < |s| ==> s[j].1 < s[k].1)
  }

  /** The position the reduce ends on. Keys of an expressions object are
      distinct, so looking a key up is reading its entry. */
  function DominantIndex(s: Scores): (k: nat)
    requires |s| > 0
    ensures IsLastMaximum(s, k)
  {
    if |s| == 1 then 0
    else
      var n := |s| - 1;
      var k := DominantIndex(s[..n]);
      if s[k].1 > s[n].1 then k else n
  }

  /** The label the camera log reports. */
  function DominantExpression(s: Scores): (l: Label)
    requires |s| > 0
    ensures l in LabelSet(s)
    ensures exists k :: IsLastMaximum(s, k) && s[k].0 == l
  {
    s[DominantIndex(s)].0
  }

  /** The last maximum is unique, so the two clauses of `IsLastMaximum`
      pin the reduce's answer down, ties included. */
  lemma DominantIsLastMaximum(s: Scores, k: int)
    requires |s| > 0
    ensures IsLastMaximum(s, k) <==> k == DominantIndex(s)
  {
  }
}
