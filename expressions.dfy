/** The values the face-expression detector hands to the page: for each
    detected face, a table of expression labels and confidences. A JS object
    lists its entries in key order, so one face's scores are an ordered
    sequence of (label, confidence) pairs. */
module Expressions {

  /** An expression label such as "happy" or "neutral". */
  type Label = string

  /** One entry of a face's expression scores. */
  type Score = (Label, real)

  /** The expression scores of one face, in the order `Object.entries` yields them. */
  type Scores = seq<Score>

  /** One face found by the detector. Its box and landmarks only feed the
      drawing calls and are not modelled. */
  datatype Detection = Detection(expressions: Scores)

  /** A JS object never holds the same key twice. */
  ghost predicate DistinctLabels(s: Scores) {
    forall i, j :: 0 <= i < j < |s| ==> s[i].0 != s[j].0
  }

  ghost predicate NonNegative(s: Scores) {
    forall i :: 0 <= i < |s| ==> s[i].1 >= 0.0
  }

  /** Every confidence lies in [0, 1], as the classifier promises. */
  ghost predicate Confidences(s: Scores) {
    forall i :: 0 <= i < |s| ==> 0.0 <= s[i].1 <= 1.0
  }

  /** The labels that occur in `s`. */
  function LabelSet(s: Scores): (r: set<Label>)
    ensures forall i :: 0 <= i < |s| ==> s[i].0 in r
    ensures forall l :: l in r ==> exists i :: 0 <= i < |s| && s[i].0 == l
  {
    if s == [] then {} else LabelSet(s[..|s| - 1]) + {s[|s| - 1].0}
  }

  /** The sum of the confidences `s` gives to label `l`: zero when `l` does
      not occur, the one confidence when labels are distinct. */
  function ScoreFor(s: Scores, l: Label): real {
    if s == [] then 0.0
    else ScoreFor(s[..|s| - 1], l) + (if s[|s| - 1].0 == l then s[|s| - 1].1 else 0.0)
  }

  lemma {:induction false} ScoreForAbsent(s: Scores, l: Label)
    requires l !in LabelSet(s)
    ensures ScoreFor(s, l) == 0.0
  {
    if s != [] {
      ScoreForAbsent(s[..|s| - 1], l);
    }
  }

  lemma {:induction false} ScoreForDistinct(s: Scores, i: int)
    requires DistinctLabels(s) && 0 <= i < |s|
    ensures ScoreFor(s, s[i].0) == s[i].1
  {
    var n := |s| - 1;
    if i == n {
      assert s[i].0 !in LabelSet(s[..n]);
      ScoreForAbsent(s[..n], s[i].0);
    } else {
      assert s[..n][i] == s[i];
      ScoreForDistinct(s[..n], i);
    }
  }

  lemma {:induction false} ScoreForNonNegative(s: Scores, l: Label)
    requires NonNegative(s)
    ensures ScoreFor(s, l) >= 0.0
  {
    if s != [] {
      ScoreForNonNegative(s[..|s| - 1], l);
    }
  }

  /** With non-negative confidences, a label's sum is at least any one of
      its entries. */
  lemma {:induction false} ScoreForAtLeast(s: Scores, j: int)
    requires NonNegative(s) && 0 <= j < |s|
    ensures ScoreFor(s, s[j].0) >= s[j].1
  {
    var n := |s| - 1;
    if j == n {
      ScoreForNonNegative(s[..n], s[j].0);
    } else {
      assert s[..n][j] == s[j];
      ScoreForAtLeast(s[..n], j);
    }
  }
}
