/** A camera session as a whole: the table is reset to `{}` when the camera
    starts, and each timer tick that finds a face adds the first face's
    scores. A tick whose first face has no scores at all never reaches the
    update: the reduce that picks the dominant expression throws first. */
module Session {
  import opened Expressions
  import opened Tables
  import opened Summary

  /** Whether a tick's detections reach `updateExpressionData`. */
  predicate Counted(detections: seq<Detection>) {
    |detections| > 0 && |detections[0].expressions| > 0
  }

  /** The table after one tick. */
  function Tick(t: Table, detections: seq<Detection>): Table {
    if Counted(detections) then AddFrame(t, detections[0].expressions) else t
  }

  /** The table after a whole session, started from the reset table. */
  function SessionTable(ticks: seq<seq<Detection>>): Table {
    if ticks == [] then Empty
    else Tick(SessionTable(ticks[..|ticks| - 1]), ticks[|ticks| - 1])
  }

  /** What the session's counted ticks gave label `l`. */
  function SessionScore(ticks: seq<seq<Detection>>, l: Label): real {
    if ticks == [] then 0.0
    else
      var last := ticks[|ticks| - 1];
      SessionScore(ticks[..|ticks| - 1], l) + (if Counted(last) then ScoreFor(last[0].expressions, l) else 0.0)
  }

  /** Label `l` occurs in the first face of a counted tick of `ticks`. */
  ghost predicate SeenIn(ticks: seq<seq<Detection>>, l: Label) {
    exists i :: 0 <= i < |ticks| && Counted(ticks[i]) && l in LabelSet(ticks[i][0].expressions)
  }

  lemma SeenInStep(ticks: seq<seq<Detection>>, l: Label)
    requires ticks != []
    ensures var n := |ticks| - 1;
      SeenIn(ticks, l) <==>
        SeenIn(ticks[..n], l) || (Counted(ticks[n]) && l in LabelSet(ticks[n][0].expressions))
  {
    var n := |ticks| - 1;
    if SeenIn(ticks[..n], l) {
      var i :| 0 <= i < n && Counted(ticks[..n][i]) && l in LabelSet(ticks[..n][i][0].expressions);
      assert ticks[..n][i] == ticks[i];
    }
    if SeenIn(ticks, l) {
      var i :| 0 <= i < |ticks| && Counted(ticks[i]) && l in LabelSet(ticks[i][0].expressions);
      if i < n {
        assert ticks[..n][i] == ticks[i];
      }
    }
  }

  /** Because the table is reset when the session starts, what the summary
      reads depends on this session's ticks alone: a label is present
      exactly when some counted tick of this session scored it, and its
      total is what those ticks gave it. */
  lemma {:induction false} SessionTotals(ticks: seq<seq<Detection>>)
    ensures var t := SessionTable(ticks);
      && WellFormed(t)
      && (forall l :: Total(t, l) == SessionScore(ticks, l))
      && (forall l :: l in t.totals <==> SeenIn(ticks, l))
  {
    if ticks != [] {
      var n := |ticks| - 1;
      var p := SessionTable(ticks[..n]);
      SessionTotals(ticks[..n]);
      if Counted(ticks[n]) {
        AddFrameEffect(p, ticks[n][0].expressions);
      }
      forall l ensures l in SessionTable(ticks).totals <==> SeenIn(ticks, l) {
        SeenInStep(ticks, l);
      }
    }
  }

  /** Every counted tick's first face has non-negative confidences, as the
      classifier's scores do. */
  ghost predicate NonNegativeSession(ticks: seq<seq<Detection>>) {
    forall i :: 0 <= i < |ticks| && Counted(ticks[i]) ==> NonNegative(ticks[i][0].expressions)
  }

  lemma {:induction false} SessionScoreAtLeast(ticks: seq<seq<Detection>>, i: int, l: Label)
    requires NonNegativeSession(ticks)
    requires 0 <= i < |ticks|
    ensures SessionScore(ticks, l) >= 0.0
    ensures Counted(ticks[i]) ==> SessionScore(ticks, l) >= ScoreFor(ticks[i][0].expressions, l)
  {
    var n := |ticks| - 1;
    if Counted(ticks[n]) {
      ScoreForNonNegative(ticks[n][0].expressions, l);
    }
    if n > 0 {
      assert forall k :: 0 <= k < n ==> ticks[..n][k] == ticks[k];
      SessionScoreAtLeast(ticks[..n], if i < n then i else 0, l);
    }
  }

  /** A session of non-negative confidences leaves non-negative totals. */
  lemma SessionNonNegative(ticks: seq<seq<Detection>>)
    requires NonNegativeSession(ticks)
    ensures NonNegativeTotals(SessionTable(ticks))
  {
    SessionTotals(ticks);
    var t := SessionTable(ticks);
    forall l | l in t.totals ensures t.totals[l] >= 0.0 {
      assert Total(t, l) == SessionScore(ticks, l);
      if ticks != [] {
        SessionScoreAtLeast(ticks, 0, l);
      }
    }
  }

  /** One positive confidence in a counted tick makes the grand total of a
      non-negative session positive. */
  lemma SessionGrandTotalPositive(ticks: seq<seq<Detection>>, i: int, j: int)
    requires NonNegativeSession(ticks)
    requires 0 <= i < |ticks| && Counted(ticks[i])
    requires 0 <= j < |ticks[i][0].expressions| && ticks[i][0].expressions[j].1 > 0.0
    ensures WellFormed(SessionTable(ticks))
    ensures GrandTotal(SessionTable(ticks)) > 0.0
  {
    var t := SessionTable(ticks);
    var s := ticks[i][0].expressions;
    var l := s[j].0;
    SessionTotals(ticks);
    SessionNonNegative(ticks);
    ScoreForAtLeast(s, j);
    SessionScoreAtLeast(ticks, i, l);
    assert Total(t, l) > 0.0;
    assert l in t.order;
    var k :| 0 <= k < |t.order| && t.order[k] == l;
    SumOverBounds(t.order, t.totals);
  }

  /** The summary of such a session is a true percentage breakdown: every
      line lies in [0, 100] and the lines add up to 100. */
  lemma SessionSummary(ticks: seq<seq<Detection>>, i: int, j: int)
    requires NonNegativeSession(ticks)
    requires 0 <= i < |ticks| && Counted(ticks[i])
    requires 0 <= j < |ticks[i][0].expressions| && ticks[i][0].expressions[j].1 > 0.0
    ensures WellFormed(SessionTable(ticks))
    ensures var r := SummaryOf(SessionTable(ticks));
      && PercentSum(r) == 100.0
      && forall k :: 0 <= k < |r| ==> r[k].1.Percent? && 0.0 <= r[k].1.value <= 100.0
  {
    SessionTotals(ticks);
    SessionNonNegative(ticks);
    SessionGrandTotalPositive(ticks, i, j);
    SummarySumsToHundred(SessionTable(ticks));
    SummaryBounds(SessionTable(ticks));
  }
}
